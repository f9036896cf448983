/**
 Per-user token counts, and the token probabilities that they feed.  A message is the set
 of its tokens; the token file is the nested dictionary kept in it.
 */
module Trainer {
  import opened Options
  import opened RealFacts

  datatype Counts = Counts(spam: nat, ham: nat) {
    function Total(): nat {
      spam + ham
    }

    function Bumped(isSpam: bool): Counts {
      if isSpam then Counts(spam + 1, ham) else Counts(spam, ham + 1)
    }
  }

  type TokenFile = map<string, map<string, Counts>>

  /** loads is false when the file cannot be read, saves when it cannot be written. */
  datatype Report = Report(account: string, tokens: set<string>, isSpam: bool, loads: bool, saves: bool)

  const MIN_USER_COUNTS := 5
  const NO_COUNTS := Counts(0, 0)

  function CountsOf(file: TokenFile, account: string, token: string): Counts {
    if account in file && token in file[account] then file[account][token] else NO_COUNTS
  }

  function AccountOf(file: TokenFile, account: string): map<string, Counts> {
    if account in file then file[account] else map[]
  }

  function Bump(data: map<string, Counts>, tokens: set<string>, isSpam: bool): map<string, Counts> {
    map token | token in data.Keys + tokens ::
      var entry := if token in data then data[token] else NO_COUNTS;
      if token in tokens then entry.Bumped(isSpam) else entry
  }

  /** The file that a report would write, given what it loaded. */
  function Written(loaded: TokenFile, r: Report): TokenFile {
    loaded[r.account := Bump(AccountOf(loaded, r.account), r.tokens, r.isSpam)]
  }

  /** A file that cannot be read counts as empty. */
  function Loaded(file: TokenFile, r: Report): TokenFile {
    if r.loads then file else map[]
  }

  /** The file after a report that nothing interrupts. */
  function Reported(file: TokenFile, r: Report): TokenFile {
    if r.saves then Written(Loaded(file, r), r) else file
  }

  lemma BumpNone(data: map<string, Counts>, isSpam: bool)
    ensures Bump(data, {}, isSpam) == data
  {
  }

  lemma BumpOne(data: map<string, Counts>, done: set<string>, token: string, isSpam: bool)
    requires token !in done
    ensures var now := Bump(data, done, isSpam);
            var entry := if token in now then now[token] else NO_COUNTS;
            Bump(data, done + {token}, isSpam) == now[token := entry.Bumped(isSpam)]
  {
  }

  class SpamTrainer {
    var file: TokenFile

    constructor ()
      ensures file == map[]
    {
      file := map[];
    }

    /** The first part of report: load the whole file and count the tokens of the account in it. */
    method LoadAndCount(r: Report) returns (allData: TokenFile)
      ensures allData == Written(Loaded(file, r), r)
    {
      hide Bump;
      allData := if r.loads then file else map[];
      var data := if r.account in allData then allData[r.account] else map[];
      ghost var before := data;
      BumpNone(data, r.isSpam);
      assert r.tokens - r.tokens == {};
      var todo := r.tokens;
      while todo != {}
        invariant todo <= r.tokens
        invariant data == Bump(before, r.tokens - todo, r.isSpam)
        decreases |todo|
      {
        var token :| token in todo;
        BumpOne(before, r.tokens - todo, token, r.isSpam);
        assert r.tokens - (todo - {token}) == (r.tokens - todo) + {token};
        var entry := if token in data then data[token] else NO_COUNTS;
        data := data[token := entry.Bumped(r.isSpam)];
        todo := todo - {token};
      }
      assert r.tokens - {} == r.tokens;
      allData := allData[r.account := data];
    }

    /** The second part: write the whole file back, or raise. */
    method SaveAll(r: Report, allData: TokenFile) returns (raised: bool)
      modifies this
      ensures file == if r.saves then allData else old(file)
      ensures raised == !r.saves
    {
      if !r.saves {
        return true;
      }
      file := allData;
      return false;
    }

    /** report, when no other report runs meanwhile. */
    method Learn(r: Report) returns (raised: bool)
      modifies this
      ensures file == Reported(old(file), r)
      ensures raised == !r.saves
    {
      var allData := LoadAndCount(r);
      raised := SaveAll(r, allData);
    }
  }

  /** What one report does to the counts of a token. */
  lemma WrittenCounts(loaded: TokenFile, r: Report, account: string, token: string)
    ensures var c := CountsOf(loaded, account, token);
            CountsOf(Written(loaded, r), account, token) == if r.account == account && token in r.tokens then c.Bumped(r.isSpam) else c
  {
  }

  /** One unreadable load forgets every account: all that is left are the counts of the new report. */
  lemma FailedLoadForgets(file: TokenFile, r: Report, account: string, token: string)
    requires r.saves && !r.loads
    ensures CountsOf(Reported(file, r), account, token) ==
      if r.account == account && token in r.tokens then NO_COUNTS.Bumped(r.isSpam) else NO_COUNTS
  {
  }

  // ----- token probabilities -----

  /** Robinson's correction. */
  function Corrected(c: Counts): real {
    (c.spam as real + 1.0) / (c.Total() as real + 2.0)
  }

  function Share(weight: real, p: real): real {
    weight * p
  }

  function Blend(weight: real, user: real, seed: real): real {
    Share(weight, user) + Share(1.0 - weight, seed)
  }

  /** _token_probability */
  function TokenProbability(seed: Option<real>, user: Option<Counts>): Option<real> {
    if seed.Some? && user.None? then seed
    else if user.Some? && seed.None? then
      Some(if user.value.Total() >= MIN_USER_COUNTS then Corrected(user.value) else 0.5)
    else if seed.Some? && user.Some? then
      Some(
        if user.value.Total() >= MIN_USER_COUNTS then Corrected(user.value)
        else Blend(user.value.Total() as real / MIN_USER_COUNTS as real, Corrected(user.value), seed.value))
    else None
  }

  predicate Probability(p: Option<real>) {
    p.Some? ==> 0.0 <= p.value <= 1.0
  }

  lemma CorrectedBetween(c: Counts)
    ensures 0.0 < Corrected(c) < 1.0
  {
    var (n, d) := (c.spam as real + 1.0, c.Total() as real + 2.0);
    QuotientPositive(n, d);
    QuotientLess(n, d, 1.0, 1.0);
  }

  lemma BlendBetween(w: real, u: real, s: real)
    requires 0.0 <= w <= 1.0 && 0.0 <= u <= 1.0 && 0.0 <= s <= 1.0
    ensures 0.0 <= Blend(w, u, s) <= 1.0
  {
    hide Share;
    SharePart(w, u);
    SharePart(1.0 - w, s);
  }

  lemma SharePart(w: real, u: real)
    requires w >= 0.0 && 0.0 <= u <= 1.0
    ensures 0.0 <= Share(w, u) <= w
  {
    ProductNonNegative(w, u);
    ScaleAtMost(u, 1.0, w);
  }

  lemma ProbabilityBounds(seed: Option<real>, user: Option<Counts>)
    requires Probability(seed)
    ensures Probability(TokenProbability(seed, user))
    ensures TokenProbability(seed, user).None? <==> seed.None? && user.None?
  {
    if user.Some? {
      CorrectedBetween(user.value);
      hide Corrected, Blend;
      if seed.Some? && user.value.Total() < MIN_USER_COUNTS {
        BlendBetween(user.value.Total() as real / MIN_USER_COUNTS as real, Corrected(user.value), seed.value);
      }
    }
  }

  lemma QuotientLess(a: real, b: real, c: real, d: real)
    requires b > 0.0 && d > 0.0 && a * d < c * b
    ensures a / b < c / d
  {
    var (x, y) := (a / b, c / d);
    QuotientTimes(a, b);
    QuotientTimes(c, d);
    if x >= y {
      ProductPositive(b, d);
      Crossed(x, y, b, d);
    }
  }

  lemma Crossed(x: real, y: real, b: real, d: real)
    requires b > 0.0 && d > 0.0 && x >= y
    ensures (x * b) * d >= (y * d) * b
  {
    ProductPositive(b, d);
    ScaleAtMost(y, x, b * d);
    assert x * (b * d) == (x * b) * d && y * (b * d) == (y * d) * b;
  }

  lemma CorrectedMoves(c: Counts)
    ensures Corrected(c.Bumped(true)) > Corrected(c) > Corrected(c.Bumped(false))
  {
    var (k, n) := (c.spam as real, c.Total() as real);
    assert (k + 1.0) * (n + 3.0) == k * n + 3.0 * k + n + 3.0;
    assert (k + 2.0) * (n + 2.0) == k * n + 2.0 * k + 2.0 * n + 4.0;
    assert (k + 1.0) * (n + 2.0) == k * n + 2.0 * k + n + 2.0;
    QuotientLess(k + 1.0, n + 2.0, k + 2.0, n + 3.0);
    QuotientLess(k + 1.0, n + 3.0, k + 1.0, n + 2.0);
  }

  /** q is the share of spam by Laplace's rule: its odds are those of the counts, each raised by one. */
  predicate HasOdds(q: real, c: Counts) {
    q * (c.ham as real + 1.0) == (1.0 - q) * (c.spam as real + 1.0)
  }

  lemma CorrectedOdds(c: Counts)
    ensures HasOdds(Corrected(c), c)
  {
    var (k, h) := (c.spam as real + 1.0, c.ham as real + 1.0);
    QuotientTimes(k, k + h);
    var q := k / (k + h);
    assert q * h == q * (k + h) - q * k;
    assert Corrected(c) == q;
  }

  lemma OddsUnique(q: real, r: real, c: Counts)
    requires HasOdds(q, c) && HasOdds(r, c)
    ensures q == r
  {
    var n := c.spam as real + c.ham as real + 2.0;
    assert q * n == c.spam as real + 1.0 && r * n == c.spam as real + 1.0;
    if q < r {
      ScaleLess(q, r, n);
    } else if r < q {
      ScaleLess(r, q, n);
    }
  }

  /**
   The probability of a token, q being the one with the odds of its counts: q from five
   observations on; before that one half without a seed, and with one a mixture in which the
   seed's part of five shrinks by one with each observation, from all of it.
   */
  lemma ProbabilityExactly(seed: Option<real>, c: Counts, q: real)
    requires HasOdds(q, c)
    ensures c.Total() >= 5 ==> TokenProbability(seed, Some(c)) == Some(q)
    ensures c.Total() < 5 && seed.None? ==> TokenProbability(seed, Some(c)) == Some(0.5)
    ensures c.Total() < 5 && seed.Some? ==>
      5.0 * TokenProbability(seed, Some(c)).value == Share(c.Total() as real, q) + Share(5.0 - c.Total() as real, seed.value)
    ensures seed.Some? ==> TokenProbability(seed, None) == TokenProbability(seed, Some(Counts(0, 0))) == seed
  {
    CorrectedOdds(c);
    OddsUnique(q, Corrected(c), c);
    hide HasOdds, Corrected, Blend, Share;
    if seed.Some? {
      NoObservations(seed.value, Counts(0, 0));
      if c.Total() < 5 {
        Mixture(seed.value, c);
      }
    }
  }

  lemma Mixture(s: real, c: Counts)
    requires c.Total() < 5
    ensures 5.0 * TokenProbability(Some(s), Some(c)).value == Share(c.Total() as real, Corrected(c)) + Share(5.0 - c.Total() as real, s)
  {
    SeededValue(s, c);
    FifthOf(c.Total() as real, Corrected(c), s);
    hide TokenProbability, Corrected, Blend, Share;
  }

  lemma NoObservations(s: real, c: Counts)
    requires c.Total() == 0
    ensures TokenProbability(Some(s), Some(c)) == Some(s)
  {
    SeededValue(s, c);
    NoWeight(c.Total() as real / 5.0, Corrected(c), s);
    hide TokenProbability, Corrected, Blend;
  }

  lemma NoWeight(w: real, u: real, s: real)
    requires w == 0.0
    ensures Blend(w, u, s) == s
  {
  }

  /** The probability of a token before and after one more report that contains it. */
  ghost predicate Moves(seed: Option<real>, c: Counts, isSpam: bool) {
    var before := TokenProbability(seed, Some(c)).value;
    var after := TokenProbability(seed, Some(c.Bumped(isSpam))).value;
    if isSpam then after > before else after < before
  }

  /** From five observations on, a spam report raises the probability and a ham report lowers it. */
  lemma ReportMoves(seed: Option<real>, c: Counts, isSpam: bool)
    requires c.Total() >= 5
    ensures Moves(seed, c, isSpam)
  {
    CorrectedMoves(c);
  }

  /** Without a seed nothing moves before the fifth observation, which can go either way. */
  lemma UnseededMoves(c: Counts, isSpam: bool)
    requires c.Total() < 5
    ensures Moves(None, c, isSpam) <==> c.Total() == 4 && if isSpam then c.spam >= 2 else c.spam <= 2
  {
    var after := c.Bumped(isSpam);
    if c.Total() == 4 {
      assert Corrected(after) == (after.spam as real + 1.0) / 7.0;
    }
  }

  /** The seed at which a report of the given kind leaves the blended probability where it is. */
  function Balance(c: Counts, isSpam: bool): real {
    var n := c.Total() as real;
    Share(n + 1.0, Corrected(c.Bumped(isSpam))) - Share(n, Corrected(c))
  }

  /**
   With a seed and fewer than five observations the move is in the right direction exactly
   when the seed is on the right side of a balance point.
   */
  lemma SeededMoves(seed: real, c: Counts, isSpam: bool)
    requires c.Total() < 5
    ensures Moves(Some(seed), c, isSpam) <==> if isSpam then seed < Balance(c, isSpam) else seed > Balance(c, isSpam)
  {
    var d := c.Bumped(isSpam);
    SeededValue(seed, c);
    SeededValue(seed, d);
    hide Corrected, Blend, Share, TokenProbability;
    BlendDifference(c.Total() as real, Corrected(c), Corrected(d), seed);
    assert d.Total() as real == c.Total() as real + 1.0;
  }

  lemma SeededValue(seed: real, c: Counts)
    requires c.Total() <= 5
    ensures TokenProbability(Some(seed), Some(c)) == Some(Blend(c.Total() as real / 5.0, Corrected(c), seed))
  {
    FullWeight(Corrected(c), seed);
    hide Corrected, Blend, Share;
  }

  lemma FullWeight(u: real, s: real)
    ensures Blend(1.0, u, s) == u
  {
  }

  lemma BlendDifference(n: real, u: real, v: real, s: real)
    ensures 5.0 * (Blend((n + 1.0) / 5.0, v, s) - Blend(n / 5.0, u, s)) == Share(n + 1.0, v) - Share(n, u) - s
  {
    FifthOf(n, u, s);
    FifthOf(n + 1.0, v, s);
    hide Blend, Share;
    NextShare(n, s);
  }

  lemma NextShare(n: real, s: real)
    ensures Share(5.0 - n, s) - Share(5.0 - (n + 1.0), s) == s
  {
  }

  lemma FifthOf(n: real, u: real, s: real)
    ensures 5.0 * Blend(n / 5.0, u, s) == Share(n, u) + Share(5.0 - n, s)
  {
    FifthShare(n, u);
    FifthShare(5.0 - n, s);
    hide Share;
    assert 1.0 - n / 5.0 == (5.0 - n) / 5.0;
  }

  lemma FifthShare(n: real, u: real)
    ensures 5.0 * Share(n / 5.0, u) == Share(n, u)
  {
    var w := n / 5.0;
    assert 5.0 * (w * u) == (5.0 * w) * u;
  }

  /** A strong seed is weakened by the fifth spam report: 0.99 becomes 6/7. */
  lemma SpamReportCanLower(c: Counts)
    requires c == Counts(4, 0)
    ensures !Moves(Some(0.99), c, true)
    ensures TokenProbability(Some(0.99), Some(c.Bumped(true))).value < TokenProbability(Some(0.99), Some(c)).value
  {
    assert Corrected(c) == 5.0 / 6.0 && Corrected(c.Bumped(true)) == 6.0 / 7.0;
    assert Blend(4.0 / 5.0, 5.0 / 6.0, 0.99) == 0.8 * (5.0 / 6.0) + 0.2 * 0.99;
  }
}
