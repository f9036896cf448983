/**
 What the score is: two Poisson tails of the logarithms of the kept probabilities, and so
 the probability itself for one token; and that it points the right way.
 */
module ScoreDirection {
  import opened RealFacts
  import opened IncompleteGamma
  import opened GammaTail
  import opened ChiSquared

  // ----- exp and log rise -----

  lemma ExpBelowOne(f: Elementary, h: real)
    requires f.Lawful() && h > 0.0
    ensures f.Exp(-h) < 1.0
  {
    Dominated(f, h, 2);
    ExpPositive(f, -h);
    TwoTerms(h);
    var (e, p) := (f.Exp(-h), Partial(h, 2));
    hide Partial;
    ScaleLess(1.0, p, e);
  }

  lemma TwoTerms(h: real)
    ensures Partial(h, 2) == 1.0 + h
  {
    PartialEmpty(h);
    PartialStep(h, 0);
    PartialStep(h, 1);
    assert Pow(h, 1) == h * Pow(h, 0) && Fact(1) == 1.0 * Fact(0);
  }

  lemma ExpRises(f: Elementary, u: real, v: real)
    requires f.Lawful() && u < v
    ensures f.Exp(u) < f.Exp(v)
  {
    var h := v - u;
    ExpBelowOne(f, h);
    ExpPositive(f, v);
    assert f.Adds(v, -h);
    assert v + -h == u;
    ScaleLess(f.Exp(-h), 1.0, f.Exp(v));
    assert f.Exp(-h) * f.Exp(v) == f.Exp(v) * f.Exp(-h);
  }

  lemma LogRises(f: Elementary, p: real, q: real)
    requires f.Lawful() && 0.0 < p <= q
    ensures f.Log(p) <= f.Log(q)
  {
    assert f.Inverts(p) && f.Inverts(q);
    if f.Log(q) < f.Log(p) {
      ExpRises(f, f.Log(q), f.Log(p));
    }
  }

  ghost predicate AtMost(s: seq<real>, t: seq<real>) {
    |s| == |t| && forall i :: 0 <= i < |s| ==> s[i] <= t[i]
  }

  lemma FlooredRises(f: Elementary, p: real, q: real)
    requires f.Lawful() && p <= q
    ensures f.Log(Floored(p)) <= f.Log(Floored(q))
  {
    assert LOG_FLOOR > 0.0;
    LogRises(f, Floored(p), Floored(q));
  }

  lemma {:induction false} LogSumRises(f: Elementary, s: seq<real>, t: seq<real>)
    requires f.Lawful() && AtMost(s, t)
    ensures LogSum(f, s) <= LogSum(f, t)
  {
    if s != [] {
      FlooredRises(f, s[0], t[0]);
      LogSumRises(f, s[1..], t[1..]);
    }
  }

  // ----- the score -----

  /** Evidence: the more for spam and the less for ham, the higher the score. */
  lemma EvidenceRules(f: Elementary, n: nat, spam: real, ham: real, spam': real, ham': real)
    requires f.Lawful() && Complete(f) && 1 <= n <= CUT && spam <= spam' && ham >= ham'
    ensures Combined(f, n, spam, ham) <= Combined(f, n, spam', ham') + 0.000000000000032
  {
    hide P, Complete;
    NearlyRises(f, n, -2.0 * spam' / 2.0, -2.0 * spam / 2.0);
    NearlyRises(f, n, -2.0 * ham / 2.0, -2.0 * ham' / 2.0);
  }

  /** Raising the kept probabilities raises the score, up to the error of the gamma values. */
  lemma ScoreRises(f: Elementary, ps: seq<real>, qs: seq<real>)
    requires f.Lawful() && Complete(f) && AtMost(Select(ps), Select(qs))
    ensures Score(f, ps) <= Score(f, qs) + 0.000000000000032
  {
    var (s, t) := (Select(ps), Select(qs));
    KeptCount(ps);
    KeptCount(qs);
    if ps == [] || qs == [] {
      return;
    }
    assert Cut(|ps|) == Cut(|qs|) && 1 <= Cut(|ps|) <= CUT;
    ComplementFalls(s, t);
    hide *;
    LogSumRises(f, s, t);
    LogSumRises(f, Complement(t), Complement(s));
    ScoreOf(f, ps);
    ScoreOf(f, qs);
    EvidenceRules(f, Cut(|ps|), LogSum(f, s), LogSum(f, Complement(s)), LogSum(f, t), LogSum(f, Complement(t)));
  }

  lemma ComplementFalls(s: seq<real>, t: seq<real>)
    requires AtMost(s, t)
    ensures AtMost(Complement(t), Complement(s))
  {
  }

  predicate AllHigh(s: seq<real>) {
    forall i :: 0 <= i < |s| ==> s[i] >= 0.5
  }

  predicate AllLow(s: seq<real>) {
    forall i :: 0 <= i < |s| ==> s[i] <= 0.5
  }

  lemma AroundHalf(s: seq<real>)
    ensures AllHigh(s) ==> AtMost(Complement(s), s)
    ensures AllLow(s) ==> AtMost(s, Complement(s))
  {
  }

  /** Kept probabilities of at least one half put the score at one half or above, of at most one half at it or below. */
  lemma ScoreLeans(f: Elementary, ps: seq<real>)
    requires f.Lawful() && Complete(f)
    ensures AllHigh(Select(ps)) ==> Score(f, ps) >= 0.5 - 0.000000000000016
    ensures AllLow(Select(ps)) ==> Score(f, ps) <= 0.5 + 0.000000000000016
  {
    hide *;
    SelectComplement(ps);
    ComplementSymmetry(f, ps);
    AroundHalf(Select(ps));
    assert |Complement(ps)| == |ps|;
    if AllHigh(Select(ps)) {
      ScoreRises(f, Complement(ps), ps);
    }
    if AllLow(Select(ps)) {
      ScoreRises(f, ps, Complement(ps));
    }
  }

  // ----- what the score is -----

  /** A probability, or 1e-200 if that is more. */
  function Raised(p: real): real {
    var floor := 1.0 / Pow(10.0, 200);
    if p >= floor then p else floor
  }

  /** Minus the sum of the logarithms of the raised probabilities. */
  function Surprise(f: Elementary, s: seq<real>): real {
    if s == [] then 0.0 else Surprise(f, s[1..]) - f.Log(Raised(s[0]))
  }

  /** The probabilities of the opposite. */
  function Opposites(s: seq<real>): (r: seq<real>)
    ensures |r| == |s|
    ensures forall i :: 0 <= i < |s| ==> r[i] == 1.0 - s[i]
  {
    seq(|s|, i requires 0 <= i < |s| => 1.0 - s[i])
  }

  predicate Probabilities(s: seq<real>) {
    forall i :: 0 <= i < |s| ==> 0.0 <= s[i] <= 1.0
  }

  lemma LogOfOne(f: Elementary)
    requires f.Lawful()
    ensures f.Log(1.0) == 0.0
  {
    assert f.Inverts(1.0);
    if f.Log(1.0) < 0.0 {
      ExpRises(f, f.Log(1.0), 0.0);
    } else if f.Log(1.0) > 0.0 {
      ExpRises(f, 0.0, f.Log(1.0));
    }
  }

  lemma FloorSmall()
    ensures 0.0 < 1.0 / Pow(10.0, 200) <= 1.0
  {
    PowAtLeastOne(10.0, 200);
    QuotientPositive(1.0, Pow(10.0, 200));
    QuotientAtMost(1.0, Pow(10.0, 200), 1.0);
  }

  lemma {:induction false} PowAtLeastOne(x: real, n: nat)
    requires x >= 1.0
    ensures Pow(x, n) >= 1.0
  {
    if n > 0 {
      PowAtLeastOne(x, n - 1);
      ScaleAtMost(1.0, x, Pow(x, n - 1));
    }
  }

  lemma {:induction false} SurpriseIsLogSum(f: Elementary, s: seq<real>)
    requires f.Lawful() && Probabilities(s)
    ensures Surprise(f, s) == -LogSum(f, s) && Surprise(f, s) >= 0.0
  {
    if s != [] {
      SurpriseIsLogSum(f, s[1..]);
      FloorSmall();
      LogOfOne(f);
      hide Pow;
      LogRises(f, Raised(s[0]), 1.0);
    }
  }

  lemma OppositesAre(s: seq<real>)
    ensures Opposites(s) == Complement(s)
    ensures Probabilities(s) ==> Probabilities(Opposites(s))
  {
  }

  /** The score against its reference: the tails of the surprise that the kept probabilities and their opposites give. */
  lemma ScoreIsTails(f: Elementary, ps: seq<real>)
    requires f.Lawful() && Complete(f) && Probabilities(Select(ps))
    ensures var (s, n) := (Select(ps), |Select(ps)|);
            var (h, t) := (Surprise(f, s), Surprise(f, Opposites(s)));
            Abs(Score(f, ps) - (Below(f, n, h) - Below(f, n, t) + 1.0) / 2.0) <= 0.000000000000016
  {
    hide *;
    var (s, n) := (Select(ps), |Select(ps)|);
    KeptCount(ps);
    OppositesAre(s);
    if ps == [] {
      NothingIsTails(f, ps, Surprise(f, s), Surprise(f, Opposites(s)));
      return;
    }
    SurpriseIsLogSum(f, s);
    SurpriseIsLogSum(f, Opposites(s));
    ScoreOf(f, ps);
    Tails(f, n, Surprise(f, s), Surprise(f, Opposites(s)));
    assert LogSum(f, s) == -Surprise(f, s) && LogSum(f, Complement(s)) == -Surprise(f, Opposites(s));
  }

  /** Without tokens nothing leans either way. */
  lemma NothingIsTails(f: Elementary, ps: seq<real>, h: real, t: real)
    requires ps == []
    ensures Abs(Score(f, ps) - (Below(f, |Select(ps)|, h) - Below(f, |Select(ps)|, t) + 1.0) / 2.0) <= 0.000000000000016
  {
    hide P, Sort;
    PartialEmpty(h);
    PartialEmpty(t);
  }

  /** At most 15 tokens count. */
  lemma KeptCount(ps: seq<real>)
    ensures |Select(ps)| == Cut(|ps|) == if |ps| < 15 then |ps| else 15
  {
    hide Sort;
  }

  lemma CloseWider(r: real, s: real, d: real, e: real)
    requires Close(r, s, d) && d <= e
    ensures Close(r, s, e)
  {
  }

  lemma Tails(f: Elementary, n: nat, h: real, t: real)
    requires f.Lawful() && Complete(f) && 1 <= n <= 15 && h >= 0.0 && t >= 0.0
    ensures Abs(Combined(f, n, -h, -t) - (Below(f, n, h) - Below(f, n, t) + 1.0) / 2.0) <= 0.000000000000016
  {
    GammaIsTail(f, n, h);
    GammaIsTail(f, n, t);
    hide P, Below, Complete;
    assert -2.0 * -t / 2.0 == t && -2.0 * -h / 2.0 == h;
    assert (n as real + 1.0) / 1000000000000000.0 <= 0.000000000000016;
    CloseWider(P(f, n, h), 1.0 - Below(f, n, h), (n as real + 1.0) / 1000000000000000.0, 0.000000000000016);
    CloseWider(P(f, n, t), 1.0 - Below(f, n, t), (n as real + 1.0) / 1000000000000000.0, 0.000000000000016);
    hide Close;
    HalfDifference(P(f, n, h), P(f, n, t), Below(f, n, h), Below(f, n, t), 0.000000000000016);
  }

  lemma HalfDifference(p: real, q: real, u: real, v: real, e: real)
    requires Close(p, 1.0 - u, e) && Close(q, 1.0 - v, e)
    ensures Abs((q - p + 1.0) / 2.0 - (u - v + 1.0) / 2.0) <= e
  {
  }

  /** No kept probability is within 1e-200 of 0 or 1. */
  predicate Inside(s: seq<real>) {
    forall i :: 0 <= i < |s| ==> 1.0 / Pow(10.0, 200) <= s[i] <= 1.0 - 1.0 / Pow(10.0, 200)
  }

  /** Minus the sum of the logarithms themselves. */
  function LogLoss(f: Elementary, s: seq<real>): real {
    if s == [] then 0.0 else LogLoss(f, s[1..]) - f.Log(s[0])
  }

  lemma {:induction false} LogLossIsSurprise(f: Elementary, s: seq<real>)
    requires forall i :: 0 <= i < |s| ==> s[i] >= 1.0 / Pow(10.0, 200)
    ensures LogLoss(f, s) == Surprise(f, s)
  {
    hide Pow;
    if s != [] {
      LogLossIsSurprise(f, s[1..]);
    }
  }

  /** Inside that range the logarithms are those of the kept probabilities and of their opposites. */
  lemma ScoreFromLogs(f: Elementary, ps: seq<real>)
    requires f.Lawful() && Complete(f) && Inside(Select(ps))
    ensures var (s, n) := (Select(ps), |Select(ps)|);
            var (h, t) := (LogLoss(f, s), LogLoss(f, Opposites(s)));
            Abs(Score(f, ps) - (Below(f, n, h) - Below(f, n, t) + 1.0) / 2.0) <= 0.000000000000016
  {
    FloorSmall();
    hide Pow, Score, Below, Surprise, LogLoss, Select, Complete;
    var s := Select(ps);
    LogLossIsSurprise(f, s);
    LogLossIsSurprise(f, Opposites(s));
    ScoreIsTails(f, ps);
  }

  /** One token scores its own probability. */
  lemma ScoreOfOne(f: Elementary, p: real)
    requires f.Lawful() && Complete(f) && Inside([p])
    ensures Abs(Score(f, [p]) - p) <= 0.000000000000016
  {
    hide *;
    SelectOne(p);
    OneLogLoss(f, p);
    ScoreFromLogs(f, [p]);
    BelowOne(f, -f.Log(p));
    BelowOne(f, -f.Log(1.0 - p));
    ExpOfLogs(f, p);
    assert --f.Log(p) == f.Log(p) && --f.Log(1.0 - p) == f.Log(1.0 - p);
    assert (p - (1.0 - p) + 1.0) / 2.0 == p;
  }

  lemma OneLogLoss(f: Elementary, p: real)
    ensures LogLoss(f, [p]) == -f.Log(p) && LogLoss(f, Opposites([p])) == -f.Log(1.0 - p)
  {
    var q := Opposites([p]);
    assert q == [1.0 - p];
    assert [p][1..] == [] && q[1..] == [];
  }

  lemma ExpOfLogs(f: Elementary, p: real)
    requires f.Lawful() && Inside([p])
    ensures f.Exp(f.Log(p)) == p && f.Exp(f.Log(1.0 - p)) == 1.0 - p
  {
    FloorSmall();
    assert [p][0] == p;
    hide Pow;
    assert f.Inverts(p) && f.Inverts(1.0 - p);
  }

  lemma BelowOne(f: Elementary, x: real)
    ensures Below(f, 1, x) == f.Exp(-x)
  {
    BelowIs(f, 1, x);
    PartialStep(x, 0);
    PartialEmpty(x);
    TermZero(x);
    hide Term, Partial, Below;
  }

  lemma SelectOne(p: real)
    ensures Select([p]) == [p]
  {
    assert [p][1..] == [];
    assert Sort([p]) == Insert(p, Sort([]));
  }
}
