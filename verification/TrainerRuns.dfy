/**
 Reports of several accounts on the one token file.  A report loads the whole file, changes
 its own account in memory and writes the whole file back; only reports of the same account
 exclude each other, so other reports may load and save in between.
 */
module TrainerRuns {
  import opened Options
  import opened Trainer

  /** Stop ends the process: what was loaded and not saved is forgotten. */
  datatype Step = Load(r: Report) | Save(account: string) | Stop

  /** The file, and the reports between their load and their save with what they are about to write. */
  datatype System = System(file: TokenFile, drafts: map<string, Draft>)

  datatype Draft = Draft(r: Report, allData: TokenFile)

  const EMPTY := System(map[], map[])

  predicate Enabled(s: System, x: Step) {
    match x
    case Load(r) => r.account !in s.drafts
    case Save(a) => a in s.drafts
    case Stop => true
  }

  function Next(s: System, x: Step): System
    requires Enabled(s, x)
  {
    match x
    case Load(r) => s.(drafts := s.drafts[r.account := Draft(r, Written(Loaded(s.file, r), r))])
    case Save(a) => System(if s.drafts[a].r.saves then s.drafts[a].allData else s.file, s.drafts - {a})
    case Stop => s.(drafts := map[])
  }

  function Run(steps: seq<Step>): System {
    if steps == [] then EMPTY
    else
      var s := Run(Before(steps));
      if Enabled(s, Last(steps)) then Next(s, Last(steps)) else s
  }

  predicate Legal(steps: seq<Step>) {
    steps == [] || (Legal(Before(steps)) && Enabled(Run(Before(steps)), Last(steps)))
  }

  function Before(steps: seq<Step>): seq<Step>
    requires steps != []
  {
    steps[..|steps| - 1]
  }

  function Last(steps: seq<Step>): Step
    requires steps != []
  {
    steps[|steps| - 1]
  }

  // ----- told by the trace alone -----

  /** Where the report of the account that is not yet saved was loaded. */
  function LoadOf(steps: seq<Step>, account: string): (l: Option<nat>)
    ensures l.Some? ==> l.value < |steps| && steps[l.value].Load? && steps[l.value].r.account == account
  {
    if steps == [] then None
    else
      match Last(steps)
      case Load(r) => if r.account == account then Some(|steps| - 1) else LoadOf(Before(steps), account)
      case Save(a) => if a == account then None else LoadOf(Before(steps), account)
      case Stop => None
  }

  /** The last step writes the file; the result is where its report was loaded. */
  function WriteOf(steps: seq<Step>): (l: Option<nat>)
    ensures l.Some? ==> l.value < |steps| - 1 && steps[l.value].Load? && steps[l.value].r.saves
  {
    if steps == [] || !Last(steps).Save? then None
    else
      var l := LoadOf(Before(steps), Last(steps).account);
      if l.Some? && steps[l.value].r.saves then l else None
  }

  /** The report written by step k, if it writes one. */
  function WrittenAt(steps: seq<Step>, k: nat): Option<Report>
    requires k < |steps|
  {
    var l := WriteOf(steps[..k + 1]);
    if l.Some? then Some(steps[l.value].r) else None
  }

  predicate Hits(r: Report, account: string, token: string, isSpam: bool) {
    r.account == account && token in r.tokens && r.isSpam == isSpam
  }

  predicate HitAt(steps: seq<Step>, k: nat, account: string, token: string, isSpam: bool)
    requires k < |steps|
  {
    var r := WrittenAt(steps, k);
    r.Some? && Hits(r.value, account, token, isSpam)
  }

  /** All reports ever saved that count for the token. */
  function Tally(steps: seq<Step>, account: string, token: string, isSpam: bool): nat {
    if steps == [] then 0
    else Tally(Before(steps), account, token, isSpam) + if HitAt(steps, |steps| - 1, account, token, isSpam) then 1 else 0
  }

  /**
   The reports in the lineage of the file: the one that wrote it last, those in the lineage of
   what this one had loaded, and so on.  A load that failed ends the lineage.
   */
  function Kept(steps: seq<Step>, account: string, token: string, isSpam: bool): nat {
    if steps == [] then 0
    else
      var l := WriteOf(steps);
      if l.None? then Kept(Before(steps), account, token, isSpam)
      else
        var r := steps[l.value].r;
        (if r.loads then Kept(steps[..l.value], account, token, isSpam) else 0)
        + if Hits(r, account, token, isSpam) then 1 else 0
  }

  predicate NoHits(steps: seq<Step>, i: nat, j: nat, account: string, token: string, isSpam: bool)
    requires j <= |steps|
  {
    forall k :: i <= k < j ==> !HitAt(steps, k, account, token, isSpam)
  }

  /**
   Along the lineage no report that counts was saved between a load and its save, and none
   before a load that failed.
   */
  predicate Intact(steps: seq<Step>, account: string, token: string, isSpam: bool) {
    if steps == [] then true
    else
      var l := WriteOf(steps);
      if l.None? then Intact(Before(steps), account, token, isSpam)
      else if !steps[l.value].r.loads then NoHits(steps, 0, |steps| - 1, account, token, isSpam)
      else Intact(steps[..l.value], account, token, isSpam) && NoHits(steps, l.value, |steps| - 1, account, token, isSpam)
  }

  // ----- drafts are what their loads saw -----

  ghost predicate DraftSound(steps: seq<Step>, account: string) {
    var (s, l) := (Run(steps), LoadOf(steps, account));
    && (account in s.drafts <==> l.Some?)
    && (l.Some? ==>
        var r := steps[l.value].r;
        s.drafts[account] == Draft(r, Written(Loaded(Run(steps[..l.value]).file, r), r)))
  }

  lemma {:induction false} DraftsSound(steps: seq<Step>, account: string)
    requires Legal(steps)
    ensures DraftSound(steps, account)
  {
    if steps != [] {
      var before := Before(steps);
      DraftsSound(before, account);
      var l := LoadOf(steps, account);
      hide Written, Loaded;
      if l.Some? && l.value < |before| {
        assert before[..l.value] == steps[..l.value];
      }
    }
  }

  /** The file after a run: unchanged, or written by the report that its last step saves. */
  lemma FileStep(steps: seq<Step>)
    requires Legal(steps) && steps != []
    ensures var l := WriteOf(steps);
            Run(steps).file ==
            if l.None? then Run(Before(steps)).file
            else Written(Loaded(Run(steps[..l.value]).file, steps[l.value].r), steps[l.value].r)
  {
    var before := Before(steps);
    hide Written, Loaded;
    if Last(steps).Save? {
      DraftsSound(before, Last(steps).account);
      var l := LoadOf(before, Last(steps).account);
      assert before[..l.value] == steps[..l.value];
    }
  }

  lemma {:induction false} LegalPrefix(steps: seq<Step>, k: nat)
    requires Legal(steps) && k <= |steps|
    ensures Legal(steps[..k])
  {
    if k < |steps| {
      LegalPrefix(Before(steps), k);
      assert Before(steps)[..k] == steps[..k];
    } else {
      assert steps[..k] == steps;
    }
  }

  lemma {:induction false} CountsAreKept(steps: seq<Step>, account: string, token: string)
    requires Legal(steps)
    ensures CountsOf(Run(steps).file, account, token) == Counts(Kept(steps, account, token, true), Kept(steps, account, token, false))
  {
    if steps != [] {
      FileStep(steps);
      var l := WriteOf(steps);
      hide Run, Written, CountsOf;
      if l.None? {
        CountsAreKept(Before(steps), account, token);
      } else {
        var r := steps[l.value].r;
        LegalPrefix(steps, l.value);
        CountsAreKept(steps[..l.value], account, token);
        WrittenCounts(Loaded(Run(steps[..l.value]).file, r), r, account, token);
        NoneInEmpty(account, token);
      }
    }
  }

  lemma NoneInEmpty(account: string, token: string)
    ensures CountsOf(map[], account, token) == NO_COUNTS
  {
  }

  // ----- how many reports are lost -----

  lemma TallyStep(steps: seq<Step>, j: nat, account: string, token: string, isSpam: bool)
    requires j < |steps|
    ensures Tally(steps[..j + 1], account, token, isSpam) ==
      Tally(steps[..j], account, token, isSpam) + if HitAt(steps, j, account, token, isSpam) then 1 else 0
  {
    assert Before(steps[..j + 1]) == steps[..j];
    assert steps[..j + 1][..j + 1] == steps[..j + 1];
    hide WriteOf, Hits;
  }

  /** What was saved up to step j counts what was saved up to step i, and the hits between. */
  lemma {:induction false} TallyGrows(steps: seq<Step>, i: nat, j: nat, account: string, token: string, isSpam: bool)
    requires i <= j <= |steps|
    ensures Tally(steps[..i], account, token, isSpam) <= Tally(steps[..j], account, token, isSpam)
    ensures Tally(steps[..i], account, token, isSpam) == Tally(steps[..j], account, token, isSpam) <==>
      NoHits(steps, i, j, account, token, isSpam)
    decreases j
  {
    hide HitAt, Tally;
    if i < j {
      TallyGrows(steps, i, j - 1, account, token, isSpam);
      TallyStep(steps, j - 1, account, token, isSpam);
    }
  }

  lemma TallyLast(steps: seq<Step>, account: string, token: string, isSpam: bool)
    requires steps != []
    ensures var l := WriteOf(steps);
            Tally(steps, account, token, isSpam) ==
            Tally(Before(steps), account, token, isSpam)
            + if l.Some? && Hits(steps[l.value].r, account, token, isSpam) then 1 else 0
  {
    assert steps[..|steps|] == steps;
    hide WriteOf;
  }

  /**
   No report is counted that was not saved, and all saved ones are counted exactly when, along
   the lineage of the file, none was saved between a load and its save nor before a failed load.
   */
  lemma {:induction false} LossExactly(steps: seq<Step>, account: string, token: string, isSpam: bool)
    ensures Kept(steps, account, token, isSpam) <= Tally(steps, account, token, isSpam)
    ensures Kept(steps, account, token, isSpam) == Tally(steps, account, token, isSpam) <==> Intact(steps, account, token, isSpam)
  {
    if steps != [] {
      var l := WriteOf(steps);
      TallyLast(steps, account, token, isSpam);
      hide Tally, WriteOf, Hits;
      var n := |steps| - 1;
      assert steps[..n] == Before(steps);
      if l.None? {
        LossExactly(Before(steps), account, token, isSpam);
      } else if steps[l.value].r.loads {
        LossExactly(steps[..l.value], account, token, isSpam);
        TallyGrows(steps, l.value, n, account, token, isSpam);
      } else {
        TallyGrows(steps, 0, n, account, token, isSpam);
        TallyNone(steps[..0], account, token, isSpam);
      }
    }
  }

  lemma TallyNone(steps: seq<Step>, account: string, token: string, isSpam: bool)
    requires steps == []
    ensures Tally(steps, account, token, isSpam) == 0
  {
  }

  /**
   Over every interleaving the stored counts are those of the reports in the lineage of the
   file; they are those of all reports ever saved exactly when the lineage is intact.
   */
  lemma CountsAreHistory(steps: seq<Step>, account: string, token: string)
    requires Legal(steps)
    ensures var c := CountsOf(Run(steps).file, account, token);
            && c == Counts(Kept(steps, account, token, true), Kept(steps, account, token, false))
            && (c.spam == Tally(steps, account, token, true) <==> Intact(steps, account, token, true))
            && (c.ham == Tally(steps, account, token, false) <==> Intact(steps, account, token, false))
  {
    CountsAreKept(steps, account, token);
    LossExactly(steps, account, token, true);
    LossExactly(steps, account, token, false);
  }

  // ----- reports that keep out of each other's way -----

  /** Step j writes a report that counts the token, or one that forgets what was there. */
  predicate Touches(steps: seq<Step>, j: nat, account: string, token: string)
    requires j < |steps|
  {
    var r := WrittenAt(steps, j);
    r.Some? && ((r.value.account == account && token in r.value.tokens) || !r.value.loads)
  }

  predicate Untouched(steps: seq<Step>, i: nat, j: nat, account: string, token: string)
    requires j <= |steps|
  {
    forall k :: i <= k < j ==> !Touches(steps, k, account, token)
  }

  /** Between the load of a saved report and its save, nothing is saved that touches the token. */
  predicate Isolated(steps: seq<Step>, account: string, token: string) {
    steps == [] ||
    (Isolated(Before(steps), account, token) &&
     var l := WriteOf(steps); l.Some? ==> Untouched(steps, l.value, |steps| - 1, account, token))
  }

  /** The saved reports that count for the token, since a report was saved whose load had failed. */
  function SinceFailure(steps: seq<Step>, account: string, token: string, isSpam: bool): nat {
    if steps == [] then 0
    else
      var (before, l) := (SinceFailure(Before(steps), account, token, isSpam), WriteOf(steps));
      if l.None? then before
      else (if steps[l.value].r.loads then before else 0) + if Hits(steps[l.value].r, account, token, isSpam) then 1 else 0
  }

  lemma SinceStep(steps: seq<Step>, j: nat, account: string, token: string, isSpam: bool)
    requires j < |steps| && !Touches(steps, j, account, token)
    ensures SinceFailure(steps[..j + 1], account, token, isSpam) == SinceFailure(steps[..j], account, token, isSpam)
  {
    assert Before(steps[..j + 1]) == steps[..j];
    hide WriteOf;
  }

  lemma {:induction false} SinceStays(steps: seq<Step>, i: nat, j: nat, account: string, token: string, isSpam: bool)
    requires i <= j <= |steps| && Untouched(steps, i, j, account, token)
    ensures SinceFailure(steps[..j], account, token, isSpam) == SinceFailure(steps[..i], account, token, isSpam)
    decreases j
  {
    hide Touches, SinceFailure;
    if i < j {
      SinceStays(steps, i, j - 1, account, token, isSpam);
      SinceStep(steps, j - 1, account, token, isSpam);
    }
  }

  lemma {:induction false} IsolatedPrefix(steps: seq<Step>, k: nat, account: string, token: string)
    requires Isolated(steps, account, token) && k <= |steps|
    ensures Isolated(steps[..k], account, token)
  {
    hide WriteOf, Untouched;
    if k < |steps| {
      IsolatedPrefix(Before(steps), k, account, token);
      assert Before(steps)[..k] == steps[..k];
    } else {
      assert steps[..k] == steps;
    }
  }

  lemma {:induction false} IsolatedIsKept(steps: seq<Step>, account: string, token: string, isSpam: bool)
    requires Isolated(steps, account, token)
    ensures Kept(steps, account, token, isSpam) == SinceFailure(steps, account, token, isSpam)
  {
    hide WriteOf, Hits, Untouched;
    if steps != [] {
      var (l, n) := (WriteOf(steps), |steps| - 1);
      if l.None? {
        IsolatedIsKept(Before(steps), account, token, isSpam);
      } else if steps[l.value].r.loads {
        IsolatedPrefix(steps, l.value, account, token);
        IsolatedIsKept(steps[..l.value], account, token, isSpam);
        SinceStays(steps, l.value, n, account, token, isSpam);
        assert steps[..n] == Before(steps);
      }
    }
  }

  /** Isolated reports behave as one after another: the counts are those saved since a load last failed. */
  lemma IsolatedCounts(steps: seq<Step>, account: string, token: string)
    requires Legal(steps) && Isolated(steps, account, token)
    ensures CountsOf(Run(steps).file, account, token) ==
      Counts(SinceFailure(steps, account, token, true), SinceFailure(steps, account, token, false))
  {
    CountsAreKept(steps, account, token);
    IsolatedIsKept(steps, account, token, true);
    IsolatedIsKept(steps, account, token, false);
  }

  /**
   A report moves the probability of each of its tokens away from what it had loaded, in the
   right direction from five observations on.  It adds to the counts on file exactly when these
   are still the loaded ones, as they are for isolated reports.
   */
  lemma HistoryMoves(seed: Option<real>, steps: seq<Step>, account: string, token: string)
    requires Legal(steps + [Save(account)]) && WriteOf(steps + [Save(account)]).Some?
    requires var r := steps[WriteOf(steps + [Save(account)]).value].r; r.loads && token in r.tokens
    ensures var after := steps + [Save(account)];
            var l := WriteOf(after).value;
            var (r, c) := (steps[l].r, CountsOf(Run(steps[..l]).file, account, token));
            && CountsOf(Run(after).file, account, token) == c.Bumped(r.isSpam)
            && (c.Total() >= 5 ==> Moves(seed, c, r.isSpam))
            && (CountsOf(Run(after).file, account, token) == CountsOf(Run(steps).file, account, token).Bumped(r.isSpam)
                <==> c == CountsOf(Run(steps).file, account, token))
            && (Isolated(after, account, token) ==> c == CountsOf(Run(steps).file, account, token))
  {
    var after := steps + [Save(account)];
    var l := WriteOf(after).value;
    var r := steps[l].r;
    assert Before(after) == steps && after[..l] == steps[..l] && r == after[l].r;
    FileStep(after);
    assert r.account == account;
    var c := CountsOf(Run(steps[..l]).file, account, token);
    WrittenCounts(Run(steps[..l]).file, r, account, token);
    if c.Total() >= 5 {
      ReportMoves(seed, c, r.isSpam);
    }
    if Isolated(after, account, token) {
      IsolatedLoad(after, l, account, token);
    }
  }

  lemma IsolatedLoad(after: seq<Step>, l: nat, account: string, token: string)
    requires Legal(after) && Isolated(after, account, token) && WriteOf(after) == Some(l)
    ensures CountsOf(Run(after[..l]).file, account, token) == CountsOf(Run(Before(after)).file, account, token)
  {
    hide Run, CountsOf, WriteOf, Untouched;
    var n := |after| - 1;
    assert after[..n] == Before(after) && after != [];
    LegalPrefix(after, l);
    LegalPrefix(after, n);
    IsolatedPrefix(after, l, account, token);
    IsolatedPrefix(after, n, account, token);
    IsolatedCounts(after[..l], account, token);
    IsolatedCounts(after[..n], account, token);
    SinceStays(after, l, n, account, token, true);
    SinceStays(after, l, n, account, token, false);
  }

  // ----- the race of two accounts -----

  predicate Plain(r: Report, account: string, token: string) {
    r == Report(account, {token}, true, true, true)
  }

  /** Both load, then both save: the report saved first is gone from the file. */
  lemma OverlapLosesReport(r: Report, q: Report)
    requires Plain(r, "a", "t") && Plain(q, "b", "t")
    ensures var steps := [Load(r), Load(q), Save("a"), Save("b")];
            && Legal(steps)
            && CountsOf(Run(steps).file, "a", "t") == NO_COUNTS
            && Tally(steps, "a", "t", true) == 1
  {
    var steps := [Load(r), Load(q), Save("a"), Save("b")];
    var (s1, s2, s3) := (steps[..1], steps[..2], steps[..3]);
    assert Before(steps) == s3 && Before(s3) == s2 && Before(s2) == s1 && Before(s1) == [];
    var t1 := Next(EMPTY, Load(r));
    assert Run(s1) == t1 && Legal(s1);
    var t2 := Next(t1, Load(q));
    assert Run(s2) == t2 && Legal(s2);
    var t3 := Next(t2, Save("a"));
    assert Run(s3) == t3 && Legal(s3);
    assert Run(steps) == Next(t3, Save("b")) && Legal(steps);
    WrittenCounts(map[], q, "a", "t");
    NoneInEmpty("a", "t");
    hide Run, Legal, Written;
    assert LoadOf(s2, "a") == Some(0) && WriteOf(s3) == Some(0);
    TallyLast(steps, "a", "t", true);
    TallyLast(s3, "a", "t", true);
    TallyLast(s2, "a", "t", true);
    TallyLast(s1, "a", "t", true);
    TallyNone([], "a", "t", true);
    assert LoadOf(s3, "b") == Some(1) && WriteOf(steps) == Some(1);
  }

  /** "b" loads, "a" loads and saves, "c" loads, "b" saves, "c" saves; each text is the one token "t". */
  predicate Mended(steps: seq<Step>, q: Report, r: Report, p: Report) {
    && steps == [Load(q), Load(r), Save(r.account), Load(p), Save(q.account), Save(p.account)]
    && q.account != r.account && r.account != p.account && p.account != q.account
    && Plain(q, q.account, "t") && Plain(r, r.account, "t") && Plain(p, p.account, "t")
  }

  lemma Prefixes(steps: seq<Step>, k: nat)
    requires k < |steps|
    ensures Before(steps[..k + 1]) == steps[..k] && Last(steps[..k + 1]) == steps[k]
  {
  }

  lemma MendedTrace(steps: seq<Step>, q: Report, r: Report, p: Report)
    requires Mended(steps, q, r, p)
    ensures WriteOf(steps[..1]) == WriteOf(steps[..2]) == WriteOf(steps[..4]) == None
    ensures WriteOf(steps[..3]) == Some(1) && WriteOf(steps[..5]) == Some(0) && WriteOf(steps[..6]) == Some(3)
  {
    Prefixes(steps, 0);
    Prefixes(steps, 1);
    Prefixes(steps, 2);
    Prefixes(steps, 3);
    Prefixes(steps, 4);
    Prefixes(steps, 5);
    assert LoadOf(steps[..1], q.account) == Some(0);
    assert LoadOf(steps[..2], q.account) == Some(0);
    assert LoadOf(steps[..3], q.account) == Some(0);
    assert LoadOf(steps[..4], q.account) == Some(0);
    assert LoadOf(steps[..2], r.account) == Some(1);
    assert LoadOf(steps[..4], p.account) == Some(3);
    assert LoadOf(steps[..5], p.account) == Some(3);
  }

  lemma MendedLegal(steps: seq<Step>, q: Report, r: Report, p: Report)
    requires Mended(steps, q, r, p)
    ensures Legal(steps)
  {
    hide Written, Loaded;
    assert steps[..0] == [] && steps[..6] == steps;
    Prefixes(steps, 0);
    var t1 := Next(EMPTY, steps[0]);
    assert Run(steps[..1]) == t1 && Legal(steps[..1]);
    Prefixes(steps, 1);
    var t2 := Next(t1, steps[1]);
    assert Run(steps[..2]) == t2 && Legal(steps[..2]);
    Prefixes(steps, 2);
    var t3 := Next(t2, steps[2]);
    assert Run(steps[..3]) == t3 && Legal(steps[..3]);
    Prefixes(steps, 3);
    var t4 := Next(t3, steps[3]);
    assert Run(steps[..4]) == t4 && Legal(steps[..4]);
    Prefixes(steps, 4);
    var t5 := Next(t4, steps[4]);
    assert Run(steps[..5]) == t5 && Legal(steps[..5]);
    Prefixes(steps, 5);
  }

  /**
   An overlap off the lineage loses nothing: "b" overwrites what "a" saved between its load and
   its save, but "c" had loaded it and writes it back.
   */
  lemma OverlapOffLineageIsHarmless(steps: seq<Step>, q: Report, r: Report, p: Report)
    requires Mended(steps, q, r, p)
    ensures Legal(steps)
    ensures HitAt(steps, 2, r.account, "t", true) && WriteOf(steps[..5]) == Some(0)
    ensures CountsOf(Run(steps).file, r.account, "t").spam == Tally(steps, r.account, "t", true) == 1
  {
    MendedLegal(steps, q, r, p);
    MendedTrace(steps, q, r, p);
    CountsAreKept(steps, r.account, "t");
    var a := r.account;
    assert steps[..0] == [] && steps[..6] == steps;
    Prefixes(steps, 0);
    Prefixes(steps, 1);
    Prefixes(steps, 2);
    Prefixes(steps, 3);
    Prefixes(steps, 4);
    Prefixes(steps, 5);
    hide WriteOf, Run, Legal, CountsOf;
    assert steps[..6][..3] == steps[..3] && steps[..3][..1] == steps[..1];
    assert Kept(steps[..1], a, "t", true) == 0;
    assert Kept(steps[..3], a, "t", true) == 1;
    assert Kept(steps[..6], a, "t", true) == 1;
    TallyStep(steps, 0, a, "t", true);
    TallyStep(steps, 1, a, "t", true);
    TallyStep(steps, 2, a, "t", true);
    TallyStep(steps, 3, a, "t", true);
    TallyStep(steps, 4, a, "t", true);
    TallyStep(steps, 5, a, "t", true);
    TallyNone(steps[..0], a, "t", true);
    hide Tally;
  }
}
