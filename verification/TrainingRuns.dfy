/** What every run of completed reconciliations trains, and how often. */
module TrainingRuns {
  import opened Training

  /** A Python dict: no key twice. */
  ghost predicate IsDict(d: seq<Entry>) {
    forall i, j :: 0 <= i < j < |d| ==> d[i].uid != d[j].uid
  }

  function SpamReport(sc: Scan, e: Entry): Report
    requires e.uid in sc.junkText
  {
    Report(e.uid, e.uid, sc.junkText[e.uid], true)
  }

  function HamReport(cfg: Config, sc: Scan, e: Entry): Report
    requires TrainsHam(cfg, sc, e)
  {
    var uid := Index(sc.inbox, |sc.inbox|)[e.mid];
    Report(e.uid, uid, sc.inboxText[uid], false)
  }

  ghost predicate FromJunk(cfg: Config, prev: seq<Entry>, sc: Scan, n: nat, r: Report)
    requires n <= |sc.junk|
  {
    exists i :: 0 <= i < n && TrainsSpam(cfg, prev, sc, sc.junk[i]) && r == SpamReport(sc, sc.junk[i])
  }

  ghost predicate FromReturn(cfg: Config, prev: seq<Entry>, sc: Scan, n: nat, r: Report)
    requires n <= |prev|
  {
    exists i :: 0 <= i < n && TrainsHam(cfg, sc, prev[i]) && r == HamReport(cfg, sc, prev[i])
  }

  lemma {:induction false} SpamLoopReports(t: Trained, cfg: Config, prev: seq<Entry>, sc: Scan, n: nat, r: Report)
    requires n <= |sc.junk|
    ensures r in SpamLoop(t, cfg, prev, sc, n).reports <==> r in t.reports || FromJunk(cfg, prev, sc, n, r)
  {
    if n > 0 {
      SpamLoopReports(t, cfg, prev, sc, n - 1, r);
      var e := sc.junk[n - 1];
      assert FromJunk(cfg, prev, sc, n, r)
        <==> FromJunk(cfg, prev, sc, n - 1, r) || (TrainsSpam(cfg, prev, sc, e) && r == SpamReport(sc, e));
    }
  }

  lemma {:induction false} HamLoopReports(t: Trained, cfg: Config, prev: seq<Entry>, sc: Scan, n: nat, r: Report)
    requires n <= |prev|
    ensures r in HamLoop(t, cfg, prev, sc, n).reports <==> r in t.reports || FromReturn(cfg, prev, sc, n, r)
  {
    if n > 0 {
      HamLoopReports(t, cfg, prev, sc, n - 1, r);
      var e := prev[n - 1];
      assert FromReturn(cfg, prev, sc, n, r)
        <==> FromReturn(cfg, prev, sc, n - 1, r) || (TrainsHam(cfg, sc, e) && r == HamReport(cfg, sc, e));
    }
  }

  /** inbox_uids holds the last UID of every Message-ID in the listing. */
  lemma {:induction false} IndexMeans(inbox: seq<Entry>, n: nat, mid: string)
    requires n <= |inbox|
    ensures mid in Index(inbox, n) <==> mid != "" && exists i :: 0 <= i < n && inbox[i].mid == mid
    ensures mid in Index(inbox, n) ==>
      exists i :: 0 <= i < n && inbox[i].mid == mid && inbox[i].uid == Index(inbox, n)[mid]
        && forall j :: i < j < n ==> inbox[j].mid != mid
  {
    if n > 0 {
      IndexMeans(inbox, n - 1, mid);
      if inbox[n - 1].mid == mid && mid != "" {
        assert mid in Index(inbox, n) && Index(inbox, n)[mid] == inbox[n - 1].uid;
      }
    }
  }

  // ----- told by the listings alone -----

  /** The daemon recorded a move of this message, or of an INBOX message with this UID. */
  ghost predicate RecordedMove(moves: map<nat, string>, e: Entry) {
    e.uid in moves || (e.mid != "" && exists u :: u in moves && moves[u] == e.mid)
  }

  /** Junk entry i is not in the snapshot, was not moved by the daemon and can be fetched. */
  ghost predicate NewSpam(cfg: Config, prev: seq<Entry>, sc: Scan, i: nat) {
    && i < |sc.junk|
    && cfg.spamOnArrival
    && (forall k :: 0 <= k < |prev| ==> prev[k].uid != sc.junk[i].uid)
    && !RecordedMove(sc.moves, sc.junk[i])
    && sc.junk[i].uid in sc.junkText
  }

  /** Snapshot entry i is not in Junk, and INBOX entry j, the last with its Message-ID, can be fetched. */
  ghost predicate Returned(cfg: Config, prev: seq<Entry>, sc: Scan, i: nat, j: nat) {
    && i < |prev| && j < |sc.inbox|
    && cfg.hamOnReturn
    && (forall k :: 0 <= k < |sc.junk| ==> sc.junk[k].uid != prev[i].uid)
    && prev[i].mid != ""
    && sc.inbox[j].mid == prev[i].mid
    && (forall k :: j < k < |sc.inbox| ==> sc.inbox[k].mid != prev[i].mid)
    && sc.inbox[j].uid in sc.inboxText
  }

  lemma UidsMean(d: seq<Entry>, u: nat)
    ensures u in Uids(d) <==> exists k :: 0 <= k < |d| && d[k].uid == u
  {
  }

  lemma NewSpamTrains(cfg: Config, prev: seq<Entry>, sc: Scan, i: nat)
    requires i < |sc.junk|
    ensures TrainsSpam(cfg, prev, sc, sc.junk[i]) <==> NewSpam(cfg, prev, sc, i)
  {
    UidsMean(prev, sc.junk[i].uid);
    hide Uids;
  }

  lemma ReturnedTrains(cfg: Config, prev: seq<Entry>, sc: Scan, i: nat)
    requires i < |prev|
    ensures TrainsHam(cfg, sc, prev[i]) <==> exists j: nat :: Returned(cfg, prev, sc, i, j)
    ensures forall j: nat :: Returned(cfg, prev, sc, i, j) ==> Index(sc.inbox, |sc.inbox|)[prev[i].mid] == sc.inbox[j].uid
  {
    var e := prev[i];
    UidsMean(sc.junk, e.uid);
    IndexMeans(sc.inbox, |sc.inbox|, e.mid);
    hide Uids, Index;
    if TrainsHam(cfg, sc, e) {
      var j :| 0 <= j < |sc.inbox| && sc.inbox[j].mid == e.mid && sc.inbox[j].uid == Index(sc.inbox, |sc.inbox|)[e.mid]
        && forall k :: j < k < |sc.inbox| ==> sc.inbox[k].mid != e.mid;
      assert Returned(cfg, prev, sc, i, j);
    }
  }

  ghost predicate SpamOf(cfg: Config, prev: seq<Entry>, sc: Scan, r: Report) {
    exists i: nat :: NewSpam(cfg, prev, sc, i) && r == Report(sc.junk[i].uid, sc.junk[i].uid, sc.junkText[sc.junk[i].uid], true)
  }

  ghost predicate HamOf(cfg: Config, prev: seq<Entry>, sc: Scan, r: Report) {
    exists i: nat, j: nat :: Returned(cfg, prev, sc, i, j)
      && r == Report(prev[i].uid, sc.inbox[j].uid, sc.inboxText[sc.inbox[j].uid], false)
  }

  lemma FromJunkIsSpam(cfg: Config, prev: seq<Entry>, sc: Scan, r: Report)
    ensures FromJunk(cfg, prev, sc, |sc.junk|, r) <==> SpamOf(cfg, prev, sc, r)
  {
    forall i: nat | i < |sc.junk| ensures TrainsSpam(cfg, prev, sc, sc.junk[i]) <==> NewSpam(cfg, prev, sc, i) {
      NewSpamTrains(cfg, prev, sc, i);
    }
    hide TrainsSpam;
    if i :| 0 <= i < |sc.junk| && TrainsSpam(cfg, prev, sc, sc.junk[i]) && r == SpamReport(sc, sc.junk[i]) {
      assert NewSpam(cfg, prev, sc, i);
    }
  }

  lemma FromReturnIsHam(cfg: Config, prev: seq<Entry>, sc: Scan, r: Report)
    ensures FromReturn(cfg, prev, sc, |prev|, r) <==> HamOf(cfg, prev, sc, r)
  {
    if FromReturn(cfg, prev, sc, |prev|, r) {
      var i :| 0 <= i < |prev| && TrainsHam(cfg, sc, prev[i]) && r == HamReport(cfg, sc, prev[i]);
      ReturnedTrains(cfg, prev, sc, i);
      var j: nat :| Returned(cfg, prev, sc, i, j);
    }
    if HamOf(cfg, prev, sc, r) {
      var i: nat, j: nat :| Returned(cfg, prev, sc, i, j)
        && r == Report(prev[i].uid, sc.inbox[j].uid, sc.inboxText[sc.inbox[j].uid], false);
      ReturnedTrains(cfg, prev, sc, i);
      assert r == HamReport(cfg, sc, prev[i]);
    }
  }

  /**
   A pass trains exactly from the new Junk arrivals that the daemon did not move, and from the
   messages that left Junk and are now in INBOX, there under the last UID of their Message-ID.
   */
  lemma PassTrainsExactly(rows: seq<Row>, cfg: Config, prev: seq<Entry>, sc: Scan, r: Report)
    ensures r in Reconciled(rows, cfg, prev, sc).reports <==> SpamOf(cfg, prev, sc, r) || HamOf(cfg, prev, sc, r)
  {
    var t := Trained(rows, [], NOTHING);
    SpamLoopReports(t, cfg, prev, sc, |sc.junk|, r);
    HamLoopReports(SpamLoop(t, cfg, prev, sc, |sc.junk|), cfg, prev, sc, |prev|, r);
    FromJunkIsSpam(cfg, prev, sc, r);
    FromReturnIsHam(cfg, prev, sc, r);
  }

  // ----- how often one UID is reported -----

  function Count(rs: seq<Report>, u: nat, spam: bool): nat {
    if rs == [] then 0
    else (if rs[|rs| - 1].origin == u && rs[|rs| - 1].spam == spam then 1 else 0) + Count(rs[..|rs| - 1], u, spam)
  }

  lemma {:induction false} CountSum(a: seq<Report>, b: seq<Report>, u: nat, spam: bool)
    ensures Count(a + b, u, spam) == Count(a, u, spam) + Count(b, u, spam)
  {
    if b == [] {
      assert a + b == a;
    } else {
      CountSum(a, b[..|b| - 1], u, spam);
      assert (a + b)[..|a + b| - 1] == a + b[..|b| - 1];
    }
  }

  lemma CountOne(a: seq<Report>, r: Report, u: nat, spam: bool)
    ensures Count(a + [r], u, spam) == Count(a, u, spam) + if r.origin == u && r.spam == spam then 1 else 0
  {
    assert (a + [r])[..|a|] == a;
  }

  /** u is new in this listing. */
  predicate Enters(prev: seq<Entry>, sc: Scan, u: nat) { u in Uids(sc.junk) && u !in Uids(prev) }

  predicate Leaves(prev: seq<Entry>, sc: Scan, u: nat) { u in Uids(prev) && u !in Uids(sc.junk) }

  lemma {:induction false} SpamLoopCount(t: Trained, cfg: Config, prev: seq<Entry>, sc: Scan, n: nat, u: nat)
    requires n <= |sc.junk| && IsDict(sc.junk)
    ensures Count(SpamLoop(t, cfg, prev, sc, n).reports, u, false) == Count(t.reports, u, false)
    ensures Count(SpamLoop(t, cfg, prev, sc, n).reports, u, true) == Count(t.reports, u, true)
      + if exists i :: 0 <= i < n && sc.junk[i].uid == u && TrainsSpam(cfg, prev, sc, sc.junk[i]) then 1 else 0
  {
    hide IsDaemonMove, Uids, LogFeedback, Tag;
    if n > 0 {
      SpamLoopCount(t, cfg, prev, sc, n - 1, u);
      var e, t' := sc.junk[n - 1], SpamLoop(t, cfg, prev, sc, n - 1);
      if TrainsSpam(cfg, prev, sc, e) {
        CountOne(t'.reports, SpamReport(sc, e), u, true);
        CountOne(t'.reports, SpamReport(sc, e), u, false);
      }
    }
  }

  lemma {:induction false} HamLoopCount(t: Trained, cfg: Config, prev: seq<Entry>, sc: Scan, n: nat, u: nat)
    requires n <= |prev| && IsDict(prev)
    ensures Count(HamLoop(t, cfg, prev, sc, n).reports, u, true) == Count(t.reports, u, true)
    ensures Count(HamLoop(t, cfg, prev, sc, n).reports, u, false) == Count(t.reports, u, false)
      + if exists i :: 0 <= i < n && prev[i].uid == u && TrainsHam(cfg, sc, prev[i]) then 1 else 0
  {
    if n > 0 {
      HamLoopCount(t, cfg, prev, sc, n - 1, u);
      var e, t' := prev[n - 1], HamLoop(t, cfg, prev, sc, n - 1);
      if TrainsHam(cfg, sc, e) {
        CountOne(t'.reports, HamReport(cfg, sc, e), u, true);
        CountOne(t'.reports, HamReport(cfg, sc, e), u, false);
      }
    }
  }

  lemma NewSpamAmong(cfg: Config, prev: seq<Entry>, sc: Scan, u: nat)
    ensures (exists i: nat :: NewSpam(cfg, prev, sc, i) && sc.junk[i].uid == u) <==>
      (exists i :: 0 <= i < |sc.junk| && sc.junk[i].uid == u && TrainsSpam(cfg, prev, sc, sc.junk[i]))
  {
    forall i: nat | i < |sc.junk| ensures TrainsSpam(cfg, prev, sc, sc.junk[i]) <==> NewSpam(cfg, prev, sc, i) {
      NewSpamTrains(cfg, prev, sc, i);
    }
    hide TrainsSpam;
  }

  lemma ReturnedAmong(cfg: Config, prev: seq<Entry>, sc: Scan, u: nat)
    ensures (exists i: nat, j: nat :: Returned(cfg, prev, sc, i, j) && prev[i].uid == u) <==>
      (exists i :: 0 <= i < |prev| && prev[i].uid == u && TrainsHam(cfg, sc, prev[i]))
  {
    forall i: nat | i < |prev| ensures TrainsHam(cfg, sc, prev[i]) <==> exists j: nat :: Returned(cfg, prev, sc, i, j) {
      ReturnedTrains(cfg, prev, sc, i);
    }
    hide TrainsHam;
    if i :| 0 <= i < |prev| && prev[i].uid == u && TrainsHam(cfg, sc, prev[i]) {
      var j: nat :| Returned(cfg, prev, sc, i, j);
    }
  }

  /** Each UID is reported once as spam if its entry is new spam, once as ham if it has returned, and not otherwise. */
  lemma PassCounts(rows: seq<Row>, cfg: Config, prev: seq<Entry>, sc: Scan, u: nat)
    requires IsDict(prev) && IsDict(sc.junk)
    ensures Count(Reconciled(rows, cfg, prev, sc).reports, u, true) ==
      if exists i: nat :: NewSpam(cfg, prev, sc, i) && sc.junk[i].uid == u then 1 else 0
    ensures Count(Reconciled(rows, cfg, prev, sc).reports, u, false) ==
      if exists i: nat, j: nat :: Returned(cfg, prev, sc, i, j) && prev[i].uid == u then 1 else 0
    ensures var rs := Reconciled(rows, cfg, prev, sc).reports;
      && Count(rs, u, true) <= (if Enters(prev, sc, u) then 1 else 0)
      && Count(rs, u, false) <= (if Leaves(prev, sc, u) then 1 else 0)
  {
    var t := Trained(rows, [], NOTHING);
    SpamLoopCount(t, cfg, prev, sc, |sc.junk|, u);
    HamLoopCount(SpamLoop(t, cfg, prev, sc, |sc.junk|), cfg, prev, sc, |prev|, u);
    NewSpamAmong(cfg, prev, sc, u);
    ReturnedAmong(cfg, prev, sc, u);
    hide SpamLoop, HamLoop, NewSpam, Returned;
    if Count(Reconciled(rows, cfg, prev, sc).reports, u, true) > 0 {
      var i :| 0 <= i < |sc.junk| && sc.junk[i].uid == u && TrainsSpam(cfg, prev, sc, sc.junk[i]);
      assert u in Uids(sc.junk);
    }
    if Count(Reconciled(rows, cfg, prev, sc).reports, u, false) > 0 {
      var i :| 0 <= i < |prev| && prev[i].uid == u && TrainsHam(cfg, sc, prev[i]);
      assert u in Uids(prev);
    }
  }

  // ----- the summary and the feedback rows of one pass -----

  function Labelled(rs: seq<Report>, spam: bool): nat {
    if rs == [] then 0 else (if rs[|rs| - 1].spam == spam then 1 else 0) + Labelled(rs[..|rs| - 1], spam)
  }

  lemma LabelledOne(rs: seq<Report>, r: Report, spam: bool)
    ensures Labelled(rs + [r], spam) == Labelled(rs, spam) + if r.spam == spam then 1 else 0
  {
    assert (rs + [r])[..|rs|] == rs;
  }

  /** The entry is new and its move was recorded by the daemon. */
  ghost predicate Skipped(prev: seq<Entry>, sc: Scan, e: Entry) {
    (forall k :: 0 <= k < |prev| ==> prev[k].uid != e.uid) && RecordedMove(sc.moves, e)
  }

  ghost function Skips(prev: seq<Entry>, sc: Scan, n: nat): nat
    requires n <= |sc.junk|
  {
    if n == 0 then 0 else Skips(prev, sc, n - 1) + if Skipped(prev, sc, sc.junk[n - 1]) then 1 else 0
  }

  predicate Sums(t: Trained, skips: nat) {
    t.summary == Summary(Labelled(t.reports, true), Labelled(t.reports, false), skips)
  }

  lemma SkippedIs(prev: seq<Entry>, sc: Scan, e: Entry)
    ensures Skipped(prev, sc, e) <==> e.uid !in Uids(prev) && IsDaemonMove(sc.moves, e.uid, e.mid)
  {
    UidsMean(prev, e.uid);
    hide Uids;
  }

  lemma SpamStepSums(t: Trained, cfg: Config, prev: seq<Entry>, sc: Scan, e: Entry, skips: nat)
    requires Sums(t, skips)
    ensures Sums(SpamStep(t, cfg, prev, sc, e), skips + if Skipped(prev, sc, e) then 1 else 0)
  {
    SkippedIs(prev, sc, e);
    hide Skipped, IsDaemonMove, Uids, Labelled, Tag, LogFeedback;
    if e.uid in sc.junkText {
      LabelledOne(t.reports, SpamReport(sc, e), true);
      LabelledOne(t.reports, SpamReport(sc, e), false);
    }
  }

  lemma {:induction false} SpamLoopSums(rows: seq<Row>, cfg: Config, prev: seq<Entry>, sc: Scan, n: nat)
    requires n <= |sc.junk|
    ensures Sums(SpamLoop(Trained(rows, [], NOTHING), cfg, prev, sc, n), Skips(prev, sc, n))
  {
    if n > 0 {
      hide SpamStep, Skipped, Sums;
      SpamLoopSums(rows, cfg, prev, sc, n - 1);
      SpamStepSums(SpamLoop(Trained(rows, [], NOTHING), cfg, prev, sc, n - 1), cfg, prev, sc, sc.junk[n - 1], Skips(prev, sc, n - 1));
    }
  }

  lemma {:induction false} HamLoopSums(t: Trained, cfg: Config, prev: seq<Entry>, sc: Scan, n: nat, skips: nat)
    requires n <= |prev| && Sums(t, skips)
    ensures Sums(HamLoop(t, cfg, prev, sc, n), skips)
  {
    if n > 0 {
      HamLoopSums(t, cfg, prev, sc, n - 1, skips);
      var (t', e) := (HamLoop(t, cfg, prev, sc, n - 1), prev[n - 1]);
      hide Index, Uids, Labelled, Tag, LogFeedback;
      if TrainsHam(cfg, sc, e) {
        LabelledOne(t'.reports, HamReport(cfg, sc, e), true);
        LabelledOne(t'.reports, HamReport(cfg, sc, e), false);
      }
    }
  }

  /** The summary counts the reports of either kind, and the new Junk entries that the daemon moved. */
  lemma SummaryCounts(rows: seq<Row>, cfg: Config, prev: seq<Entry>, sc: Scan)
    ensures Sums(Reconciled(rows, cfg, prev, sc), Skips(prev, sc, |sc.junk|))
  {
    SpamLoopSums(rows, cfg, prev, sc, |sc.junk|);
    HamLoopSums(SpamLoop(Trained(rows, [], NOTHING), cfg, prev, sc, |sc.junk|), cfg, prev, sc, |prev|, Skips(prev, sc, |sc.junk|));
    hide SpamLoop, HamLoop;
  }

  /** The row of a report: its Message-ID, or the UID in decimal if there is none, and where it came from. */
  ghost predicate RowOfPass(cfg: Config, prev: seq<Entry>, sc: Scan, row: Row) {
    || (exists i: nat :: NewSpam(cfg, prev, sc, i) && row ==
          Row(if sc.junk[i].mid == "" then Decimal(sc.junk[i].uid) else sc.junk[i].mid, JunkIdler))
    || (exists i: nat, j: nat :: Returned(cfg, prev, sc, i, j) && row == Row(prev[i].mid, JunkToInbox))
  }

  lemma {:induction false} SpamLoopRow(t: Trained, cfg: Config, prev: seq<Entry>, sc: Scan, n: nat, row: Row)
    requires n <= |sc.junk|
    ensures row in SpamLoop(t, cfg, prev, sc, n).rows <==>
      row in t.rows || exists i :: 0 <= i < n && TrainsSpam(cfg, prev, sc, sc.junk[i]) && row == Row(Tag(sc.junk[i].mid, sc.junk[i].uid), JunkIdler)
  {
    hide IsDaemonMove, Uids, Decimal;
    if n > 0 {
      SpamLoopRow(t, cfg, prev, sc, n - 1, row);
    }
  }

  lemma {:induction false} HamLoopRow(t: Trained, cfg: Config, prev: seq<Entry>, sc: Scan, n: nat, row: Row)
    requires n <= |prev|
    ensures row in HamLoop(t, cfg, prev, sc, n).rows <==>
      row in t.rows || exists i :: 0 <= i < n && TrainsHam(cfg, sc, prev[i]) && row == Row(prev[i].mid, JunkToInbox)
  {
    hide Uids, Decimal;
    if n > 0 {
      HamLoopRow(t, cfg, prev, sc, n - 1, row);
      IndexMeans(sc.inbox, |sc.inbox|, prev[n - 1].mid);
      hide Index;
    }
  }

  /** After a pass the feedback table holds the rows it held, and one for each thing trained. */
  lemma RowsExactly(rows: seq<Row>, cfg: Config, prev: seq<Entry>, sc: Scan, row: Row)
    ensures row in Reconciled(rows, cfg, prev, sc).rows <==> row in rows || RowOfPass(cfg, prev, sc, row)
  {
    var t := Trained(rows, [], NOTHING);
    SpamLoopRow(t, cfg, prev, sc, |sc.junk|, row);
    HamLoopRow(SpamLoop(t, cfg, prev, sc, |sc.junk|), cfg, prev, sc, |prev|, row);
    forall i: nat | i < |sc.junk| ensures TrainsSpam(cfg, prev, sc, sc.junk[i]) <==> NewSpam(cfg, prev, sc, i) {
      NewSpamTrains(cfg, prev, sc, i);
    }
    forall i: nat | i < |prev| ensures TrainsHam(cfg, sc, prev[i]) <==> exists j: nat :: Returned(cfg, prev, sc, i, j) {
      ReturnedTrains(cfg, prev, sc, i);
    }
    hide SpamLoop, HamLoop, TrainsSpam, TrainsHam, Decimal;
    if i :| 0 <= i < |prev| && TrainsHam(cfg, sc, prev[i]) && row == Row(prev[i].mid, JunkToInbox) {
      var j: nat :| Returned(cfg, prev, sc, i, j);
    }
    if i :| 0 <= i < |sc.junk| && TrainsSpam(cfg, prev, sc, sc.junk[i]) && row == Row(Tag(sc.junk[i].mid, sc.junk[i].uid), JunkIdler) {
      assert NewSpam(cfg, prev, sc, i);
    }
  }

  // ----- runs -----

  /** All reports of a run of completed scans, and the feedback table after it. */
  function RunScans(rows: seq<Row>, cfg: Config, prev: seq<Entry>, scans: seq<Scan>): Trained
    decreases |scans|
  {
    if scans == [] then Trained(rows, [], NOTHING)
    else
      var t := Reconciled(rows, cfg, prev, scans[0]);
      var rest := RunScans(t.rows, cfg, scans[0].junk, scans[1..]);
      rest.(reports := t.reports + rest.reports)
  }

  function Before(prev: seq<Entry>, scans: seq<Scan>, i: nat): seq<Entry>
    requires i <= |scans|
  {
    if i == 0 then prev else scans[i - 1].junk
  }

  /** The listings are dicts, and a UID that was listed and then is not is never listed again. */
  ghost predicate Truthful(prev: seq<Entry>, scans: seq<Scan>, u: nat) {
    && IsDict(prev) && (forall i :: 0 <= i < |scans| ==> IsDict(scans[i].junk))
    && (forall i, j :: 0 <= i < j < |scans| && Leaves(Before(prev, scans, i), scans[i], u) ==> u !in Uids(scans[j].junk))
  }

  lemma TruthfulTail(prev: seq<Entry>, scans: seq<Scan>, u: nat)
    requires Truthful(prev, scans, u) && scans != []
    ensures Truthful(scans[0].junk, scans[1..], u)
    ensures Leaves(prev, scans[0], u) ==> forall j :: 0 <= j < |scans[1..]| ==> u !in Uids(scans[1..][j].junk)
  {
    var rest := scans[1..];
    forall j | 0 <= j < |rest| && Leaves(prev, scans[0], u) ensures u !in Uids(rest[j].junk) {
      assert Before(prev, scans, 0) == prev && rest[j] == scans[j + 1];
    }
    forall i, j | 0 <= i < j < |rest| && Leaves(Before(scans[0].junk, rest, i), rest[i], u)
      ensures u !in Uids(rest[j].junk)
    {
      assert Before(scans[0].junk, rest, i) == Before(prev, scans, i + 1);
      assert rest[j] == scans[j + 1] && rest[i] == scans[i + 1];
    }
  }

  /** A UID that is in none of the listings is not reported. */
  lemma {:induction false} AbsentNeverReported(rows: seq<Row>, cfg: Config, prev: seq<Entry>, scans: seq<Scan>, u: nat)
    requires Truthful(prev, scans, u) && u !in Uids(prev)
    requires forall j :: 0 <= j < |scans| ==> u !in Uids(scans[j].junk)
    ensures Count(RunScans(rows, cfg, prev, scans).reports, u, true) == 0
    ensures Count(RunScans(rows, cfg, prev, scans).reports, u, false) == 0
    decreases |scans|
  {
    if scans != [] {
      var t := Reconciled(rows, cfg, prev, scans[0]);
      PassCounts(rows, cfg, prev, scans[0], u);
      TruthfulTail(prev, scans, u);
      var rest := scans[1..];
      assert forall j :: 0 <= j < |rest| ==> rest[j] == scans[j + 1];
      hide Reconciled, Truthful, Uids;
      AbsentNeverReported(t.rows, cfg, scans[0].junk, rest, u);
      CountSum(t.reports, RunScans(t.rows, cfg, scans[0].junk, rest).reports, u, true);
      CountSum(t.reports, RunScans(t.rows, cfg, scans[0].junk, rest).reports, u, false);
    }
  }

  /** Over a run with truthful listings each Junk UID yields at most one spam and one ham report. */
  lemma {:induction false} AtMostOncePerStay(rows: seq<Row>, cfg: Config, prev: seq<Entry>, scans: seq<Scan>, u: nat)
    requires Truthful(prev, scans, u)
    ensures var rs := RunScans(rows, cfg, prev, scans).reports;
      && Count(rs, u, true) <= (if u in Uids(prev) then 0 else 1)
      && Count(rs, u, false) <= 1
    decreases |scans|
  {
    if scans != [] {
      var t, junk, rest := Reconciled(rows, cfg, prev, scans[0]), scans[0].junk, scans[1..];
      PassCounts(rows, cfg, prev, scans[0], u);
      TruthfulTail(prev, scans, u);
      hide Reconciled, Truthful, Uids;
      if Leaves(prev, scans[0], u) {
        AbsentNeverReported(t.rows, cfg, junk, rest, u);
      } else {
        AtMostOncePerStay(t.rows, cfg, junk, rest, u);
      }
      CountSum(t.reports, RunScans(t.rows, cfg, junk, rest).reports, u, true);
      CountSum(t.reports, RunScans(t.rows, cfg, junk, rest).reports, u, false);
    }
  }

  /** How many scans find u new in their listing. */
  function Entries(prev: seq<Entry>, scans: seq<Scan>, u: nat): nat
    decreases |scans|
  {
    if scans == [] then 0
    else (if Enters(prev, scans[0], u) then 1 else 0) + Entries(scans[0].junk, scans[1..], u)
  }

  ghost predicate TrainableIn(sc: Scan, u: nat) {
    u in sc.junkText && forall e :: e in sc.junk && e.uid == u ==> !IsDaemonMove(sc.moves, u, e.mid)
  }

  /** Spam training is on, and no scan sees u as a daemon move or fails to fetch it. */
  ghost predicate Trainable(cfg: Config, scans: seq<Scan>, u: nat) {
    cfg.spamOnArrival && forall i :: 0 <= i < |scans| ==> TrainableIn(scans[i], u)
  }

  /** Whatever the listings say, u is reported as spam at most as often as it newly appears; a trainable u exactly as often. */
  lemma {:induction false} SpamReportsAreEntries(rows: seq<Row>, cfg: Config, prev: seq<Entry>, scans: seq<Scan>, u: nat)
    requires IsDict(prev) && forall i :: 0 <= i < |scans| ==> IsDict(scans[i].junk)
    ensures Count(RunScans(rows, cfg, prev, scans).reports, u, true) <= Entries(prev, scans, u)
    ensures Trainable(cfg, scans, u) ==> Count(RunScans(rows, cfg, prev, scans).reports, u, true) == Entries(prev, scans, u)
    decreases |scans|
  {
    if scans != [] {
      var sc, rest := scans[0], scans[1..];
      var t := Reconciled(rows, cfg, prev, sc);
      PassCounts(rows, cfg, prev, sc, u);
      if Trainable(cfg, scans, u) {
        EntryTrains(rows, cfg, prev, sc, u);
        assert Trainable(cfg, rest, u) by {
          assert forall i :: 0 <= i < |rest| ==> rest[i] == scans[i + 1];
        }
      }
      hide Reconciled, Trainable, Enters;
      SpamReportsAreEntries(t.rows, cfg, sc.junk, rest, u);
      CountSum(t.reports, RunScans(t.rows, cfg, sc.junk, rest).reports, u, true);
    }
  }

  lemma EntryTrains(rows: seq<Row>, cfg: Config, prev: seq<Entry>, sc: Scan, u: nat)
    requires IsDict(prev) && IsDict(sc.junk) && cfg.spamOnArrival && TrainableIn(sc, u)
    ensures Enters(prev, sc, u) ==> Count(Reconciled(rows, cfg, prev, sc).reports, u, true) == 1
  {
    var t := Trained(rows, [], NOTHING);
    SpamLoopCount(t, cfg, prev, sc, |sc.junk|, u);
    HamLoopCount(SpamLoop(t, cfg, prev, sc, |sc.junk|), cfg, prev, sc, |prev|, u);
    if Enters(prev, sc, u) {
      var i :| 0 <= i < |sc.junk| && sc.junk[i].uid == u;
      assert TrainsSpam(cfg, prev, sc, sc.junk[i]);
    }
  }

  /**
   A failed listing reads as an empty folder, is saved as the snapshot, and makes the
   next scan train the same Junk message again.
   */
  lemma FailedListingTrainsTwice()
    ensures var e := Entry(7, "m");
      var good := Scan([e], [], map[7 := "body"], map[], map[]);
      var failed := good.(junk := []);
      Count(RunScans([], Config(true, true), [], [good, failed, good]).reports, 7, true) == 2
  {
    var e := Entry(7, "m");
    var good := Scan([e], [], map[7 := "body"], map[], map[]);
    var failed := good.(junk := []);
    var cfg, r := Config(true, true), Report(7, 7, "body", true);
    assert e.uid in Uids([e]) by { assert [e][0].uid == 7; }
    assert TrainsSpam(cfg, [], good, e);
    forall rows ensures Reconciled(rows, cfg, [], good).reports == [r] {
      var t := Trained(rows, [], NOTHING);
      assert SpamLoop(t, cfg, [], good, 1) == SpamStep(SpamLoop(t, cfg, [], good, 0), cfg, [], good, e);
    }
    forall rows ensures Reconciled(rows, cfg, [e], failed).reports == [] {
      assert !TrainsHam(cfg, failed, e);
      var t := Trained(rows, [], NOTHING);
      assert HamLoop(t, cfg, [e], failed, 1) == HamStep(HamLoop(t, cfg, [e], failed, 0), cfg, failed, e);
    }
    var rows1 := Reconciled([], cfg, [], good).rows;
    var rows2 := Reconciled(rows1, cfg, [e], failed).rows;
    hide Reconciled;
    var scans := [good, failed, good];
    assert scans[1..] == [failed, good] && [failed, good][1..] == [good] && [good][1..] == [];
    assert RunScans(rows2, cfg, [], [good]).reports == [r] + [];
    assert RunScans(rows1, cfg, [e], [failed, good]).reports == [] + [r];
    assert RunScans([], cfg, [], scans).reports == [r] + [r];
    CountOne([r], r, 7, true);
    CountOne([], r, 7, true);
    assert [] + [r] == [r];
  }

  // ----- the feedback table -----

  ghost predicate Distinct(rows: seq<Row>) {
    forall i, j :: 0 <= i < j < |rows| ==> rows[i] != rows[j]
  }

  lemma {:induction false} SpamLoopRows(t: Trained, cfg: Config, prev: seq<Entry>, sc: Scan, n: nat)
    requires n <= |sc.junk| && Distinct(t.rows)
    ensures Distinct(SpamLoop(t, cfg, prev, sc, n).rows)
  {
    if n > 0 {
      SpamLoopRows(t, cfg, prev, sc, n - 1);
    }
  }

  lemma {:induction false} HamLoopRows(t: Trained, cfg: Config, prev: seq<Entry>, sc: Scan, n: nat)
    requires n <= |prev| && Distinct(t.rows)
    ensures Distinct(HamLoop(t, cfg, prev, sc, n).rows)
  {
    if n > 0 {
      HamLoopRows(t, cfg, prev, sc, n - 1);
    }
  }

  /** Whatever the listings say, there is never more than one feedback row per message and source. */
  lemma {:induction false} FeedbackRowsUnique(rows: seq<Row>, cfg: Config, prev: seq<Entry>, scans: seq<Scan>)
    requires Distinct(rows)
    ensures Distinct(RunScans(rows, cfg, prev, scans).rows)
    decreases |scans|
  {
    if scans != [] {
      var sc, t := scans[0], Trained(rows, [], NOTHING);
      SpamLoopRows(t, cfg, prev, sc, |sc.junk|);
      HamLoopRows(SpamLoop(t, cfg, prev, sc, |sc.junk|), cfg, prev, sc, |prev|);
      hide SpamLoop, HamLoop, Distinct;
      FeedbackRowsUnique(Reconciled(rows, cfg, prev, sc).rows, cfg, sc.junk, scans[1..]);
    }
  }
}
