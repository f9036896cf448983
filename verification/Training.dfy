/**
 The training idler: one reconciliation of the Junk and INBOX listings against the
 stored snapshot, the feedback table and the snapshot's JSON form.
 */
module Training {

  /** One item of a UID -> Message-ID dict, in its order; a missing header is "". */
  datatype Entry = Entry(uid: nat, mid: string)

  datatype Config = Config(spamOnArrival: bool, hamOnReturn: bool)

  datatype Source = JunkIdler | JunkToInbox

  datatype Row = Row(mid: string, source: Source)

  /** A call of trainer.report: the Junk UID it stems from, the UID that was fetched, and the label. */
  datatype Report = Report(origin: nat, uid: nat, text: string, spam: bool)

  datatype Summary = Summary(spam: nat, ham: nat, skippedMoved: nat)

  /** What one reconciliation reads: two listings, the bodies that can be fetched, the daemon's recorded moves. */
  datatype Scan = Scan(
    junk: seq<Entry>, inbox: seq<Entry>, junkText: map<nat, string>, inboxText: map<nat, string>, moves: map<nat, string>)

  function Uids(d: seq<Entry>): set<nat> {
    set i | 0 <= i < |d| :: d[i].uid
  }

  predicate IsDaemonMove(moves: map<nat, string>, uid: nat, mid: string) {
    (mid != "" && mid in moves.Values) || uid in moves
  }

  function LogFeedback(rows: seq<Row>, row: Row): seq<Row> {
    if row in rows then rows else rows + [row]
  }

  function Tag(mid: string, uid: nat): string {
    if mid == "" then Decimal(uid) else mid
  }

  /** Everything a reconciliation changes besides the snapshot. */
  datatype Trained = Trained(rows: seq<Row>, reports: seq<Report>, summary: Summary)

  predicate TrainsSpam(cfg: Config, prev: seq<Entry>, sc: Scan, e: Entry) {
    cfg.spamOnArrival && e.uid !in Uids(prev) && !IsDaemonMove(sc.moves, e.uid, e.mid) && e.uid in sc.junkText
  }

  function SpamStep(t: Trained, cfg: Config, prev: seq<Entry>, sc: Scan, e: Entry): Trained {
    if e.uid in Uids(prev) then t
    else if IsDaemonMove(sc.moves, e.uid, e.mid) then
      t.(summary := t.summary.(skippedMoved := t.summary.skippedMoved + 1))
    else if !cfg.spamOnArrival || e.uid !in sc.junkText then t
    else
      Trained(LogFeedback(t.rows, Row(Tag(e.mid, e.uid), JunkIdler)),
        t.reports + [Report(e.uid, e.uid, sc.junkText[e.uid], true)],
        t.summary.(spam := t.summary.spam + 1))
  }

  function SpamLoop(t: Trained, cfg: Config, prev: seq<Entry>, sc: Scan, n: nat): Trained
    requires n <= |sc.junk|
  {
    if n == 0 then t else SpamStep(SpamLoop(t, cfg, prev, sc, n - 1), cfg, prev, sc, sc.junk[n - 1])
  }

  /** inbox_uids after n items: the last UID of each non-empty Message-ID. */
  function Index(inbox: seq<Entry>, n: nat): map<string, nat>
    requires n <= |inbox|
  {
    if n == 0 then map[]
    else
      var m, e := Index(inbox, n - 1), inbox[n - 1];
      if e.mid == "" then m else m[e.mid := e.uid]
  }

  predicate TrainsHam(cfg: Config, sc: Scan, e: Entry) {
    var index := Index(sc.inbox, |sc.inbox|);
    cfg.hamOnReturn && e.uid !in Uids(sc.junk) && e.mid in index && index[e.mid] in sc.inboxText
  }

  function HamStep(t: Trained, cfg: Config, sc: Scan, e: Entry): Trained {
    var index := Index(sc.inbox, |sc.inbox|);
    if !TrainsHam(cfg, sc, e) then t
    else
      Trained(LogFeedback(t.rows, Row(Tag(e.mid, index[e.mid]), JunkToInbox)),
        t.reports + [Report(e.uid, index[e.mid], sc.inboxText[index[e.mid]], false)],
        t.summary.(ham := t.summary.ham + 1))
  }

  function HamLoop(t: Trained, cfg: Config, prev: seq<Entry>, sc: Scan, n: nat): Trained
    requires n <= |prev|
  {
    if n == 0 then t else HamStep(HamLoop(t, cfg, prev, sc, n - 1), cfg, sc, prev[n - 1])
  }

  const NOTHING := Summary(0, 0, 0)

  function Reconciled(rows: seq<Row>, cfg: Config, prev: seq<Entry>, sc: Scan): Trained {
    HamLoop(SpamLoop(Trained(rows, [], NOTHING), cfg, prev, sc, |sc.junk|), cfg, prev, sc, |prev|)
  }

  // ----- the snapshot's JSON form: decimal strings as keys -----

  function Digit(d: nat): char
    requires d < 10
  {
    ['0', '1', '2', '3', '4', '5', '6', '7', '8', '9'][d]
  }

  function Decimal(n: nat): (s: string)
    ensures s != ""
  {
    if n < 10 then [Digit(n)] else Decimal(n / 10) + [Digit(n % 10)]
  }

  datatype Parsed = Number(n: nat) | BadNumber

  function ParseDecimal(s: string): Parsed {
    if s == "" then BadNumber
    else
      var c := s[|s| - 1];
      if !('0' <= c <= '9') then BadNumber
      else if |s| == 1 then Number((c - '0') as nat)
      else
        match ParseDecimal(s[..|s| - 1])
        case BadNumber => BadNumber
        case Number(n) => Number(10 * n + (c - '0') as nat)
  }

  datatype Member = Member(key: string, value: string)

  function SaveState(d: seq<Entry>): (r: seq<Member>)
    ensures |r| == |d|
  {
    seq(|d|, i requires 0 <= i < |d| => Member(Decimal(d[i].uid), d[i].mid))
  }

  /** int() of every key; one bad key makes the whole snapshot empty. */
  function LoadState(json: seq<Member>): seq<Entry> {
    if exists i :: 0 <= i < |json| && ParseDecimal(json[i].key).BadNumber? then []
    else
      seq(|json|, i requires 0 <= i < |json| && ParseDecimal(json[i].key).Number?
        => Entry(ParseDecimal(json[i].key).n, json[i].value))
  }

  lemma {:induction false} DecimalParses(n: nat)
    ensures ParseDecimal(Decimal(n)) == Number(n)
  {
    if n >= 10 {
      DecimalParses(n / 10);
      var s := Decimal(n);
      assert s[..|s| - 1] == Decimal(n / 10);
      assert n == 10 * (n / 10) + n % 10;
    }
  }

  /** The snapshot is read back as it was written. */
  lemma SnapshotRoundTrips(d: seq<Entry>)
    ensures LoadState(SaveState(d)) == d
  {
    forall i | 0 <= i < |d| ensures ParseDecimal(SaveState(d)[i].key) == Number(d[i].uid) {
      DecimalParses(d[i].uid);
    }
  }

  // ----- the code -----

  class TrainingIdler {
    const cfg: Config
    var rows: seq<Row>
    var reports: seq<Report>
    var state: seq<Member>

    constructor (cfg: Config)
      ensures this.cfg == cfg && rows == [] && reports == [] && state == []
    {
      this.cfg, rows, reports, state := cfg, [], [], [];
    }

    method Log(row: Row)
      modifies this`rows
      ensures rows == LogFeedback(old(rows), row)
    {
      if row in rows {
        return;
      }
      rows := rows + [row];
    }

    method TrainSpam(sc: Scan, e: Entry) returns (ok: bool)
      modifies this`rows, this`reports
      ensures ok == (cfg.spamOnArrival && e.uid in sc.junkText)
      ensures ok ==> rows == LogFeedback(old(rows), Row(Tag(e.mid, e.uid), JunkIdler))
      ensures ok ==> reports == old(reports) + [Report(e.uid, e.uid, sc.junkText[e.uid], true)]
      ensures !ok ==> rows == old(rows) && reports == old(reports)
    {
      if !cfg.spamOnArrival || e.uid !in sc.junkText {
        return false;
      }
      reports := reports + [Report(e.uid, e.uid, sc.junkText[e.uid], true)];
      Log(Row(Tag(e.mid, e.uid), JunkIdler));
      return true;
    }

    method TrainHam(sc: Scan, origin: nat, uid: nat, mid: string) returns (ok: bool)
      modifies this`rows, this`reports
      ensures ok == (cfg.hamOnReturn && uid in sc.inboxText)
      ensures ok ==> rows == LogFeedback(old(rows), Row(Tag(mid, uid), JunkToInbox))
      ensures ok ==> reports == old(reports) + [Report(origin, uid, sc.inboxText[uid], false)]
      ensures !ok ==> rows == old(rows) && reports == old(reports)
    {
      if !cfg.hamOnReturn || uid !in sc.inboxText {
        return false;
      }
      reports := reports + [Report(origin, uid, sc.inboxText[uid], false)];
      Log(Row(Tag(mid, uid), JunkToInbox));
      return true;
    }

    method Reconcile(sc: Scan) returns (summary: Summary)
      modifies this
      ensures var t := Reconciled(old(rows), cfg, LoadState(old(state)), sc);
        rows == t.rows && reports == old(reports) + t.reports && summary == t.summary
      ensures LoadState(state) == sc.junk
    {
      hide IsDaemonMove, LogFeedback, Tag, LoadState, SaveState;
      var prev := LoadState(state);
      summary := NOTHING;
      ghost var done := [];
      var i := 0;
      while i < |sc.junk|
        invariant 0 <= i <= |sc.junk| && reports == old(reports) + done && state == old(state)
        invariant Trained(rows, done, summary) == SpamLoop(Trained(old(rows), [], NOTHING), cfg, prev, sc, i)
      {
        var e := sc.junk[i];
        i := i + 1;
        if e.uid in Uids(prev) {
          continue;
        }
        if IsDaemonMove(sc.moves, e.uid, e.mid) {
          summary := summary.(skippedMoved := summary.skippedMoved + 1);
          continue;
        }
        var trained := TrainSpam(sc, e);
        if trained {
          summary := summary.(spam := summary.spam + 1);
          done := done + [Report(e.uid, e.uid, sc.junkText[e.uid], true)];
        }
      }
      ghost var spamDone := Trained(rows, done, summary);
      var inboxUids: map<string, nat> := map[];
      i := 0;
      while i < |sc.inbox|
        invariant 0 <= i <= |sc.inbox| && inboxUids == Index(sc.inbox, i)
      {
        var e := sc.inbox[i];
        if e.mid != "" {
          inboxUids := inboxUids[e.mid := e.uid];
        }
        i := i + 1;
      }
      i := 0;
      while i < |prev|
        invariant 0 <= i <= |prev| && reports == old(reports) + done && state == old(state)
        invariant Trained(rows, done, summary) == HamLoop(spamDone, cfg, prev, sc, i)
      {
        var e := prev[i];
        i := i + 1;
        if e.uid in Uids(sc.junk) {
          continue;
        }
        if e.mid in inboxUids {
          var trained := TrainHam(sc, e.uid, inboxUids[e.mid], e.mid);
          if trained {
            summary := summary.(ham := summary.ham + 1);
            done := done + [Report(e.uid, inboxUids[e.mid], sc.inboxText[inboxUids[e.mid]], false)];
          }
        }
      }
      state := SaveState(sc.junk);
      SnapshotRoundTrips(sc.junk);
    }
  }
}
