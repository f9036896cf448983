/**
 One account's INBOX and Junk folder, changed by the gateway, the user, the
 classification pipeline and the training idler in any order.  The pipeline and
 the idler exclude each other by the account lock; everybody else acts between any
 two of their steps, and the daemon may stop at any point.
 */
module BiasGuard {
  import opened Training

  /**
   A message with its two Message-IDs: as the pipeline reads it, with encoded words decoded,
   and as the idler lists it, raw.  The sender chooses the header, so the two may differ.
   */
  datatype Mail = Mail(read: string, listed: string, text: string)
  {
    /** What can be checked on the header before a move: both readings agree and are not empty. */
    predicate Faithful() {
      read == listed && listed != ""
    }
  }

  /** UIDs are never reused: born remembers what each UID of the folder stood for. */
  datatype Box = Box(msgs: map<nat, Mail>, born: map<nat, Mail>, next: nat)
  {
    function Add(m: Mail): Box {
      Box(msgs[next := m], born[next := m], next + 1)
    }

    function Drop(uid: nat): Box {
      this.(msgs := msgs - {uid})
    }
  }

  /** The idler between its Junk listing and its last report: what it saw, and what it has still to look at. */
  datatype Scanning = NotScanning | Scanning(prev: seq<Entry>, junk: seq<Entry>, todo: seq<Entry>)

  /** The pipeline between recording a move and making it. */
  datatype Moving = NotMoving | Moving(uid: nat)

  /** A spam report, with what the daemon had put into Junk by then. */
  datatype SpamReport = SpamReport(uid: nat, mid: string, placedBefore: map<nat, Mail>)

  datatype System = System(
    inbox: Box, junk: Box, moves: map<nat, string>, known: seq<Entry>,
    moving: Moving, scanning: Scanning,
    daemonPlaced: map<nat, Mail>, log: seq<SpamReport>)

  /** What a UID MOVE, or its COPY fallback, did on the server, whatever it answered. */
  datatype Effect = NoEffect | Copied | Moved

  datatype Step =
    | DeliverInbox(m: Mail)
    | DeliverJunk(m: Mail)
    | UserToJunk(uid: nat)
    | UserToInbox(uid: nat)
    | UserDeletesInbox(uid: nat)
    | UserDeletesJunk(uid: nat)
    | Record(uid: nat)
    | MakeMove(effect: Effect)
    | ListJunk(listing: seq<Entry>)
    | TrainNext(fetched: bool)
    | SaveSnapshot
    | Restart

  const EMPTY_BOX := Box(map[], map[], 1)

  const INIT := System(EMPTY_BOX, EMPTY_BOX, map[], [], NotMoving, NotScanning, map[], [])

  /** The listing pairs UIDs of the folder with their raw Message-IDs. */
  predicate TruthfulListing(b: Box, listing: seq<Entry>) {
    forall e :: e in listing ==> e.uid in b.born && b.born[e.uid].listed == e.mid
  }

  predicate Enabled(s: System, step: Step) {
    match step
    case UserToJunk(u) => u in s.inbox.msgs
    case UserToInbox(u) => u in s.junk.msgs
    case Record(u) => s.moving.NotMoving? && s.scanning.NotScanning? && u in s.inbox.born
    case MakeMove(_) => s.moving.Moving?
    case ListJunk(listing) => s.moving.NotMoving? && s.scanning.NotScanning? && TruthfulListing(s.junk, listing)
    case TrainNext(_) => s.scanning.Scanning? && s.scanning.todo != []
    case SaveSnapshot => s.scanning.Scanning? && s.scanning.todo == []
    case _ => true
  }

  /** The daemon's copy of INBOX message u lands in Junk under a new UID. */
  function Place(s: System, u: nat): System
    requires u in s.inbox.msgs
  {
    var m := s.inbox.msgs[u];
    s.(junk := s.junk.Add(m), daemonPlaced := s.daemonPlaced[s.junk.next := m])
  }

  function Next(s: System, step: Step): System
    requires Enabled(s, step)
  {
    match step
    case DeliverInbox(m) => s.(inbox := s.inbox.Add(m))
    case DeliverJunk(m) => s.(junk := s.junk.Add(m))
    case UserToJunk(u) => s.(junk := s.junk.Add(s.inbox.msgs[u]), inbox := s.inbox.Drop(u))
    case UserToInbox(u) => s.(inbox := s.inbox.Add(s.junk.msgs[u]), junk := s.junk.Drop(u))
    case UserDeletesInbox(u) => s.(inbox := s.inbox.Drop(u))
    case UserDeletesJunk(u) => s.(junk := s.junk.Drop(u))
    case Record(u) => s.(moves := s.moves[u := Tag(s.inbox.born[u].read, u)], moving := Moving(u))
    case MakeMove(effect) =>
      var u := s.moving.uid;
      var t := s.(moving := NotMoving);
      if u !in s.inbox.msgs || effect.NoEffect? then t
      else if effect.Copied? then Place(t, u)
      else var p := Place(t, u); p.(inbox := p.inbox.Drop(u))
    case ListJunk(listing) => s.(scanning := Scanning(s.known, listing, listing))
    case TrainNext(fetched) =>
      var e := s.scanning.todo[0];
      var t := s.(scanning := s.scanning.(todo := s.scanning.todo[1..]));
      if e.uid !in Uids(s.scanning.prev) && !IsDaemonMove(s.moves, e.uid, e.mid) && fetched
      then t.(log := s.log + [SpamReport(e.uid, e.mid, s.daemonPlaced)])
      else t
    case SaveSnapshot => s.(known := s.scanning.junk, scanning := NotScanning)
    case Restart => s.(moving := NotMoving, scanning := NotScanning)
  }

  ghost predicate Allowed(s: System, steps: seq<Step>)
    decreases |steps|
  {
    steps == [] || (Enabled(s, steps[0]) && Allowed(Next(s, steps[0]), steps[1..]))
  }

  function Run(s: System, steps: seq<Step>): System
    requires Allowed(s, steps)
    decreases |steps|
  {
    if steps == [] then s else Run(Next(s, steps[0]), steps[1..])
  }

  // ----- an uninterrupted scan is a reconciliation -----

  function Taken(s: System, step: Step): System {
    if Enabled(s, step) then Next(s, step) else s
  }

  /** The listing and the first n of its messages looked at. */
  function Scanned(s: System, sc: Scan, n: nat): System
    requires n <= |sc.junk|
  {
    if n == 0 then Taken(s, ListJunk(sc.junk))
    else Taken(Scanned(s, sc, n - 1), TrainNext(sc.junk[n - 1].uid in sc.junkText))
  }

  function Logged(log: seq<SpamReport>): (r: seq<nat>)
    ensures |r| == |log|
  {
    seq(|log|, i requires 0 <= i < |log| => log[i].uid)
  }

  function Reported(reports: seq<Report>): (r: seq<nat>)
    ensures |r| == |reports|
  {
    seq(|reports|, i requires 0 <= i < |reports| => reports[i].origin)
  }

  /** The idler takes message e as the reconciliation does: both report it, or neither. */
  lemma TakesAlike(s: System, t: Trained, cfg: Config, sc: Scan, todo: seq<Entry>)
    requires todo != [] && s.scanning == Scanning(s.known, sc.junk, todo) && sc.moves == s.moves && cfg.spamOnArrival
    ensures var (e, u) := (todo[0], Taken(s, TrainNext(todo[0].uid in sc.junkText)));
            var (before, after) := (t.reports, SpamStep(t, cfg, s.known, sc, e).reports);
            && u == s.(scanning := Scanning(s.known, sc.junk, todo[1..]), log := u.log)
            && (|| (u.log == s.log && after == before)
                || exists l, r :: u.log == s.log + [l] && after == before + [r] && l.uid == r.origin)
  {
    hide IsDaemonMove, LogFeedback, Tag;
    var e := todo[0];
    if e.uid !in Uids(s.known) && !IsDaemonMove(s.moves, e.uid, e.mid) && e.uid in sc.junkText {
      var (l, r) := (SpamReport(e.uid, e.mid, s.daemonPlaced), Report(e.uid, e.uid, sc.junkText[e.uid], true));
      assert Taken(s, TrainNext(true)).log == s.log + [l];
      assert SpamStep(t, cfg, s.known, sc, e).reports == t.reports + [r];
    }
  }

  lemma Alike(log: seq<SpamReport>, l: SpamReport, reports: seq<Report>, r: Report)
    requires l.uid == r.origin
    ensures Logged(log + [l]) == Logged(log) + [l.uid] && Reported(reports + [r]) == Reported(reports) + [l.uid]
  {
  }

  lemma {:induction false} ScannedIsSpamLoop(s: System, cfg: Config, sc: Scan, n: nat, t: Trained)
    requires Enabled(s, ListJunk(sc.junk)) && sc.moves == s.moves && cfg.spamOnArrival && n <= |sc.junk| && t.reports == []
    ensures var u := Scanned(s, sc, n);
            && u == s.(scanning := Scanning(s.known, sc.junk, sc.junk[n..]), log := u.log)
            && Logged(u.log) == Logged(s.log) + Reported(SpamLoop(t, cfg, s.known, sc, n).reports)
  {
    if n > 0 {
      ScannedIsSpamLoop(s, cfg, sc, n - 1, t);
      var (u, v) := (Scanned(s, sc, n - 1), SpamLoop(t, cfg, s.known, sc, n - 1));
      TakesAlike(u, v, cfg, sc, sc.junk[n - 1..]);
      assert sc.junk[n - 1..][1..] == sc.junk[n..];
      hide Taken, SpamStep, Enabled, Logged, Reported;
      var (u', v') := (Scanned(s, sc, n), SpamLoop(t, cfg, s.known, sc, n));
      if !(u'.log == u.log && v'.reports == v.reports) {
        var l, r :| u'.log == u.log + [l] && v'.reports == v.reports + [r] && l.uid == r.origin;
        Alike(u.log, l, v.reports, r);
      }
    }
  }

  lemma {:induction false} NoHamLoop(t: Trained, cfg: Config, prev: seq<Entry>, sc: Scan, n: nat)
    requires n <= |prev| && !cfg.hamOnReturn
    ensures HamLoop(t, cfg, prev, sc, n) == t
  {
    if n > 0 {
      NoHamLoop(t, cfg, prev, sc, n - 1);
    }
  }

  /** A scan that nothing interrupts reports what the reconciliation reports as spam, in the same order, and keeps its snapshot. */
  lemma ScanReconciles(s: System, rows: seq<Row>, sc: Scan)
    requires Enabled(s, ListJunk(sc.junk)) && sc.moves == s.moves
    ensures var u := Taken(Scanned(s, sc, |sc.junk|), SaveSnapshot);
            && u == s.(known := sc.junk, log := u.log)
            && Logged(u.log) == Logged(s.log) + Reported(Reconciled(rows, Config(true, false), s.known, sc).reports)
  {
    var (cfg, t) := (Config(true, false), Trained(rows, [], NOTHING));
    ScannedIsSpamLoop(s, cfg, sc, |sc.junk|, t);
    NoHamLoop(SpamLoop(t, cfg, s.known, sc, |sc.junk|), cfg, s.known, sc, |s.known|);
    hide SpamLoop, HamLoop, Scanned;
  }

  // ----- what every step keeps -----

  ghost predicate BoxSound(b: Box) {
    && (forall u :: u in b.msgs ==> u in b.born && b.born[u] == b.msgs[u])
    && (forall u :: u in b.born ==> u < b.next)
  }

  /** Each row of daemon_moves names the message that bears, or bore, its INBOX UID. */
  ghost predicate RowsSound(s: System) {
    forall u :: u in s.moves ==> u in s.inbox.born && s.moves[u] == Tag(s.inbox.born[u].read, u)
  }

  /** Every message the daemon moved is recorded under the Message-ID that the pipeline read. */
  ghost predicate MovesRecorded(s: System) {
    && (forall v :: v in s.daemonPlaced && s.daemonPlaced[v].read != "" ==> s.daemonPlaced[v].read in s.moves.Values)
    && (s.moving.Moving? ==> s.moving.uid in s.moves)
  }

  ghost predicate Placed(b: Box, placed: map<nat, Mail>) {
    forall v :: v in placed ==> v in b.born && b.born[v] == placed[v]
  }

  /** Every report concerns a message as it was listed, and no faithful one that the daemon had moved before. */
  ghost predicate Unbiased(b: Box, r: SpamReport) {
    && r.uid in b.born && r.mid == b.born[r.uid].listed
    && Placed(b, r.placedBefore)
    && forall v :: v in r.placedBefore && r.placedBefore[v].Faithful() ==> r.mid != r.placedBefore[v].listed
  }

  ghost predicate LogSound(s: System) {
    && (forall r :: r in s.log ==> Unbiased(s.junk, r))
    && (s.scanning.Scanning? ==> TruthfulListing(s.junk, s.scanning.todo))
  }

  ghost predicate Inv(s: System) {
    && BoxSound(s.inbox) && BoxSound(s.junk) && RowsSound(s) && MovesRecorded(s)
    && Placed(s.junk, s.daemonPlaced) && LogSound(s)
  }

  lemma RecordKeeps(s: System, u: nat)
    requires Inv(s) && Enabled(s, Record(u))
    ensures Inv(Next(s, Record(u)))
  {
    hide Tag;
    var t := Next(s, Record(u));
    forall v | v in t.daemonPlaced && t.daemonPlaced[v].read != "" ensures t.daemonPlaced[v].read in t.moves.Values {
      var w :| w in s.moves && s.moves[w] == t.daemonPlaced[v].read;
      assert t.moves[w] == s.moves[w];
    }
  }

  lemma PlaceKeeps(s: System, u: nat)
    requires Inv(s) && u in s.inbox.msgs && u in s.moves
    ensures Inv(Place(s, u))
  {
    hide Decimal;
    var m := s.inbox.msgs[u];
    assert s.moves[u] in s.moves.Values;
    assert m.read != "" ==> s.moves[u] == m.read;
  }

  lemma TrainKeeps(s: System, fetched: bool)
    requires Inv(s) && Enabled(s, TrainNext(fetched))
    ensures Inv(Next(s, TrainNext(fetched)))
  {
    hide Tag;
  }

  lemma MoveKeeps(s: System, effect: Effect)
    requires Inv(s) && Enabled(s, MakeMove(effect))
    ensures Inv(Next(s, MakeMove(effect)))
  {
    hide Tag;
    var u, t := s.moving.uid, s.(moving := NotMoving);
    if u in s.inbox.msgs {
      PlaceKeeps(t, u);
    }
  }

  lemma StepKeeps(s: System, step: Step)
    requires Inv(s) && Enabled(s, step)
    ensures Inv(Next(s, step))
  {
    hide Inv, Next;
    match step {
      case Record(u) => RecordKeeps(s, u);
      case MakeMove(effect) => MoveKeeps(s, effect);
      case TrainNext(fetched) => TrainKeeps(s, fetched);
      case ListJunk(_) => IdlerKeeps(s, step);
      case SaveSnapshot => IdlerKeeps(s, step);
      case Restart => IdlerKeeps(s, step);
      case _ => OthersKeep(s, step);
    }
  }

  predicate ByOthers(step: Step) {
    step.DeliverInbox? || step.DeliverJunk? || step.UserToJunk? || step.UserToInbox? || step.UserDeletesInbox? || step.UserDeletesJunk?
  }

  lemma IdlerKeeps(s: System, step: Step)
    requires Inv(s) && Enabled(s, step) && (step.ListJunk? || step.SaveSnapshot? || step.Restart?)
    ensures Inv(Next(s, step))
  {
    hide Tag, Place, IsDaemonMove, Uids;
  }

  /** Folders that change as others change them: UIDs are given out in order, and what they stood for stays known. */
  ghost predicate Grown(b: Box, c: Box) {
    && BoxSound(c)
    && forall u :: u in b.born ==> u in c.born && c.born[u] == b.born[u]
  }

  lemma OthersGrow(s: System, step: Step)
    requires BoxSound(s.inbox) && BoxSound(s.junk) && Enabled(s, step) && ByOthers(step)
    ensures var t := Next(s, step);
      && Grown(s.inbox, t.inbox) && Grown(s.junk, t.junk)
      && t == s.(inbox := t.inbox, junk := t.junk)
  {
    hide Tag, Place, IsDaemonMove, Uids;
  }

  lemma OthersKeep(s: System, step: Step)
    requires Inv(s) && Enabled(s, step) && ByOthers(step)
    ensures Inv(Next(s, step))
  {
    OthersGrow(s, step);
    hide Next, Enabled, Tag;
  }

  lemma {:induction false} RunKeeps(s: System, steps: seq<Step>)
    requires Inv(s) && Allowed(s, steps)
    ensures Inv(Run(s, steps))
    decreases |steps|
  {
    if steps != [] {
      StepKeeps(s, steps[0]);
      hide Inv, Next;
      RunKeeps(Next(s, steps[0]), steps[1..]);
    }
  }

  /**
   The bias guard: over every interleaving from the empty system, no report concerns the
   Message-ID of a message that the daemon had moved to Junk before and whose two readings agree.
   */
  lemma NeverTrainsItsOwnMoves(steps: seq<Step>, r: SpamReport, v: nat)
    requires Allowed(INIT, steps) && r in Run(INIT, steps).log
    requires v in r.placedBefore && r.placedBefore[v].Faithful()
    ensures r.mid != r.placedBefore[v].listed
  {
    RunKeeps(INIT, steps);
  }

  /** Some report concerns m, which the daemon itself had put into Junk under that UID. */
  ghost predicate OwnMoveTrained(steps: seq<Step>, m: Mail) {
    && Allowed(INIT, steps)
    && exists r :: r in Run(INIT, steps).log && r.uid in r.placedBefore && r.placedBefore[r.uid] == m
  }

  /** Exactly the faithful messages are safe: every other one the daemon moves is trained on in some run. */
  lemma OwnMovesExactly(m: Mail)
    ensures (exists steps :: OwnMoveTrained(steps, m)) <==> !m.Faithful()
  {
    if m.Faithful() {
      forall steps ensures !OwnMoveTrained(steps, m) {
        if OwnMoveTrained(steps, m) {
          FaithfulIsSafe(steps, m);
        }
      }
    } else {
      DecimalParses(2);
      DecimalParses(3);
      var u := if m.listed == "" || Tag(m.read, 2) != m.listed then 2 else 3;
      hide OwnMoveTrained;
      var steps, s := OwnMoveRun(m, u);
    }
  }

  lemma FaithfulIsSafe(steps: seq<Step>, m: Mail)
    requires OwnMoveTrained(steps, m)
    ensures !m.Faithful()
  {
    RunKeeps(INIT, steps);
    hide Run, Allowed;
    var r :| r in Run(INIT, steps).log && r.uid in r.placedBefore && r.placedBefore[r.uid] == m;
    assert Unbiased(Run(INIT, steps).junk, r);
  }

  // ----- what the guard recognises -----

  /** The INBOX UIDs that the pipeline recorded in a run. */
  function Recorded(steps: seq<Step>): set<nat> {
    if steps == [] then {} else (if steps[0].Record? then {steps[0].uid} else {}) + Recorded(steps[1..])
  }

  lemma {:induction false} MovesAreRecorded(s: System, steps: seq<Step>)
    requires Allowed(s, steps)
    ensures Run(s, steps).moves.Keys == s.moves.Keys + Recorded(steps)
    decreases |steps|
  {
    if steps != [] {
      MovesAreRecorded(Next(s, steps[0]), steps[1..]);
      StepRecords(s, steps[0]);
      hide Next, Enabled;
    }
  }

  lemma StepRecords(s: System, step: Step)
    requires Enabled(s, step)
    ensures Next(s, step).moves.Keys == s.moves.Keys + if step.Record? then {step.uid} else {}
  {
    hide Tag, IsDaemonMove;
  }

  /**
   Over every interleaving, a message that the daemon put into Junk is recognised exactly when
   its raw Message-ID is not empty and some recorded INBOX message was read under it, or when
   its Junk UID happens to be a recorded INBOX UID.
   */
  lemma GuardRecognises(steps: seq<Step>, u: nat)
    requires Allowed(INIT, steps) && u in Run(INIT, steps).daemonPlaced
    ensures var s := Run(INIT, steps);
      var m := s.daemonPlaced[u];
      && u in s.junk.born && s.junk.born[u] == m
      && Recorded(steps) <= s.inbox.born.Keys
      && (IsDaemonMove(s.moves, u, m.listed) <==>
          (m.listed != "" && exists v :: v in Recorded(steps) && Tag(s.inbox.born[v].read, v) == m.listed)
          || u in Recorded(steps))
  {
    RunKeeps(INIT, steps);
    MovesAreRecorded(INIT, steps);
    hide Run, Allowed, Recorded, Tag;
    var s, listed := Run(INIT, steps), Run(INIT, steps).daemonPlaced[u].listed;
    assert s.moves.Keys == Recorded(steps);
    if listed in s.moves.Values {
      var v :| v in s.moves && s.moves[v] == listed;
      assert v in Recorded(steps);
    }
  }

  // ----- runs, one step at a time -----

  ghost predicate Reaches(s: System, steps: seq<Step>, t: System) {
    Allowed(s, steps) && Run(s, steps) == t
  }

  lemma ReachesNext(s: System, steps: seq<Step>, t: System, step: Step)
    requires Reaches(s, steps, t) && Enabled(t, step)
    ensures Reaches(s, steps + [step], Next(t, step))
    decreases |steps|
  {
    hide Enabled, Next;
    if steps == [] {
      assert steps + [step] == [step] && [step][1..] == [];
      assert Allowed(Next(s, step), []) && Run(Next(s, step), []) == Next(s, step);
      assert Allowed(s, [step]) && Run(s, [step]) == Run(Next(s, step), [step][1..]);
    } else {
      ReachesNext(Next(s, steps[0]), steps[1..], t, step);
      assert (steps + [step])[1..] == steps[1..] + [step];
    }
  }

  lemma Do(steps: seq<Step>, s: System, step: Step) returns (steps': seq<Step>, s': System)
    requires Reaches(INIT, steps, s) && Enabled(s, step)
    ensures s' == Next(s, step) && Reaches(INIT, steps', s')
  {
    ReachesNext(INIT, steps, s, step);
    return steps + [step], Next(s, step);
  }

  /** Nothing but n deliveries to INBOX has happened. */
  predicate OnlyDelivered(s: System, n: nat) {
    && s.inbox.next == n + 1 && s.junk == EMPTY_BOX && s.moves == map[] && s.known == []
    && s.moving == NotMoving && s.scanning == NotScanning && s.daemonPlaced == map[] && s.log == []
  }

  lemma {:induction false} Deliveries(n: nat) returns (steps: seq<Step>, s: System)
    ensures Reaches(INIT, steps, s) && OnlyDelivered(s, n)
  {
    if n == 0 {
      assert Reaches(INIT, [], INIT);
      return [], INIT;
    }
    steps, s := Deliveries(n - 1);
    hide Reaches;
    steps, s := Do(steps, s, DeliverInbox(Mail("a", "a", "hello")));
  }

  /** The daemon moves m from INBOX UID u to Junk UID 1, and the idler trains on it. */
  lemma OwnMoveRun(m: Mail, u: nat) returns (steps: seq<Step>, s: System)
    requires u >= 2 && (m.listed == "" || Tag(m.read, u) != m.listed)
    ensures Reaches(INIT, steps, s) && OwnMoveTrained(steps, m)
  {
    hide Reaches, Tag;
    steps, s := Deliveries(u - 1);
    steps, s := Do(steps, s, DeliverInbox(m));
    steps, s := Do(steps, s, Record(u));
    assert s.moves == map[u := Tag(m.read, u)];
    steps, s := Do(steps, s, MakeMove(Moved));
    steps, s := ScanRun(steps, s, m, u);
  }

  lemma ScanRun(steps0: seq<Step>, s0: System, m: Mail, u: nat) returns (steps: seq<Step>, s: System)
    requires u >= 2 && (m.listed == "" || Tag(m.read, u) != m.listed)
    requires Reaches(INIT, steps0, s0) && s0.moves == map[u := Tag(m.read, u)] && s0.junk == EMPTY_BOX.Add(m)
    requires s0.moving == NotMoving && s0.scanning == NotScanning && s0.known == [] && s0.log == [] && s0.daemonPlaced == map[1 := m]
    ensures Reaches(INIT, steps, s) && OwnMoveTrained(steps, m)
  {
    hide Reaches, Tag;
    steps, s := steps0, s0;
    steps, s := Do(steps, s, ListJunk([Entry(1, m.listed)]));
    assert !IsDaemonMove(s.moves, 1, m.listed) && Uids([]) == {};
    steps, s := Do(steps, s, TrainNext(true));
    assert s.log == [SpamReport(1, m.listed, map[1 := m])];
    OneReport(steps, s, m);
  }

  lemma OneReport(steps: seq<Step>, s: System, m: Mail)
    requires Reaches(INIT, steps, s) && s.log == [SpamReport(1, m.listed, map[1 := m])]
    ensures OwnMoveTrained(steps, m)
  {
    hide Run, Allowed;
    assert s.log[0] in s.log;
  }

  /** Without a Message-ID the daemon trains on its own move. */
  lemma MoveWithoutMessageIdIsTrained() returns (steps: seq<Step>)
    ensures OwnMoveTrained(steps, Mail("", "", "spam"))
  {
    hide OwnMoveTrained, Tag;
    var s;
    steps, s := OwnMoveRun(Mail("", "", "spam"), 2);
  }

  /** With an encoded word in the Message-ID it does so as well: the pipeline records what no listing shows. */
  lemma EncodedMessageIdIsTrained() returns (steps: seq<Step>)
    ensures OwnMoveTrained(steps, Mail(" abc @x", "=?utf-8?q?abc?=@x", "spam"))
  {
    var m := Mail(" abc @x", "=?utf-8?q?abc?=@x", "spam");
    assert m.read[0] != m.listed[0];
    hide OwnMoveTrained, Decimal;
    var s;
    steps, s := OwnMoveRun(m, 2);
  }

  /** A gateway delivery whose Junk UID equals a recorded INBOX UID is taken for a daemon move and never trained. */
  lemma UnrelatedArrivalIsSkipped() returns (steps: seq<Step>, s: System)
    ensures Reaches(INIT, steps, s) && s.daemonPlaced == map[] && s.log == []
    ensures s.junk.msgs == map[1 := Mail("b", "b", "spam")] && s.known == [Entry(1, "b")]
  {
    hide Reaches, Tag;
    steps, s := Deliveries(0);
    steps, s := Do(steps, s, DeliverInbox(Mail("a", "a", "hello")));
    steps, s := Do(steps, s, Record(1));
    steps, s := Do(steps, s, MakeMove(NoEffect));
    steps, s := Do(steps, s, DeliverJunk(Mail("b", "b", "spam")));
    steps, s := SkippedRun(steps, s);
  }

  lemma SkippedRun(steps0: seq<Step>, s0: System) returns (steps: seq<Step>, s: System)
    requires Reaches(INIT, steps0, s0) && 1 in s0.moves && s0.junk == EMPTY_BOX.Add(Mail("b", "b", "spam"))
    requires s0.moving == NotMoving && s0.scanning == NotScanning && s0.known == [] && s0.log == [] && s0.daemonPlaced == map[]
    ensures Reaches(INIT, steps, s) && s.daemonPlaced == map[] && s.log == []
    ensures s.junk.msgs == map[1 := Mail("b", "b", "spam")] && s.known == [Entry(1, "b")]
  {
    hide Reaches, Tag;
    steps, s := steps0, s0;
    steps, s := Do(steps, s, ListJunk([Entry(1, "b")]));
    assert IsDaemonMove(s.moves, 1, "b");
    steps, s := Do(steps, s, TrainNext(true));
    steps, s := Do(steps, s, SaveSnapshot);
  }
}
