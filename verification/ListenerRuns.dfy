/** What the listener does over whole sequences of events. */
module ListenerRuns {
  import opened Options
  import opened Migadu
  import opened MigaduSafety
  import opened Listener

  /** The capture that is still open for uid after the events: the last one, if no deletion came after it. */
  function Captured(cfg: Config, events: seq<Event>, uid: string): Option<Option<Address>> {
    if events == [] then None
    else
      match events[|events| - 1]
      case BeforeDeleted(user) =>
        if user.uid == uid then Some(match Resolve(cfg, user) case Mailbox(a) => Some(a) case _ => None)
        else Captured(cfg, events[..|events| - 1], uid)
      case Deleted(u) => if u == uid then None else Captured(cfg, events[..|events| - 1], uid)
      case _ => Captured(cfg, events[..|events| - 1], uid)
  }

  /** pendingDeletions is exactly the open captures of the history. */
  lemma {:induction false} PendingIsCaptured(cfg: Config, s: System, events: seq<Event>, uid: string)
    requires s.pending == map[]
    ensures var pending := Run(cfg, s, events).pending;
            Captured(cfg, events, uid) == if uid in pending then Some(pending[uid]) else None
  {
    if events != [] {
      PendingIsCaptured(cfg, s, events[..|events| - 1], uid);
      hide Resolve, Remove, Sync;
    }
  }

  /** Request r may be sent on event e after the events before it. */
  predicate Justified(cfg: Config, before: seq<Event>, e: Event, r: Request) {
    if r.Delete? then e.Deleted? && Captured(cfg, before, e.uid) == Some(Some(r.to))
    else e.NewPassword? && Resolve(cfg, e.user) == Mailbox(r.to)
  }

  lemma SyncSends(acc: Account, st: State, a: Address, password: string, encodable: bool)
    ensures var log := Sync(acc, st, a, password, encodable).0.log;
            && |st.log| <= |log|
            && log[..|st.log|] == st.log
            && (forall k :: |st.log| <= k < |log| ==> log[k].to == a && !log[k].Delete?)
  {
    hide Retry;
    RetryReaches(acc.api, st, Get(a), {200, 404}, 1);
    var found := Requested(acc.api, st, Get(a), {200, 404}).0;
    RetryReaches(acc.api, found, Post(a, password), {200}, 1);
    RetryReaches(acc.api, found, Put(a, password), {200}, 1);
  }

  lemma RemoveSends(acc: Account, st: State, a: Address)
    ensures var log := Remove(acc, st, a).0.log;
            && |st.log| <= |log| <= |st.log| + 3
            && log[..|st.log|] == st.log
            && (forall k :: |st.log| <= k < |log| ==> log[k] == Delete(a))
  {
    hide Retry;
    RetryReaches(acc.api, st, Delete(a), DELETE_SUCCESS_CODES, 1);
    RetryBounds(acc.api, st, Delete(a), DELETE_SUCCESS_CODES, 1);
  }

  /** One event sends only requests that it justifies, after those sent before it. */
  lemma StepExplained(cfg: Config, s: System, before: seq<Event>, e: Event)
    requires s.pending == map[]
    ensures var (log, log') := (Run(cfg, s, before).st.log, Handled(cfg, Run(cfg, s, before), e).st.log);
            && log <= log'
            && (forall i :: |log| <= i < |log'| ==> Justified(cfg, before, e, log'[i]))
  {
    var mid := Run(cfg, s, before);
    match e {
      case NewPassword(user, password, encodable) =>
        var r := Resolve(cfg, user);
        if r.Mailbox? {
          SyncSends(cfg.acc, mid.st, r.address, password, encodable);
        }
      case Deleted(uid) =>
        PendingIsCaptured(cfg, s, before, uid);
        if uid in mid.pending && mid.pending[uid].Some? {
          RemoveSends(cfg.acc, mid.st, mid.pending[uid].value);
        }
      case _ =>
    }
  }

  /** The requests sent up to and without event k. */
  function SentBefore(cfg: Config, s: System, events: seq<Event>, k: nat): seq<Request>
    requires k <= |events|
  {
    Run(cfg, s, events[..k]).st.log
  }

  lemma {:induction false} SentGrows(cfg: Config, s: System, events: seq<Event>, j: nat, k: nat)
    requires s.pending == map[] && j <= k <= |events|
    ensures SentBefore(cfg, s, events, j) <= SentBefore(cfg, s, events, k)
  {
    if j < k {
      SentGrows(cfg, s, events, j, k - 1);
      StepExplained(cfg, s, events[..k - 1], events[k - 1]);
      assert events[..k][..k - 1] == events[..k - 1];
    }
  }

  /**
   Every request is sent during an event that justifies it: a DELETE during the deletion of a
   user whose open capture is exactly that mailbox, any other during a new password of a user
   of that mailbox.  The requests of event k stand together in the final log.
   */
  lemma RequestsExplained(cfg: Config, s: System, events: seq<Event>, k: nat)
    requires s.pending == map[] && k < |events|
    ensures var (n, n') := (|SentBefore(cfg, s, events, k)|, |SentBefore(cfg, s, events, k + 1)|);
            var log := SentBefore(cfg, s, events, |events|);
            && n <= n' <= |log|
            && (forall i :: n <= i < n' ==> Justified(cfg, events[..k], events[k], log[i]))
  {
    SentGrows(cfg, s, events, k + 1, |events|);
    StepExplained(cfg, s, events[..k], events[k]);
    assert events[..k + 1][..k] == events[..k];
    hide Justified;
  }

  // ----- each capture is consumed at most once -----

  function Deletes(log: seq<Request>, a: Address): nat {
    if log == [] then 0 else Deletes(log[..|log| - 1], a) + if log[|log| - 1] == Delete(a) then 1 else 0
  }

  /** How often a user of mailbox a was about to be deleted. */
  function Captures(cfg: Config, events: seq<Event>, a: Address): nat {
    if events == [] then 0
    else
      var e := events[|events| - 1];
      Captures(cfg, events[..|events| - 1], a) + if e.BeforeDeleted? && Resolve(cfg, e.user) == Mailbox(a) then 1 else 0
  }

  function Holders(pending: map<string, Option<Address>>, a: Address): set<string> {
    set uid | uid in pending && pending[uid] == Some(a)
  }

  lemma {:induction false} DeletesAppend(log: seq<Request>, more: seq<Request>, a: Address)
    ensures Deletes(log, a) <= Deletes(log + more, a) <= Deletes(log, a) + |more|
    ensures (forall k :: 0 <= k < |more| ==> more[k] != Delete(a)) ==> Deletes(log + more, a) == Deletes(log, a)
  {
    if more == [] {
      assert log + more == log;
    } else {
      DeletesAppend(log, more[..|more| - 1], a);
      assert (log + more)[..|log + more| - 1] == log + more[..|more| - 1];
    }
  }

  /** At most three DELETE requests for each capture of a mailbox, over any run and under any faults. */
  lemma {:induction false} DeletesBounded(cfg: Config, s: System, events: seq<Event>, a: Address)
    requires s.pending == map[] && s.st.log == []
    ensures var after := Run(cfg, s, events);
            Deletes(after.st.log, a) + 3 * |Holders(after.pending, a)| <= 3 * Captures(cfg, events, a)
  {
    if events == [] {
      assert Holders(s.pending, a) == {};
    } else {
      var before := events[..|events| - 1];
      DeletesBounded(cfg, s, before, a);
      StepDeletes(cfg, Run(cfg, s, before), events[|events| - 1], a);
    }
  }

  lemma SyncDeletes(acc: Account, st: State, to: Address, password: string, encodable: bool, a: Address)
    ensures Deletes(Sync(acc, st, to, password, encodable).0.log, a) == Deletes(st.log, a)
  {
    hide Sync;
    SyncSends(acc, st, to, password, encodable);
    var log := Sync(acc, st, to, password, encodable).0.log;
    DeletesAppend(st.log, log[|st.log|..], a);
    assert log == st.log + log[|st.log|..];
  }

  lemma RemoveDeletes(acc: Account, st: State, to: Address, a: Address)
    ensures Deletes(Remove(acc, st, to).0.log, a) <= Deletes(st.log, a) + if to == a then 3 else 0
  {
    hide Remove;
    RemoveSends(acc, st, to);
    var log := Remove(acc, st, to).0.log;
    DeletesAppend(st.log, log[|st.log|..], a);
    assert log == st.log + log[|st.log|..];
  }

  lemma HoldersDropped(pending: map<string, Option<Address>>, uid: string, a: Address)
    requires uid in pending
    ensures |Holders(pending - {uid}, a)| == |Holders(pending, a)| - if pending[uid] == Some(a) then 1 else 0
  {
    assert Holders(pending - {uid}, a) == Holders(pending, a) - {uid};
  }

  lemma HoldersAdded(pending: map<string, Option<Address>>, uid: string, captured: Option<Address>, a: Address)
    ensures |Holders(pending[uid := captured], a)| <= |Holders(pending, a)| + if captured == Some(a) then 1 else 0
  {
    var rest := Holders(pending, a) - {uid};
    assert Holders(pending[uid := captured], a) == if captured == Some(a) then rest + {uid} else rest;
  }

  lemma StepDeletes(cfg: Config, mid: System, e: Event, a: Address)
    ensures var after := Handled(cfg, mid, e);
            Deletes(after.st.log, a) + 3 * |Holders(after.pending, a)|
            <= Deletes(mid.st.log, a) + 3 * |Holders(mid.pending, a)|
               + if e.BeforeDeleted? && Resolve(cfg, e.user) == Mailbox(a) then 3 else 0
  {
    hide Resolve, Remove, Sync, Deletes, Holders;
    match e {
      case NewPassword(user, password, encodable) =>
        var r := Resolve(cfg, user);
        if r.Mailbox? {
          SyncDeletes(cfg.acc, mid.st, r.address, password, encodable, a);
        }
      case Deleted(uid) =>
        if uid in mid.pending {
          HoldersDropped(mid.pending, uid, a);
          if mid.pending[uid].Some? {
            RemoveDeletes(cfg.acc, mid.st, mid.pending[uid].value, a);
          }
        }
      case BeforeDeleted(user) =>
        var r := Resolve(cfg, user);
        HoldersAdded(mid.pending, user.uid, if r.Mailbox? then Some(r.address) else None, a);
      case _ =>
    }
  }

  // ----- mailboxes without a user -----

  predicate SameBox(b: map<Address, string>, c: map<Address, string>, a: Address) {
    (a in b <==> a in c) && (a in b && a in c ==> b[a] == c[a])
  }

  predicate Concerns(cfg: Config, e: Event, a: Address) {
    (e.NewPassword? || e.BeforeDeleted?) && Resolve(cfg, e.user) == Mailbox(a)
  }

  /** A mailbox that belongs to no user of the events, excluded users among them, is never touched. */
  lemma {:induction false} OthersUntouched(cfg: Config, s: System, events: seq<Event>, a: Address)
    requires s.pending == map[] && cfg.acc.api.Valid()
    requires forall k :: 0 <= k < |events| ==> !Concerns(cfg, events[k], a)
    ensures SameBox(s.st.boxes, Run(cfg, s, events).st.boxes, a)
    ensures forall uid :: uid in Run(cfg, s, events).pending ==> Run(cfg, s, events).pending[uid] != Some(a)
  {
    if events != [] {
      var before := events[..|events| - 1];
      var e := events[|events| - 1];
      OthersUntouched(cfg, s, before, a);
      var mid := Run(cfg, s, before);
      assert !Concerns(cfg, e, a);
      hide Resolve, Remove, Sync;
      match e {
        case NewPassword(user, password, encodable) =>
          var r := Resolve(cfg, user);
          if r.Mailbox? {
            SyncKeeps(cfg.acc, mid.st, r.address, password, encodable);
          }
        case Deleted(uid) =>
          if uid in mid.pending && mid.pending[uid].Some? {
            RemoveExactly(cfg.acc, mid.st, mid.pending[uid].value);
          }
        case _ =>
      }
    }
  }

  // ----- what the events achieve -----

  lemma {:induction false} RunFrom(cfg: Config, s: System, before: seq<Event>, e: Event)
    ensures Run(cfg, s, before + [e]) == Handled(cfg, Run(cfg, s, before), e)
  {
    assert (before + [e])[..|before|] == before;
  }

  /** Event k writes to mailbox a or deletes it: a new password of its user, or a deletion with that open capture. */
  predicate Touches(cfg: Config, events: seq<Event>, k: nat, a: Address)
    requires k < |events|
  {
    match events[k]
    case NewPassword(user, _, _) => Resolve(cfg, user) == Mailbox(a)
    case Deleted(uid) => Captured(cfg, events[..k], uid) == Some(Some(a))
    case _ => false
  }

  /** The mailbox is left alone from event j on. */
  predicate LeftAlone(cfg: Config, events: seq<Event>, j: nat, a: Address) {
    forall k :: j <= k < |events| ==> !Touches(cfg, events, k, a)
  }

  lemma {:induction false} AloneIsSame(cfg: Config, s: System, events: seq<Event>, j: nat, a: Address)
    requires s.pending == map[] && cfg.acc.api.Valid() && j <= |events| && LeftAlone(cfg, events, j, a)
    ensures SameBox(Run(cfg, s, events[..j]).st.boxes, Run(cfg, s, events).st.boxes, a)
    decreases |events|
  {
    if j == |events| {
      assert events[..j] == events;
    } else {
      var (before, e) := (events[..|events| - 1], events[|events| - 1]);
      forall k | j <= k < |before| ensures !Touches(cfg, before, k, a) {
        assert before[..k] == events[..k] && !Touches(cfg, events, k, a);
      }
      AloneIsSame(cfg, s, before, j, a);
      assert before[..j] == events[..j];
      assert !Touches(cfg, events, |before|, a);
      if e.Deleted? {
        PendingIsCaptured(cfg, s, before, e.uid);
      }
      hide Captured;
      UntouchedStep(cfg, Run(cfg, s, before), e, a);
    }
  }

  lemma UntouchedStep(cfg: Config, mid: System, e: Event, a: Address)
    requires cfg.acc.api.Valid()
    requires e.NewPassword? ==> Resolve(cfg, e.user) != Mailbox(a)
    requires e.Deleted? && e.uid in mid.pending ==> mid.pending[e.uid] != Some(a)
    ensures SameBox(mid.st.boxes, Handled(cfg, mid, e).st.boxes, a)
  {
    hide Resolve, Remove, Sync;
    match e {
      case NewPassword(user, password, encodable) =>
        var r := Resolve(cfg, user);
        if r.Mailbox? {
          SyncKeeps(cfg.acc, mid.st, r.address, password, encodable);
        }
      case Deleted(uid) =>
        if uid in mid.pending && mid.pending[uid].Some? {
          RemoveExactly(cfg.acc, mid.st, mid.pending[uid].value);
        }
      case _ =>
    }
  }

  /**
   The last event that touches a mailbox is a new password of its user: in the end the mailbox
   holds it exactly when it held it before, or the write arrived.
   */
  lemma PasswordArrives(cfg: Config, s: System, events: seq<Event>, k: nat, a: Address)
    requires s.pending == map[] && cfg.acc.api.Valid() && k < |events| && LeftAlone(cfg, events, k + 1, a)
    requires events[k].NewPassword? && Resolve(cfg, events[k].user) == Mailbox(a)
    ensures var (st, e) := (Run(cfg, s, events[..k]).st, events[k]);
            Holds(Run(cfg, s, events).st.boxes, a, e.password) <==>
            Holds(st.boxes, a, e.password) || (cfg.acc.credentials && e.encodable && Arrives(st.script, a in st.boxes))
  {
    var (st, e) := (Run(cfg, s, events[..k]).st, events[k]);
    AloneIsSame(cfg, s, events, k + 1, a);
    assert events[..k + 1] == events[..k] + [e];
    RunFrom(cfg, s, events[..k], e);
    SyncHolds(cfg.acc, st, a, e.password, e.encodable);
    hide Sync, Resolve, Arrives;
  }

  /**
   The last event that touches a mailbox is the deletion of its captured user: in the end it is
   gone exactly when it was not there before, or deletions are on and the request was reached.
   */
  lemma CapturedIsDeleted(cfg: Config, s: System, events: seq<Event>, k: nat, a: Address)
    requires s.pending == map[] && cfg.acc.api.Valid() && k < |events| && LeftAlone(cfg, events, k + 1, a)
    requires events[k].Deleted? && Captured(cfg, events[..k], events[k].uid) == Some(Some(a))
    ensures var st := Run(cfg, s, events[..k]).st;
            a !in Run(cfg, s, events).st.boxes <==>
            a !in st.boxes || (cfg.acc.deletions && cfg.acc.credentials && Reached(st.script, 3, {200, 204, 404, 500}))
  {
    var (st, e) := (Run(cfg, s, events[..k]).st, events[k]);
    AloneIsSame(cfg, s, events, k + 1, a);
    assert events[..k + 1] == events[..k] + [e];
    RunFrom(cfg, s, events[..k], e);
    PendingIsCaptured(cfg, s, events[..k], e.uid);
    RemoveGone(cfg.acc, st, a);
    hide Remove, Reached, Captured;
  }

  lemma {:induction false} NoFaultsStay(cfg: Config, s: System, events: seq<Event>)
    requires s.st.script == []
    ensures Run(cfg, s, events).st.script == []
  {
    if events != [] {
      NoFaultsStay(cfg, s, events[..|events| - 1]);
      var st := Run(cfg, s, events[..|events| - 1]).st;
      StepWithoutFaults(cfg, Run(cfg, s, events[..|events| - 1]), events[|events| - 1]);
    }
  }

  lemma {:induction false} RetryWithoutFaults(api: Api, st: State, r: Request, success: set<nat>, attempt: nat)
    requires st.script == []
    ensures Retry(api, st, r, success, attempt).0.script == []
    decreases MAX_ATTEMPTS + 1 - attempt
  {
    hide Retry;
    RetryStep(api, st, r, success, attempt);
    if attempt <= MAX_ATTEMPTS {
      RetryWithoutFaults(api, Send(api, Pause(st, attempt), r).0, r, success, attempt + 1);
    }
  }

  lemma StepWithoutFaults(cfg: Config, s: System, e: Event)
    requires s.st.script == []
    ensures Handled(cfg, s, e).st.script == []
  {
    hide Retry, Resolve;
    match e {
      case NewPassword(user, password, encodable) =>
        var r := Resolve(cfg, user);
        if r.Mailbox? {
          RetryWithoutFaults(cfg.acc.api, s.st, Get(r.address), {200, 404}, 1);
          var found := Requested(cfg.acc.api, s.st, Get(r.address), {200, 404}).0;
          RetryWithoutFaults(cfg.acc.api, found, Post(r.address, password), {200}, 1);
          RetryWithoutFaults(cfg.acc.api, found, Put(r.address, password), {200}, 1);
        }
      case Deleted(uid) =>
        if uid in s.pending && s.pending[uid].Some? {
          RetryWithoutFaults(cfg.acc.api, s.st, Delete(s.pending[uid].value), DELETE_SUCCESS_CODES, 1);
        }
      case _ =>
    }
  }

  /**
   Without faults, with credentials and deletions on, the last event that touches a mailbox
   decides: it holds the new password, or it is gone.
   */
  lemma LastTouchDecides(cfg: Config, s: System, events: seq<Event>, k: nat, a: Address)
    requires s.pending == map[] && s.st.script == [] && cfg.acc.api.Valid() && cfg.acc.credentials && cfg.acc.deletions
    requires k < |events| && Touches(cfg, events, k, a) && LeftAlone(cfg, events, k + 1, a)
    ensures var boxes := Run(cfg, s, events).st.boxes;
            match events[k]
            case NewPassword(_, password, encodable) => encodable ==> Holds(boxes, a, password)
            case _ => a !in boxes
  {
    hide Run, Resolve, Captured, LeftAlone;
    NoFaultsStay(cfg, s, events[..k]);
    if events[k].NewPassword? {
      PasswordArrives(cfg, s, events, k, a);
    } else {
      CapturedIsDeleted(cfg, s, events, k, a);
    }
  }
}
