/**
 The per-account lock and the five kinds of thread that take it: the three IDLE callbacks,
 the catch-up loop and the training loop.  Each step below is atomic in the program; steps
 of different threads interleave freely.
 */
module AccountLocks {
  import opened Options

  type Thread = nat

  type LockId = nat

  /** Where a thread stands. */
  datatype Place =
    | Outside
    | Waiting(account: string, lock: LockId)     // setdefault has given it the lock
    | Inside(account: string)                    // between acquire and the end of try
    | Leaving(account: string, survives: bool)   // at finally; an uncaught exception ends the thread
    | Releasing(account: string, survives: bool, found: Option<LockId>)
    | Ended

  /** locks is the dictionary, held the locks that are taken, made the number of locks ever made. */
  datatype System = System(locks: map<string, LockId>, held: set<LockId>, made: nat, places: map<Thread, Place>)

  datatype Action =
    | Ask(thread: Thread, account: string)
    | Take(thread: Thread, account: string)
    | TimeOut(thread: Thread, account: string)
    | Work(thread: Thread, account: string)
    | Leave(thread: Thread, account: string, survives: bool)
    | Look(thread: Thread, account: string)
    | Release(thread: Thread, account: string)

  function PlaceOf(s: System, t: Thread): Place {
    if t in s.places then s.places[t] else Outside
  }

  predicate Enabled(s: System, x: Action) {
    var p := PlaceOf(s, x.thread);
    match x
    case Ask(_, _) => p.Outside?
    case Take(_, a) => p.Waiting? && p.account == a && p.lock !in s.held
    case TimeOut(_, a) => p.Waiting? && p.account == a
    case Work(_, a) => p == Inside(a)
    case Leave(_, a, _) => p == Inside(a)
    case Look(_, a) => p.Leaving? && p.account == a
    case Release(_, a) => p.Releasing? && p.account == a
  }

  /** Releasing a lock that nobody holds raises a RuntimeError, which release swallows. */
  function Step(s: System, x: Action): System
    requires Enabled(s, x)
  {
    var p := PlaceOf(s, x.thread);
    match x
    case Ask(t, a) =>
      if a in s.locks then s.(places := s.places[t := Waiting(a, s.locks[a])])
      else System(s.locks[a := s.made], s.held, s.made + 1, s.places[t := Waiting(a, s.made)])
    case Take(t, a) => s.(held := s.held + {p.lock}, places := s.places[t := Inside(a)])
    case TimeOut(t, a) => s.(places := s.places[t := Outside])
    case Work(_, _) => s
    case Leave(t, a, survives) => s.(places := s.places[t := Leaving(a, survives)])
    case Look(t, a) => s.(places := s.places[t := Releasing(a, p.survives, if a in s.locks then Some(s.locks[a]) else None)])
    case Release(t, a) =>
      System(s.locks, if p.found.Some? then s.held - {p.found.value} else s.held, s.made, s.places[t := if p.survives then Outside else Ended])
  }

  const START := System(map[], {}, 0, map[])

  predicate Legal(trace: seq<Action>) {
    trace == [] || (Legal(trace[..|trace| - 1]) && Enabled(Run(trace[..|trace| - 1]), trace[|trace| - 1]))
  }

  function Run(trace: seq<Action>): System {
    if trace == [] then START
    else
      var s := Run(trace[..|trace| - 1]);
      var x := trace[|trace| - 1];
      if Enabled(s, x) then Step(s, x) else s
  }

  // ----- who is inside, told by the trace alone -----

  /** For each account the thread of the last Take, unless a Release for the account came after it. */
  function Owners(trace: seq<Action>): map<string, Thread> {
    if trace == [] then map[]
    else
      var before := Owners(trace[..|trace| - 1]);
      match trace[|trace| - 1]
      case Take(t, a) => before[a := t]
      case Release(_, a) => before - {a}
      case _ => before
  }

  predicate Owns(own: map<string, Thread>, t: Thread, a: string) {
    a in own && own[a] == t
  }

  predicate Busy(p: Place) {
    p.Inside? || p.Leaving? || p.Releasing?
  }

  predicate Critical(p: Place, account: string) {
    Busy(p) && p.account == account
  }

  predicate HasLock(s: System, a: string, l: LockId) {
    a in s.locks && s.locks[a] == l
  }

  ghost predicate LocksFine(s: System, own: map<string, Thread>) {
    && (forall a :: a in s.locks ==> s.locks[a] < s.made)
    && (forall a, b :: a in s.locks && b in s.locks && s.locks[a] == s.locks[b] ==> a == b)
    && (forall a :: a in own ==> a in s.locks && s.locks[a] in s.held)
    && (forall a :: a in s.locks && s.locks[a] in s.held ==> a in own)
    && (forall l :: l in s.held ==> l < s.made)
  }

  /** A thread knows the lock of its account and no other. */
  predicate PlaceFine(s: System, p: Place) {
    match p
    case Waiting(a, l) => HasLock(s, a, l)
    case Inside(a) => a in s.locks
    case Leaving(a, _) => a in s.locks
    case Releasing(a, _, found) => found.Some? && HasLock(s, a, found.value)
    case _ => true
  }

  ghost predicate PlacesFine(s: System, own: map<string, Thread>) {
    && (forall t :: t in s.places ==> PlaceFine(s, s.places[t]))
    && (forall t :: t in s.places && Busy(s.places[t]) ==> Owns(own, t, s.places[t].account))
    && (forall a :: a in own ==> own[a] in s.places && Critical(s.places[own[a]], a))
  }

  ghost predicate Inv(s: System, own: map<string, Thread>) {
    LocksFine(s, own) && PlacesFine(s, own)
  }

  function OwnersAfter(own: map<string, Thread>, x: Action): map<string, Thread> {
    match x
    case Take(t, a) => own[a := t]
    case Release(_, a) => own - {a}
    case _ => own
  }

  lemma AskLocks(s: System, own: map<string, Thread>, x: Action)
    requires LocksFine(s, own) && PlacesFine(s, own) && Enabled(s, x) && x.Ask?
    ensures LocksFine(Step(s, x), own)
  {
  }

  lemma AskPlaces(s: System, own: map<string, Thread>, x: Action)
    requires LocksFine(s, own) && PlacesFine(s, own) && Enabled(s, x) && x.Ask?
    ensures PlacesFine(Step(s, x), own)
  {
  }

  lemma TakeLocks(s: System, own: map<string, Thread>, x: Action)
    requires LocksFine(s, own) && PlacesFine(s, own) && Enabled(s, x) && x.Take?
    ensures LocksFine(Step(s, x), own[x.account := x.thread])
  {
    assert x.account !in own;
  }

  lemma TakePlaces(s: System, own: map<string, Thread>, x: Action)
    requires LocksFine(s, own) && PlacesFine(s, own) && Enabled(s, x) && x.Take?
    ensures PlacesFine(Step(s, x), own[x.account := x.thread])
  {
    assert x.account !in own;
  }

  lemma ReleaseLocks(s: System, own: map<string, Thread>, x: Action)
    requires LocksFine(s, own) && PlacesFine(s, own) && Enabled(s, x) && x.Release?
    ensures LocksFine(Step(s, x), own - {x.account})
  {
    assert Owns(own, x.thread, x.account);
  }

  lemma ReleasePlaces(s: System, own: map<string, Thread>, x: Action)
    requires LocksFine(s, own) && PlacesFine(s, own) && Enabled(s, x) && x.Release?
    ensures PlacesFine(Step(s, x), own - {x.account})
  {
    assert Owns(own, x.thread, x.account);
  }

  lemma OtherLocks(s: System, own: map<string, Thread>, x: Action)
    requires LocksFine(s, own) && PlacesFine(s, own) && Enabled(s, x) && (x.TimeOut? || x.Work? || x.Leave? || x.Look?)
    ensures LocksFine(Step(s, x), own)
  {
  }

  lemma TimeOutPlaces(s: System, own: map<string, Thread>, x: Action)
    requires LocksFine(s, own) && PlacesFine(s, own) && Enabled(s, x) && x.TimeOut?
    ensures PlacesFine(Step(s, x), own)
  {
  }

  lemma InsidePlaces(s: System, own: map<string, Thread>, x: Action)
    requires LocksFine(s, own) && PlacesFine(s, own) && Enabled(s, x) && (x.Work? || x.Leave?)
    ensures PlacesFine(Step(s, x), own)
  {
  }

  lemma LookPlaces(s: System, own: map<string, Thread>, x: Action)
    requires LocksFine(s, own) && PlacesFine(s, own) && Enabled(s, x) && x.Look?
    ensures PlacesFine(Step(s, x), own)
  {
  }

  lemma StepKeeps(s: System, own: map<string, Thread>, x: Action)
    requires Inv(s, own) && Enabled(s, x)
    ensures Inv(Step(s, x), OwnersAfter(own, x))
  {
    hide LocksFine, PlacesFine, Step;
    match x {
      case Ask(_, _) =>
        AskLocks(s, own, x);
        AskPlaces(s, own, x);
      case Take(_, _) =>
        TakeLocks(s, own, x);
        TakePlaces(s, own, x);
      case Release(_, _) =>
        ReleaseLocks(s, own, x);
        ReleasePlaces(s, own, x);
      case TimeOut(_, _) =>
        OtherLocks(s, own, x);
        TimeOutPlaces(s, own, x);
      case Look(_, _) =>
        OtherLocks(s, own, x);
        LookPlaces(s, own, x);
      case _ =>
        OtherLocks(s, own, x);
        InsidePlaces(s, own, x);
    }
  }

  /** After every run exactly the owners told by the trace are between acquire and release, and hold their locks. */
  lemma {:induction false} RunKeeps(trace: seq<Action>)
    requires Legal(trace)
    ensures Inv(Run(trace), Owners(trace))
  {
    if trace != [] {
      var before := trace[..|trace| - 1];
      var x := trace[|trace| - 1];
      RunKeeps(before);
      StepKeeps(Run(before), Owners(before), x);
      assert Owners(trace) == OwnersAfter(Owners(before), x);
    }
  }

  /** At most one thread is between acquire and release for an account. */
  lemma MutualExclusion(trace: seq<Action>, t: Thread, u: Thread, account: string)
    requires Legal(trace)
    requires Critical(PlaceOf(Run(trace), t), account) && Critical(PlaceOf(Run(trace), u), account)
    ensures t == u
  {
    RunKeeps(trace);
  }

  /**
   Whoever is about to release holds the lock: a timed-out acquire never leads to a release,
   the lock found is the one taken, and release never meets a lock that is free.
   */
  lemma ReleaseIsOwn(trace: seq<Action>, t: Thread, account: string)
    requires Legal(trace) && Enabled(Run(trace), Release(t, account))
    ensures Owns(Owners(trace), t, account)
    ensures var found := PlaceOf(Run(trace), t).found;
            found.Some? && found.value in Run(trace).held && HasLock(Run(trace), account, found.value)
  {
    RunKeeps(trace);
  }

  /** A thread that waits outside, or that an exception has ended, holds no lock; and a lock nobody owns is free. */
  lemma NothingLeaks(trace: seq<Action>, t: Thread, account: string)
    requires Legal(trace)
    ensures PlaceOf(Run(trace), t).Outside? || PlaceOf(Run(trace), t).Ended? ==> !Owns(Owners(trace), t, account)
    ensures account in Run(trace).locks && account !in Owners(trace) ==> Run(trace).locks[account] !in Run(trace).held
  {
    RunKeeps(trace);
  }

  // ----- where a thread stands -----

  /** The last step of the thread itself. */
  function LastOwn(trace: seq<Action>, t: Thread): Option<Action> {
    if trace == [] then None
    else if trace[|trace| - 1].thread == t then Some(trace[|trace| - 1])
    else LastOwn(trace[..|trace| - 1], t)
  }

  /** A thread stands where its own last step has put it; a timed-out acquire puts it outside. */
  predicate StandsAfter(p: Place, last: Option<Action>) {
    match last
    case None => p == Outside
    case Some(Ask(_, a)) => p.Waiting? && p.account == a
    case Some(Take(_, a)) => p == Inside(a)
    case Some(TimeOut(_, _)) => p == Outside
    case Some(Work(_, a)) => p == Inside(a)
    case Some(Leave(_, a, survives)) => p == Leaving(a, survives)
    case Some(Look(_, a)) => p.Releasing? && p.account == a
    case Some(Release(_, _)) => p == Outside || p == Ended
  }

  lemma {:induction false} ThreadStands(trace: seq<Action>, t: Thread)
    requires Legal(trace)
    ensures StandsAfter(PlaceOf(Run(trace), t), LastOwn(trace, t))
  {
    if trace != [] {
      ThreadStands(trace[..|trace| - 1], t);
    }
  }

  // ----- what the lock lets happen -----

  /** A waiting thread can take the lock exactly when no thread is between acquire and release. */
  lemma TakeExactly(trace: seq<Action>, t: Thread, account: string)
    requires Legal(trace) && PlaceOf(Run(trace), t).Waiting? && PlaceOf(Run(trace), t).account == account
    ensures Enabled(Run(trace), Take(t, account)) <==>
      forall u :: u in Run(trace).places ==> !Critical(PlaceOf(Run(trace), u), account)
  {
    RunKeeps(trace);
  }

  /** How many steps a thread between acquire and release has left. */
  function Left(p: Place): nat {
    if p.Inside? then 3 else if p.Leaving? then 2 else 1
  }

  function NextOut(p: Place, t: Thread): Action
    requires Busy(p)
  {
    match p
    case Inside(a) => Leave(t, a, true)
    case Leaving(a, _) => Look(t, a)
    case Releasing(a, _, _) => Release(t, a)
  }

  lemma Extends(trace: seq<Action>, x: Action)
    requires Legal(trace) && Enabled(Run(trace), x)
    ensures Legal(trace + [x]) && Run(trace + [x]) == Step(Run(trace), x) && Owners(trace + [x]) == OwnersAfter(Owners(trace), x)
  {
    assert (trace + [x])[..|trace|] == trace;
  }

  lemma NextOutStep(s: System, t: Thread, account: string)
    requires Critical(PlaceOf(s, t), account)
    ensures var (x, p) := (NextOut(PlaceOf(s, t), t), PlaceOf(s, t));
            && Enabled(s, x) && x.thread == t
            && var q := PlaceOf(Step(s, x), t);
            if p.Releasing? then x == Release(t, account) else Critical(q, account) && Left(q) == Left(p) - 1
  {
  }

  /** The owner lets the account go by at most three steps of its own, with no help of the other threads. */
  lemma {:induction false} OwnerComesOut(trace: seq<Action>, t: Thread, account: string) returns (after: seq<Action>)
    requires Legal(trace) && Critical(PlaceOf(Run(trace), t), account)
    ensures Legal(after) && trace <= after && |after| == |trace| + Left(PlaceOf(Run(trace), t))
    ensures forall k :: |trace| <= k < |after| ==> after[k].thread == t
    ensures forall u :: u in Run(after).places ==> !Critical(PlaceOf(Run(after), u), account)
    decreases Left(PlaceOf(Run(trace), t))
  {
    var p := PlaceOf(Run(trace), t);
    var x := NextOut(p, t);
    NextOutStep(Run(trace), t, account);
    Extends(trace, x);
    after := trace + [x];
    if p.Releasing? {
      RunKeeps(after);
      assert account !in Owners(after);
    } else {
      hide Legal, Run, Enabled, Step, PlaceOf;
      after := OwnerComesOut(after, t, account);
    }
  }

  // ----- sections never interleave -----

  lemma OwnersStep(trace: seq<Action>, m: nat)
    requires 0 < m <= |trace|
    ensures Owners(trace[..m]) == OwnersAfter(Owners(trace[..m - 1]), trace[m - 1])
  {
    assert trace[..m][..m - 1] == trace[..m - 1];
  }

  /** A release is made by the owner, a take when there is none. */
  lemma OwnersChange(trace: seq<Action>, x: Action)
    requires Legal(trace) && Enabled(Run(trace), x)
    ensures x.Release? ==> Owns(Owners(trace), x.thread, x.account)
    ensures x.Take? ==> x.account !in Owners(trace)
  {
    RunKeeps(trace);
  }

  lemma WorkIsOwned(trace: seq<Action>, x: Action)
    requires Legal(trace) && x.Work? && Enabled(Run(trace), x)
    ensures Owns(Owners(trace), x.thread, x.account)
  {
    RunKeeps(trace);
  }

  lemma {:induction false} LegalPrefix(trace: seq<Action>, k: nat)
    requires Legal(trace) && k <= |trace|
    ensures Legal(trace[..k])
    ensures k < |trace| ==> Enabled(Run(trace[..k]), trace[k])
    decreases |trace|
  {
    if k < |trace| {
      var before := trace[..|trace| - 1];
      if k < |before| {
        LegalPrefix(before, k);
        assert before[..k] == trace[..k];
      }
    } else {
      assert trace[..k] == trace;
    }
  }

  /** Ownership passes only by a release and a later take. */
  lemma {:induction false} OwnerChanges(trace: seq<Action>, k: nat, m: nat, t: Thread, u: Thread, account: string)
    returns (r: nat, q: nat)
    requires Legal(trace) && k <= m <= |trace| && t != u
    requires Owns(Owners(trace[..k]), t, account) && Owns(Owners(trace[..m]), u, account)
    ensures k <= r < q < m && trace[r] == Release(t, account) && trace[q] == Take(u, account)
    decreases m
  {
    hide Owners, Legal, Run, Enabled;
    OwnersStep(trace, m);
    LegalPrefix(trace, m - 1);
    OwnersChange(trace[..m - 1], trace[m - 1]);
    if Owns(Owners(trace[..m - 1]), u, account) {
      r, q := OwnerChanges(trace, k, m - 1, t, u, account);
    } else {
      q := m - 1;
      r := Freed(trace, k, m - 1, t, account);
    }
  }

  lemma {:induction false} Freed(trace: seq<Action>, k: nat, m: nat, t: Thread, account: string) returns (r: nat)
    requires Legal(trace) && k <= m <= |trace|
    requires Owns(Owners(trace[..k]), t, account) && !Owns(Owners(trace[..m]), t, account)
    ensures k <= r < m && trace[r] == Release(t, account)
    decreases m
  {
    hide Owners, Legal, Run, Enabled;
    OwnersStep(trace, m);
    if Owns(Owners(trace[..m - 1]), t, account) {
      LegalPrefix(trace, m - 1);
      OwnersChange(trace[..m - 1], trace[m - 1]);
      r := m - 1;
    } else {
      r := Freed(trace, k, m - 1, t, account);
    }
  }

  /**
   The work of two threads on one account never interleaves: between a step of one and a
   later step of the other, the first has released the account and the second taken it.
   */
  lemma SectionsDoNotInterleave(trace: seq<Action>, k: nat, m: nat) returns (r: nat, q: nat)
    requires Legal(trace) && k < m < |trace|
    requires trace[k].Work? && trace[m].Work? && trace[k].account == trace[m].account && trace[k].thread != trace[m].thread
    ensures k < r < q < m
    ensures trace[r] == Release(trace[k].thread, trace[k].account) && trace[q] == Take(trace[m].thread, trace[m].account)
  {
    LegalPrefix(trace, k);
    LegalPrefix(trace, m);
    WorkIsOwned(trace[..k], trace[k]);
    WorkIsOwned(trace[..m], trace[m]);
    r, q := OwnerChanges(trace, k, m, trace[k].thread, trace[m].thread, trace[k].account);
  }
}
