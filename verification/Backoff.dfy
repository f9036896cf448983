/**
 Per-account exponential backoff.  Clock readings and random draws are inputs; delays are
 reals.
 */
module Backoff {
  import opened RealFacts

  datatype Config = Config(baseDelay: real, factor: real, maxDelay: real, jitter: real) {
    predicate Valid() {
      baseDelay >= 0.0 && factor >= 1.0 && maxDelay >= 0.0 && 0.0 <= jitter <= 1.0
    }
  }

  datatype State = State(failures: map<string, nat>, nextAttempt: map<string, real>)

  const FRESH := State(map[], map[])

  function Power(x: real, n: nat): real {
    if n == 0 then 1.0 else x * Power(x, n - 1)
  }

  function Times(x: real, y: real): real {
    x * y
  }

  function Min(x: real, y: real): real {
    if x <= y then x else y
  }

  function Max(x: real, y: real): real {
    if x >= y then x else y
  }

  /** The delay after the n-th consecutive failure, before jitter. */
  function Nominal(cfg: Config, n: nat): real {
    Min(Times(cfg.baseDelay, Power(cfg.factor, if n == 0 then 0 else n - 1)), cfg.maxDelay)
  }

  function Spread(cfg: Config, n: nat): real {
    Times(Nominal(cfg, n), cfg.jitter)
  }

  /** The randomised delay; draw is what rand(-spread, spread) gave. */
  function Delay(cfg: Config, n: nat, draw: real): real {
    if cfg.jitter == 0.0 then Nominal(cfg, n) else Max(0.0, Nominal(cfg, n) + draw)
  }

  function Failures(s: State, account: string): nat {
    if account in s.failures then s.failures[account] else 0
  }

  function Due(s: State, account: string): real {
    if account in s.nextAttempt then s.nextAttempt[account] else 0.0
  }

  predicate ShouldAttempt(s: State, account: string, now: real) {
    now >= Due(s, account)
  }

  function Succeeded(s: State, account: string): State {
    State(s.failures - {account}, s.nextAttempt - {account})
  }

  function Failed(cfg: Config, s: State, account: string, now: real, draw: real): State {
    var n := Failures(s, account) + 1;
    State(s.failures[account := n], s.nextAttempt[account := now + Delay(cfg, n, draw)])
  }

  class ConnectionBackoff {
    const cfg: Config
    var failures: map<string, nat>
    var nextAttempt: map<string, real>

    constructor (cfg: Config)
      ensures this.cfg == cfg && Now() == FRESH
    {
      this.cfg, failures, nextAttempt := cfg, map[], map[];
    }

    function Now(): State
      reads this
    {
      State(failures, nextAttempt)
    }

    method Due(account: string, now: real) returns (due: bool)
      ensures due == ShouldAttempt(Now(), account, now)
    {
      due := now >= if account in nextAttempt then nextAttempt[account] else 0.0;
    }

    method RecordSuccess(account: string)
      modifies this
      ensures Now() == Succeeded(old(Now()), account)
    {
      failures := failures - {account};
      nextAttempt := nextAttempt - {account};
    }

    method RecordFailure(account: string, now: real, draw: real) returns (delay: real)
      modifies this
      ensures Now() == Failed(cfg, old(Now()), account, now, draw)
      ensures delay == Delay(cfg, Failures(old(Now()), account) + 1, draw)
    {
      var count := (if account in failures then failures[account] else 0) + 1;
      failures := failures[account := count];
      delay := Nominal(cfg, count);
      if cfg.jitter != 0.0 {
        delay := Max(0.0, delay + draw);
      }
      nextAttempt := nextAttempt[account := now + delay];
    }
  }

  /** The delays are min(base, max) at first, then factor times the one before, up to max again. */
  lemma DelaySchedule(cfg: Config, n: nat)
    requires cfg.factor >= 1.0 && cfg.maxDelay >= 0.0 && n >= 1
    ensures Nominal(cfg, 1) == Min(cfg.baseDelay, cfg.maxDelay)
    ensures var next := cfg.factor * Nominal(cfg, n); Nominal(cfg, n + 1) == if next <= cfg.maxDelay then next else cfg.maxDelay
    ensures Spread(cfg, n) == cfg.jitter * Nominal(cfg, n)
  {
    hide *;
    NominalIs(cfg, 1);
    NominalIs(cfg, n);
    NominalIs(cfg, n + 1);
    FirstPower(cfg.factor, cfg.baseDelay);
    NextPower(cfg.factor, n);
    CappedStep(cfg.baseDelay, cfg.factor, Power(cfg.factor, n - 1), cfg.maxDelay, Power(cfg.factor, n), Nominal(cfg, n));
    SpreadIs(cfg, n);
  }

  lemma NominalIs(cfg: Config, n: nat)
    requires n >= 1
    ensures Nominal(cfg, n) == Min(Times(cfg.baseDelay, Power(cfg.factor, n - 1)), cfg.maxDelay)
  {
    hide Power, Times, Min;
  }

  lemma NextPower(x: real, n: nat)
    requires n >= 1
    ensures Power(x, n) == x * Power(x, n - 1)
  {
  }

  lemma FirstPower(x: real, b: real)
    ensures Times(b, Power(x, 0)) == b
  {
  }

  lemma SpreadIs(cfg: Config, n: nat)
    ensures Spread(cfg, n) == cfg.jitter * Nominal(cfg, n)
  {
    hide Nominal;
  }

  lemma CappedStep(b: real, x: real, p: real, m: real, p': real, d: real)
    requires x >= 1.0 && m >= 0.0 && p' == x * p && d == Min(Times(b, p), m)
    ensures Min(Times(b, p'), m) == if x * d <= m then x * d else m
  {
    var e := b * p;
    assert b * (x * p) == x * e;
    if e > m {
      MoreThanCap(x, e, m);
    }
  }

  lemma MoreThanCap(x: real, d: real, m: real)
    requires x >= 1.0 && d > m >= 0.0
    ensures x * d >= m && x * m >= m
  {
    ScaleAtMost(1.0, x, d);
    ScaleAtMost(1.0, x, m);
  }

  // ----- runs -----

  /** Loop 0 stands for the IDLE callbacks, which do not ask the gate; other loops do. */
  datatype Event =
    | Passed(account: string, loop: nat, at: real)
    | Failure(account: string, loop: nat, at: real, draw: real)
    | Success(account: string, loop: nat, at: real)

  function Run(cfg: Config, events: seq<Event>): State {
    if events == [] then FRESH
    else
      var s := Run(cfg, events[..|events| - 1]);
      match events[|events| - 1]
      case Passed(_, _, _) => s
      case Failure(a, _, at, draw) => Failed(cfg, s, a, at, draw)
      case Success(a, _, _) => Succeeded(s, a)
  }

  /** The last thing that the loop did was to pass the gate for the account. */
  predicate Inside(events: seq<Event>, account: string, loop: nat) {
    events != [] &&
    var e := events[|events| - 1];
    if e.loop == loop then e.Passed? && e.account == account else Inside(events[..|events| - 1], account, loop)
  }

  predicate Clocked(events: seq<Event>, start: real) {
    forall i, j :: 0 <= i <= j < |events| ==> start <= events[i].at <= events[j].at
  }

  /** Event e may follow: draws are within the spread, and a loop works on an account only after passing its gate. */
  predicate Follows(cfg: Config, before: seq<Event>, e: Event) {
    match e
    case Passed(a, _, at) => ShouldAttempt(Run(cfg, before), a, at)
    case Failure(a, loop, _, draw) =>
      var spread := Spread(cfg, Failures(Run(cfg, before), a) + 1);
      -spread <= draw <= spread && (loop == 0 || Inside(before, a, loop))
    case Success(a, loop, _) => loop == 0 || Inside(before, a, loop)
  }

  predicate Legal(cfg: Config, events: seq<Event>) {
    events == [] || (Legal(cfg, events[..|events| - 1]) && Follows(cfg, events[..|events| - 1], events[|events| - 1]))
  }

  // ----- the counter is the current streak of failures -----

  /** Failures of the account since its last success. */
  function Streak(events: seq<Event>, account: string): nat {
    if events == [] then 0
    else
      var e := events[|events| - 1];
      var before := events[..|events| - 1];
      if e.account != account || e.Passed? then Streak(before, account)
      else if e.Success? then 0 else Streak(before, account) + 1
  }

  function Latest(events: seq<Event>, account: string): real
    requires Streak(events, account) > 0
  {
    var e := events[|events| - 1];
    if e.account == account && e.Failure? then e.at else Latest(events[..|events| - 1], account)
  }

  /** (1 - jitter) * delay and (1 + jitter) * delay after n failures. */
  function Shortest(cfg: Config, n: nat): real {
    Nominal(cfg, n) - Spread(cfg, n)
  }

  function Longest(cfg: Config, n: nat): real {
    Nominal(cfg, n) + Spread(cfg, n)
  }

  lemma NominalFacts(cfg: Config, n: nat)
    requires cfg.Valid()
    ensures 0.0 <= Nominal(cfg, n) <= cfg.maxDelay && 0.0 <= Spread(cfg, n) <= Nominal(cfg, n)
    ensures cfg.jitter == 0.0 ==> Spread(cfg, n) == 0.0
  {
    PowerAtLeastOne(cfg.factor, if n == 0 then 0 else n - 1);
    hide Times;
    TimesSigned(cfg.baseDelay, Power(cfg.factor, if n == 0 then 0 else n - 1));
    TimesSigned(Nominal(cfg, n), cfg.jitter);
  }

  lemma TimesSigned(x: real, y: real)
    requires x >= 0.0 && y >= 0.0
    ensures Times(x, y) >= 0.0
    ensures y <= 1.0 ==> Times(x, y) <= x
    ensures y == 0.0 ==> Times(x, y) == 0.0
  {
    ProductNonNegative(x, y);
    if y <= 1.0 {
      ScaleAtMost(y, 1.0, x);
    }
  }

  lemma TimesGrows(x: real, y: real, z: real)
    requires x >= 0.0 && y <= z
    ensures Times(x, y) <= Times(x, z)
  {
    ScaleAtMost(y, z, x);
  }

  lemma {:induction false} PowerAtLeastOne(x: real, n: nat)
    requires x >= 1.0
    ensures Power(x, n) >= 1.0
    ensures n > 0 ==> Power(x, n) >= Power(x, n - 1)
  {
    if n > 0 {
      PowerAtLeastOne(x, n - 1);
      ScaleAtMost(1.0, x, Power(x, n - 1));
    }
  }

  /**
   The gate is open exactly from the due time on.  With n failures since the last success,
   the due time lies between (1 - jitter) and (1 + jitter) times the n-th delay after the
   latest failure; without any, it is 0.
   */
  lemma {:induction false} DueBounds(cfg: Config, events: seq<Event>, account: string)
    requires cfg.Valid() && Legal(cfg, events)
    ensures var s := Run(cfg, events);
            var n := Streak(events, account);
            && Failures(s, account) == n
            && (n == 0 ==> Due(s, account) == 0.0)
            && (n > 0 ==> Latest(events, account) + Shortest(cfg, n) <= Due(s, account) <= Latest(events, account) + Longest(cfg, n))
  {
    if events != [] {
      DueBounds(cfg, events[..|events| - 1], account);
      hide Nominal, Spread;
      NominalFacts(cfg, Streak(events, account));
    }
  }

  /** What rand gave at the latest failure. */
  function LatestDraw(events: seq<Event>, account: string): real
    requires Streak(events, account) > 0
  {
    var e := events[|events| - 1];
    if e.account == account && e.Failure? then e.draw else LatestDraw(events[..|events| - 1], account)
  }

  /** The gate: open from 0 on without a failure, else from the latest failure, its delay and its draw on. */
  lemma {:induction false} GateExactly(cfg: Config, events: seq<Event>, account: string, now: real)
    requires cfg.Valid() && Legal(cfg, events)
    ensures var n := Streak(events, account);
            ShouldAttempt(Run(cfg, events), account, now) <==>
            if n == 0 then now >= 0.0
            else now >= Latest(events, account) + Nominal(cfg, n) + LatestDraw(events, account)
  {
    if events != [] {
      var before := events[..|events| - 1];
      GateExactly(cfg, before, account, now);
      DueBounds(cfg, before, account);
      hide Nominal, Spread;
      NominalFacts(cfg, Streak(events, account));
    }
  }

  /** A longer streak never shortens the delay. */
  lemma {:induction false} ShortestGrows(cfg: Config, m: nat, n: nat)
    requires cfg.Valid() && 1 <= m <= n
    ensures Shortest(cfg, m) <= Shortest(cfg, n)
    decreases n - m
  {
    if m < n {
      ShortestGrows(cfg, m + 1, n);
      PowerAtLeastOne(cfg.factor, m);
      hide Times, Power;
      TimesGrows(cfg.baseDelay, Power(cfg.factor, m - 1), Power(cfg.factor, m));
      NominalScaled(cfg, Nominal(cfg, m), Nominal(cfg, m + 1));
    }
  }

  lemma NominalScaled(cfg: Config, d: real, e: real)
    requires cfg.Valid() && d <= e
    ensures d - Times(d, cfg.jitter) <= e - Times(e, cfg.jitter)
  {
    ShareAtMost(d, e, cfg.jitter);
  }

  lemma ShareAtMost(d: real, e: real, j: real)
    requires d <= e && j <= 1.0
    ensures d - d * j <= e - e * j
  {
    var gap := e - d;
    ProductNonNegative(gap, 1.0 - j);
    assert gap * (1.0 - j) == gap - gap * j;
    assert gap * j == e * j - d * j;
  }

  // ----- one scheduler loop over an outage -----

  /** How many attempts of the loop on the account have failed. */
  function Own(events: seq<Event>, account: string, loop: nat): nat {
    if events == [] then 0
    else
      var e := events[|events| - 1];
      Own(events[..|events| - 1], account, loop) + if e.Failure? && e.account == account && e.loop == loop then 1 else 0
  }

  predicate NoSuccess(events: seq<Event>, account: string) {
    forall k :: 0 <= k < |events| ==> !(events[k].Success? && events[k].account == account)
  }

  /** The least time that n failing attempts keep a loop waiting. */
  function Waits(cfg: Config, n: nat): real {
    if n == 0 then 0.0 else Waits(cfg, n - 1) + Shortest(cfg, n)
  }

  /** Without successes every own failure is part of the streak, and the latest failure is not before the latest own one. */
  lemma {:induction false} OwnInStreak(events: seq<Event>, account: string, loop: nat)
    requires NoSuccess(events, account)
    ensures Own(events, account, loop) <= Streak(events, account)
  {
    if events != [] {
      OwnInStreak(events[..|events| - 1], account, loop);
    }
  }

  lemma {:induction false} LatestIsRecent(events: seq<Event>, account: string, loop: nat, start: real)
    requires Clocked(events, start) && NoSuccess(events, account) && Own(events, account, loop) > 0
    ensures Streak(events, account) > 0
    ensures LastOwn(events, account, loop) <= Latest(events, account) <= events[|events| - 1].at
  {
    var e := events[|events| - 1];
    var before := events[..|events| - 1];
    if !(e.Failure? && e.account == account && e.loop == loop) {
      LatestIsRecent(before, account, loop, start);
    }
  }

  /** When the loop last failed on the account. */
  function LastOwn(events: seq<Event>, account: string, loop: nat): real
    requires Own(events, account, loop) > 0
  {
    var e := events[|events| - 1];
    if e.Failure? && e.account == account && e.loop == loop then e.at else LastOwn(events[..|events| - 1], account, loop)
  }

  /** When the loop that is inside passed the gate. */
  function LastPassed(events: seq<Event>, account: string, loop: nat): real
    requires Inside(events, account, loop)
  {
    var e := events[|events| - 1];
    if e.loop == loop then e.at else LastPassed(events[..|events| - 1], account, loop)
  }

  /**
   During an outage of an account, the n-th failing attempt of a scheduler loop comes at
   least the first n - 1 shortest delays after the start, whatever the other loops and the
   IDLE callbacks do to the same account meanwhile.
   */
  lemma {:induction false} LoopIsSlow(cfg: Config, events: seq<Event>, account: string, loop: nat, start: real)
    requires cfg.Valid() && Legal(cfg, events) && Clocked(events, start) && NoSuccess(events, account) && loop != 0
    ensures Own(events, account, loop) > 0 ==> LastOwn(events, account, loop) >= start + Waits(cfg, Own(events, account, loop) - 1)
    ensures Inside(events, account, loop) && Own(events, account, loop) > 0 ==>
      LastPassed(events, account, loop) >= start + Waits(cfg, Own(events, account, loop))
  {
    if events != [] {
      var before := events[..|events| - 1];
      var e := events[|events| - 1];
      LoopIsSlow(cfg, before, account, loop, start);
      var n := Own(before, account, loop);
      hide Run, Shortest, Streak, Latest;
      if n > 0 {
        LatestIsRecent(before, account, loop, start);
        OwnInStreak(before, account, loop);
        DueBounds(cfg, before, account);
        ShortestGrows(cfg, n, Streak(before, account));
      }
      InsideMeans(before, account, loop, start);
    }
  }

  lemma {:induction false} InsideMeans(events: seq<Event>, account: string, loop: nat, start: real)
    requires Clocked(events, start)
    ensures Inside(events, account, loop) ==> start <= LastPassed(events, account, loop) <= events[|events| - 1].at
  {
    if events != [] {
      InsideMeans(events[..|events| - 1], account, loop, start);
    }
  }

  // ----- accounts are independent -----

  function Only(events: seq<Event>, account: string): seq<Event> {
    if events == [] then []
    else Only(events[..|events| - 1], account) + if events[|events| - 1].account == account then [events[|events| - 1]] else []
  }

  /** The counter and the due time of an account are those of a run with its own events alone. */
  lemma {:induction false} AccountsIndependent(cfg: Config, events: seq<Event>, account: string)
    ensures var (s, t) := (Run(cfg, events), Run(cfg, Only(events, account)));
            && (account in s.failures <==> account in t.failures)
            && Failures(s, account) == Failures(t, account)
            && (account in s.nextAttempt <==> account in t.nextAttempt)
            && Due(s, account) == Due(t, account)
  {
    if events != [] {
      var before := events[..|events| - 1];
      var e := events[|events| - 1];
      AccountsIndependent(cfg, before, account);
      if e.account == account {
        assert Only(events, account)[..|Only(events, account)| - 1] == Only(before, account);
      } else {
        assert Only(events, account) == Only(before, account);
      }
    }
  }
}
