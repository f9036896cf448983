/**
 What a synchronisation or a deletion guarantees when any of its requests may be lost
 before or after its effect.
 */
module MigaduSafety {
  import opened Options
  import opened Migadu

  /** A lost request never reads as one of the given codes. */
  predicate NeverReads(script: seq<Fault>, codes: set<nat>) {
    forall f :: f in script && (f.LostBefore? || f.LostAfter?) ==> f.code !in codes
  }

  predicate Holds(boxes: map<Address, string>, a: Address, password: string) {
    a in boxes && boxes[a] == password
  }

  /** At most mailbox a differs. */
  ghost predicate OnlyBox(b: map<Address, string>, c: map<Address, string>, a: Address) {
    forall o :: o != a ==> (o in b <==> o in c) && (o in b && o in c ==> b[o] == c[o])
  }

  // ----- one retried request -----

  function Worst(attempt: nat): nat {
    if attempt <= 2 then 3 else if attempt == 3 then 2 else 0
  }

  lemma {:induction false} RetryBounds(api: Api, st: State, r: Request, success: set<nat>, attempt: nat)
    requires 1 <= attempt <= MAX_ATTEMPTS + 1
    ensures |Retry(api, st, r, success, attempt).0.log| <= |st.log| + MAX_ATTEMPTS + 1 - attempt
    ensures Retry(api, st, r, success, attempt).0.slept <= st.slept + Worst(attempt)
    decreases MAX_ATTEMPTS + 1 - attempt
  {
    hide Retry;
    RetryStep(api, st, r, success, attempt);
    if attempt <= MAX_ATTEMPTS {
      var (next, answer) := Send(api, Pause(st, attempt), r);
      if !(answer.Thrown? || answer.code in success) {
        RetryBounds(api, next, r, success, attempt + 1);
      }
    }
  }

  /** Repeating a request has no further effect. */
  lemma EffectTwice(api: Api, boxes: map<Address, string>, r: Request)
    ensures Effect(api, Effect(api, boxes, r).0, r).0 == Effect(api, boxes, r).0
  {
    if r.Delete? {
      assert boxes - {r.to} - {r.to} == boxes - {r.to};
    }
  }

  ghost predicate Repeats(log: seq<Request>, after: seq<Request>, r: Request) {
    && |log| <= |after|
    && after[..|log|] == log
    && forall k :: |log| <= k < |after| ==> after[k] == r
  }

  /** The mailboxes have had the request's effect or not, whatever was lost, and only this request was sent. */
  lemma {:induction false} RetryReaches(api: Api, st: State, r: Request, success: set<nat>, attempt: nat)
    ensures var after := Retry(api, st, r, success, attempt).0;
            && (after.boxes == st.boxes || after.boxes == Effect(api, st.boxes, r).0)
            && Repeats(st.log, after.log, r)
    decreases MAX_ATTEMPTS + 1 - attempt
  {
    hide Retry;
    RetryStep(api, st, r, success, attempt);
    if attempt <= MAX_ATTEMPTS {
      EffectTwice(api, st.boxes, r);
      var (next, answer) := Send(api, Pause(st, attempt), r);
      if !(answer.Thrown? || answer.code in success) {
        RetryReaches(api, next, r, success, attempt + 1);
      }
    }
  }

  lemma {:induction false} RetryScript(api: Api, st: State, r: Request, success: set<nat>, attempt: nat, codes: set<nat>)
    requires NeverReads(st.script, codes)
    ensures NeverReads(Retry(api, st, r, success, attempt).0.script, codes)
    decreases MAX_ATTEMPTS + 1 - attempt
  {
    hide Retry;
    RetryStep(api, st, r, success, attempt);
    if attempt <= MAX_ATTEMPTS {
      var (next, answer) := Send(api, Pause(st, attempt), r);
      if !(answer.Thrown? || answer.code in success) {
        RetryScript(api, next, r, success, attempt + 1, codes);
      }
    }
  }

  /** A successful answer was given by the API to this request, and the mailboxes are as it left them. */
  lemma {:induction false} RetryTells(api: Api, st: State, r: Request, success: set<nat>, attempt: nat)
    returns (served: map<Address, string>)
    requires NeverReads(st.script, success)
    ensures var (after, answer) := Retry(api, st, r, success, attempt);
            answer.Code? ==>
            && answer.code in success
            && (served == st.boxes || served == Effect(api, st.boxes, r).0)
            && Effect(api, served, r) == (after.boxes, answer.code)
    decreases MAX_ATTEMPTS + 1 - attempt
  {
    hide Retry;
    RetryStep(api, st, r, success, attempt);
    served := st.boxes;
    if attempt <= MAX_ATTEMPTS {
      EffectTwice(api, st.boxes, r);
      var (next, answer) := Send(api, Pause(st, attempt), r);
      assert st.script != [] ==> st.script[0] in st.script;
      if !(answer.Thrown? || answer.code in success) {
        served := RetryTells(api, next, r, success, attempt + 1);
      }
    }
  }

  // ----- synchronisation -----

  /**
   One synchronisation under any faults: it sends at most six requests and sleeps at most
   six seconds, changes no other mailbox, and leaves this one as it was or with the new password.
   */
  lemma SyncKeeps(acc: Account, st: State, a: Address, password: string, encodable: bool)
    requires acc.api.Valid()
    ensures var (after, outcome) := Sync(acc, st, a, password, encodable);
            && |after.log| <= |st.log| + 6
            && after.slept <= st.slept + 6
            && OnlyBox(st.boxes, after.boxes, a)
            && (after.boxes == st.boxes || Holds(after.boxes, a, password))
            && (outcome.Done? && NeverReads(st.script, {200}) ==> Holds(after.boxes, a, password))
  {
    hide Retry;
    RetryBounds(acc.api, st, Get(a), {200, 404}, 1);
    RetryReaches(acc.api, st, Get(a), {200, 404}, 1);
    var (found, lookup) := Requested(acc.api, st, Get(a), {200, 404});
    if acc.credentials && !lookup.Thrown? && encodable {
      var r := if lookup.code == 404 then Post(a, password) else Put(a, password);
      RetryBounds(acc.api, found, r, {200}, 1);
      RetryReaches(acc.api, found, r, {200}, 1);
      if NeverReads(st.script, {200}) {
        RetryScript(acc.api, st, Get(a), {200, 404}, 1, {200});
        var served := RetryTells(acc.api, found, r, {200}, 1);
      }
    }
  }

  /** Some of the next n requests is served, and none before it lacks a handle. */
  predicate Answered(script: seq<Fault>, n: nat) {
    n > 0 && (script == [] || script[0].Served? || (!script[0].NoHandle? && Answered(script[1..], n - 1)))
  }

  /** Some of the next n requests is served, and all before it are lost before their effect. */
  predicate Created(script: seq<Fault>, n: nat) {
    n > 0 && (script == [] || script[0].Served? || (script[0].LostBefore? && Created(script[1..], n - 1)))
  }

  /** What is left of the script once some of n requests has been served. */
  function AfterAnswer(script: seq<Fault>, n: nat): seq<Fault> {
    if n == 0 || script == [] then script
    else if script[0].Served? then script[1..]
    else AfterAnswer(script[1..], n - 1)
  }

  lemma {:induction false} LookupExactly(api: Api, st: State, a: Address, attempt: nat)
    requires NeverReads(st.script, {200, 404}) && 1 <= attempt <= MAX_ATTEMPTS + 1
    ensures var (after, answer) := Retry(api, st, Get(a), {200, 404}, attempt);
            var n := MAX_ATTEMPTS + 1 - attempt;
            && (answer.Code? <==> Answered(st.script, n))
            && (answer.Code? ==> after.script == AfterAnswer(st.script, n) && (answer.code == 200 <==> a in st.boxes))
    decreases MAX_ATTEMPTS + 1 - attempt
  {
    hide Retry;
    RetryStep(api, st, Get(a), {200, 404}, attempt);
    if attempt <= MAX_ATTEMPTS {
      var (next, answer) := Send(api, Pause(st, attempt), Get(a));
      assert st.script != [] ==> st.script[0] in st.script;
      if !(answer.Thrown? || answer.code in {200, 404}) {
        LookupExactly(api, next, a, attempt + 1);
      }
    }
  }

  lemma {:induction false} UpdateExactly(api: Api, st: State, a: Address, password: string, attempt: nat)
    requires NeverReads(st.script, {200, 404}) && a in st.boxes && 1 <= attempt <= MAX_ATTEMPTS + 1
    ensures Retry(api, st, Put(a, password), {200}, attempt).1.Code? <==> Answered(st.script, MAX_ATTEMPTS + 1 - attempt)
    decreases MAX_ATTEMPTS + 1 - attempt
  {
    hide Retry;
    RetryStep(api, st, Put(a, password), {200}, attempt);
    if attempt <= MAX_ATTEMPTS {
      var (next, answer) := Send(api, Pause(st, attempt), Put(a, password));
      assert st.script != [] ==> st.script[0] in st.script;
      if !(answer.Thrown? || answer.code in {200}) {
        UpdateExactly(api, next, a, password, attempt + 1);
      }
    }
  }

  lemma {:induction false} CreateRefused(api: Api, st: State, a: Address, password: string, attempt: nat)
    requires api.Valid() && NeverReads(st.script, {200, 404}) && a in st.boxes
    ensures Retry(api, st, Post(a, password), {200}, attempt).1.Thrown?
    decreases MAX_ATTEMPTS + 1 - attempt
  {
    hide Retry;
    RetryStep(api, st, Post(a, password), {200}, attempt);
    if attempt <= MAX_ATTEMPTS {
      var (next, answer) := Send(api, Pause(st, attempt), Post(a, password));
      assert st.script != [] ==> st.script[0] in st.script;
      if !(answer.Thrown? || answer.code in {200}) {
        CreateRefused(api, next, a, password, attempt + 1);
      }
    }
  }

  lemma {:induction false} CreateExactly(api: Api, st: State, a: Address, password: string, attempt: nat)
    requires api.Valid() && NeverReads(st.script, {200, 404}) && a !in st.boxes && 1 <= attempt <= MAX_ATTEMPTS + 1
    ensures Retry(api, st, Post(a, password), {200}, attempt).1.Code? <==> Created(st.script, MAX_ATTEMPTS + 1 - attempt)
    decreases MAX_ATTEMPTS + 1 - attempt
  {
    hide Retry;
    RetryStep(api, st, Post(a, password), {200}, attempt);
    if attempt <= MAX_ATTEMPTS {
      var (next, answer) := Send(api, Pause(st, attempt), Post(a, password));
      assert st.script != [] ==> st.script[0] in st.script;
      if !(answer.Thrown? || answer.code in {200}) {
        if a in next.boxes {
          CreateRefused(api, next, a, password, attempt + 1);
        } else {
          CreateExactly(api, next, a, password, attempt + 1);
        }
      }
    }
  }

  /**
   Exactly when a synchronisation succeeds.  The lookup and an update each survive two lost
   requests of any kind; a creation survives only requests lost before their effect, because
   the API refuses to create the mailbox a second time.
   */
  lemma SyncExactly(acc: Account, st: State, a: Address, password: string, encodable: bool)
    requires acc.api.Valid() && NeverReads(st.script, {200, 404})
    ensures Sync(acc, st, a, password, encodable).1.Done? <==>
      && acc.credentials
      && encodable
      && Answered(st.script, 3)
      && var rest := AfterAnswer(st.script, 3); if a in st.boxes then Answered(rest, 3) else Created(rest, 3)
  {
    hide Retry, Answered, Created, AfterAnswer;
    LookupExactly(acc.api, st, a, 1);
    RetryScript(acc.api, st, Get(a), {200, 404}, 1, {200, 404});
    RetryReaches(acc.api, st, Get(a), {200, 404}, 1);
    var (found, lookup) := Requested(acc.api, st, Get(a), {200, 404});
    if lookup.Code? {
      var served := RetryTells(acc.api, st, Get(a), {200, 404}, 1);
      if a in st.boxes {
        UpdateExactly(acc.api, found, a, password, 1);
      } else {
        CreateExactly(acc.api, found, a, password, 1);
      }
    }
  }

  /** With credentials and no faults, one call converges from any state, with two requests and no sleep. */
  lemma SyncConverges(acc: Account, st: State, a: Address, password: string)
    requires acc.api.Valid() && acc.credentials && st.script == []
    ensures var (after, outcome) := Sync(acc, st, a, password, true);
            && outcome.Done?
            && Holds(after.boxes, a, password)
            && after.log == st.log + [Get(a), if a in st.boxes then Put(a, password) else Post(a, password)]
            && after.slept == st.slept
  {
    hide Retry;
    RetryStep(acc.api, st, Get(a), {200, 404}, 1);
    var (found, lookup) := Requested(acc.api, st, Get(a), {200, 404});
    var r := if lookup.code == 404 then Post(a, password) else Put(a, password);
    RetryStep(acc.api, found, r, {200}, 1);
  }

  // ----- exactly when a password arrives and a mailbox goes -----

  /** Some of the next n requests reaches the API before one is taken for a success or lacks a handle. */
  predicate Reached(script: seq<Fault>, n: nat, success: set<nat>) {
    n > 0 &&
    (script == []
     || script[0].Served? || script[0].LostAfter?
     || (script[0].LostBefore? && script[0].code !in success && Reached(script[1..], n - 1, success)))
  }

  /** The answer to the lookup, if there is one, and what is left of the script; present says whether the mailbox exists. */
  function Looked(script: seq<Fault>, n: nat, present: bool): Option<(nat, seq<Fault>)> {
    if n == 0 then None
    else if script == [] then Some((if present then 200 else 404, []))
    else
      match script[0]
      case Served => Some((if present then 200 else 404, script[1..]))
      case NoHandle => None
      case LostBefore(c) => if c == 200 || c == 404 then Some((c, script[1..])) else Looked(script[1..], n - 1, present)
      case LostAfter(c) => if c == 200 || c == 404 then Some((c, script[1..])) else Looked(script[1..], n - 1, present)
  }

  lemma {:induction false} GetLooks(api: Api, st: State, a: Address, attempt: nat)
    requires 1 <= attempt <= 4
    ensures var (after, answer) := Retry(api, st, Get(a), {200, 404}, attempt);
            var l := Looked(st.script, 4 - attempt, a in st.boxes);
            && after.boxes == st.boxes
            && (answer.Code? <==> l.Some?)
            && (l.Some? ==> answer.code == l.value.0 && after.script == l.value.1)
    decreases 4 - attempt
  {
    hide Retry;
    RetryStep(api, st, Get(a), {200, 404}, attempt);
    if attempt <= 3 {
      var (next, answer) := Send(api, Pause(st, attempt), Get(a));
      if !(answer.Thrown? || answer.code in {200, 404}) {
        GetLooks(api, next, a, attempt + 1);
      }
    }
  }

  /** A retried request has its effect exactly when it is reached. */
  lemma {:induction false} RetryTakes(api: Api, st: State, r: Request, success: set<nat>, attempt: nat)
    requires 1 <= attempt <= 4
    ensures Retry(api, st, r, success, attempt).0.boxes ==
      if Reached(st.script, 4 - attempt, success) then Effect(api, st.boxes, r).0 else st.boxes
    decreases 4 - attempt
  {
    hide Retry;
    RetryStep(api, st, r, success, attempt);
    if attempt <= 3 {
      EffectTwice(api, st.boxes, r);
      var (next, answer) := Send(api, Pause(st, attempt), r);
      if !(answer.Thrown? || answer.code in success) {
        RetryTakes(api, next, r, success, attempt + 1);
      }
    }
  }

  /** The lookup is answered truthfully and the write that follows is reached. */
  predicate Arrives(script: seq<Fault>, present: bool) {
    var l := Looked(script, 3, present);
    l.Some? && (l.value.0 == 200 <==> present) && Reached(l.value.1, 3, {200})
  }

  /**
   Exactly when the mailbox holds the password after a synchronisation, under any faults and
   whatever it returns: it held it before, or the write arrives.
   */
  lemma SyncHolds(acc: Account, st: State, a: Address, password: string, encodable: bool)
    ensures Holds(Sync(acc, st, a, password, encodable).0.boxes, a, password) <==>
      Holds(st.boxes, a, password) || (acc.credentials && encodable && Arrives(st.script, a in st.boxes))
  {
    hide Retry, Reached, Looked;
    GetLooks(acc.api, st, a, 1);
    LookedCodes(st.script, 3, a in st.boxes);
    var found := Requested(acc.api, st, Get(a), {200, 404}).0;
    RetryTakes(acc.api, found, Post(a, password), {200}, 1);
    RetryTakes(acc.api, found, Put(a, password), {200}, 1);
  }

  lemma {:induction false} LookedCodes(script: seq<Fault>, n: nat, present: bool)
    ensures var l := Looked(script, n, present); l.Some? ==> l.value.0 == 200 || l.value.0 == 404
  {
    if n > 0 && script != [] {
      LookedCodes(script[1..], n - 1, present);
    }
  }

  /** Exactly when a mailbox is gone after a deletion, under any faults and whatever it returns. */
  lemma RemoveGone(acc: Account, st: State, a: Address)
    ensures a !in Remove(acc, st, a).0.boxes <==>
      a !in st.boxes || (acc.deletions && acc.credentials && Reached(st.script, 3, {200, 204, 404, 500}))
  {
    hide Retry, Reached;
    RetryTakes(acc.api, st, Delete(a), DELETE_SUCCESS_CODES, 1);
  }

  // ----- sleeping -----

  predicate AllHandled(script: seq<Fault>) {
    forall k :: 0 <= k < |script| ==> !script[k].NoHandle?
  }

  /** Before the second attempt one second passes, before the third two more. */
  lemma {:induction false} SleepsExactly(api: Api, st: State, r: Request, success: set<nat>, attempt: nat)
    requires 1 <= attempt <= 3 && AllHandled(st.script)
    ensures var after := Retry(api, st, r, success, attempt).0;
            var last := attempt + |after.log| - |st.log| - 1;
            && attempt <= last <= 3
            && after.slept - st.slept ==
               (if attempt <= 2 <= last then 1 else 0) + (if attempt <= 3 <= last then 2 else 0)
    decreases 3 - attempt
  {
    hide Retry;
    RetryStep(api, st, r, success, attempt);
    var (next, answer) := Send(api, Pause(st, attempt), r);
    if !(answer.Thrown? || answer.code in success) {
      if attempt < 3 {
        SleepsExactly(api, next, r, success, attempt + 1);
      } else {
        RetryStep(api, next, r, success, attempt + 1);
      }
    }
  }

  // ----- runs of password changes -----

  datatype Change = Change(password: string, encodable: bool)

  function RunSyncs(acc: Account, st: State, a: Address, changes: seq<Change>): State {
    if changes == [] then st
    else
      var c := changes[|changes| - 1];
      Sync(acc, RunSyncs(acc, st, a, changes[..|changes| - 1]), a, c.password, c.encodable).0
  }

  function LastOutcome(acc: Account, st: State, a: Address, changes: seq<Change>): Outcome
    requires changes != []
  {
    var c := changes[|changes| - 1];
    Sync(acc, RunSyncs(acc, st, a, changes[..|changes| - 1]), a, c.password, c.encodable).1
  }

  /** The passwords that the mailbox may hold: those not older than the last successful change. */
  function Candidates(acc: Account, st: State, a: Address, changes: seq<Change>): set<string> {
    if changes == [] then (if a in st.boxes then {st.boxes[a]} else {})
    else
      var c := changes[|changes| - 1];
      if LastOutcome(acc, st, a, changes).Done? then {c.password}
      else Candidates(acc, st, a, changes[..|changes| - 1]) + {c.password}
  }

  lemma {:induction false} RunScript(acc: Account, st: State, a: Address, changes: seq<Change>)
    requires NeverReads(st.script, {200})
    ensures NeverReads(RunSyncs(acc, st, a, changes).script, {200})
  {
    if changes != [] {
      RunScript(acc, st, a, changes[..|changes| - 1]);
      var c := changes[|changes| - 1];
      var before := RunSyncs(acc, st, a, changes[..|changes| - 1]);
      hide Retry;
      RetryScript(acc.api, before, Get(a), {200, 404}, 1, {200});
      var (found, lookup) := Requested(acc.api, before, Get(a), {200, 404});
      RetryScript(acc.api, found, Post(a, c.password), {200}, 1, {200});
      RetryScript(acc.api, found, Put(a, c.password), {200}, 1, {200});
    }
  }

  /** After any run under faults, the mailbox never holds a password older than the last successful change. */
  lemma {:induction false} RunKeeps(acc: Account, st: State, a: Address, changes: seq<Change>)
    requires acc.api.Valid() && NeverReads(st.script, {200})
    ensures var boxes := RunSyncs(acc, st, a, changes).boxes;
            && (a in boxes ==> boxes[a] in Candidates(acc, st, a, changes))
            && (a in st.boxes || (changes != [] && LastOutcome(acc, st, a, changes).Done?) ==> a in boxes)
            && OnlyBox(st.boxes, boxes, a)
  {
    if changes != [] {
      var before := changes[..|changes| - 1];
      var c := changes[|changes| - 1];
      RunKeeps(acc, st, a, before);
      RunScript(acc, st, a, before);
      hide Sync;
      SyncKeeps(acc, RunSyncs(acc, st, a, before), a, c.password, c.encodable);
    }
  }

  // ----- deletion -----

  /** The first answer that counts as success belongs to a request lost before its effect, as did all before it. */
  predicate FalselyConfirmed(script: seq<Fault>, n: nat) {
    n > 0 && script != [] && script[0].LostBefore?
    && (script[0].code in DELETE_SUCCESS_CODES || FalselyConfirmed(script[1..], n - 1))
  }

  lemma {:induction false} DeleteRetries(api: Api, st: State, a: Address, attempt: nat)
    requires api.Valid() && 1 <= attempt <= MAX_ATTEMPTS + 1
    ensures var (after, answer) := Retry(api, st, Delete(a), DELETE_SUCCESS_CODES, attempt);
            answer.Code? && a in after.boxes <==> a in st.boxes && FalselyConfirmed(st.script, MAX_ATTEMPTS + 1 - attempt)
    decreases MAX_ATTEMPTS + 1 - attempt
  {
    hide Retry;
    RetryStep(api, st, Delete(a), DELETE_SUCCESS_CODES, attempt);
    if attempt <= MAX_ATTEMPTS {
      var (next, answer) := Send(api, Pause(st, attempt), Delete(a));
      if !(answer.Thrown? || answer.code in DELETE_SUCCESS_CODES) {
        DeleteRetries(api, next, a, attempt + 1);
      }
    }
  }

  /**
   A deletion that returns normally leaves the mailbox in place exactly when deletions are
   switched off, or when a request lost before its effect read as one of the accepted codes
   (500 is one of them).  It never changes another mailbox.
   */
  lemma RemoveExactly(acc: Account, st: State, a: Address)
    requires acc.api.Valid()
    ensures var (after, outcome) := Remove(acc, st, a);
            && (outcome.Done? && a in after.boxes <==>
                a in st.boxes && (!acc.deletions || (acc.credentials && FalselyConfirmed(st.script, MAX_ATTEMPTS))))
            && OnlyBox(st.boxes, after.boxes, a)
            && |after.log| <= |st.log| + 3
            && after.slept <= st.slept + 3
  {
    hide Retry, FalselyConfirmed;
    DeleteRetries(acc.api, st, a, 1);
    RetryBounds(acc.api, st, Delete(a), DELETE_SUCCESS_CODES, 1);
    RetryReaches(acc.api, st, Delete(a), DELETE_SUCCESS_CODES, 1);
  }

  /** An outage answered with 500 is taken for a deletion: the mailbox is still there. */
  lemma OutageReadsAsDeleted(acc: Account, st: State, a: Address)
    requires acc.api.Valid() && acc.credentials && acc.deletions && a in st.boxes
    requires st.script != [] && st.script[0] == LostBefore(500)
    ensures var (after, outcome) := Remove(acc, st, a);
            outcome.Done? && after.boxes == st.boxes
  {
    hide Retry;
    RetryStep(acc.api, st, Delete(a), DELETE_SUCCESS_CODES, 1);
  }
}
