/**
 The mailbox provider: create-or-update and delete over an API whose answers may be lost.
 Each request consumes one entry of a script of faults; an exhausted script means that
 every further request is served.
 */
module Migadu {

  datatype Address = Address(local: string, domain: string)

  datatype Request = Get(to: Address) | Post(to: Address, password: string) | Put(to: Address, password: string) | Delete(to: Address)

  /**
   What befalls one request: it is served; it is lost before or after its effect, and the
   caller reads some code (0 for a transport error); or no handle can be had for it.
   */
  datatype Fault = Served | LostBefore(code: nat) | LostAfter(code: nat) | NoHandle

  /** The codes that the API leaves open: for a refused request, and for a completed deletion. */
  datatype Api = Api(refusal: nat, deleted: nat) {
    predicate Valid() {
      refusal !in {200, 204, 404, 500} && deleted in DELETE_SUCCESS_CODES
    }
  }

  datatype State = State(boxes: map<Address, string>, script: seq<Fault>, log: seq<Request>, slept: nat)

  datatype Answer = Code(code: nat) | Thrown

  datatype Outcome = Done | Failed

  datatype Account = Account(api: Api, credentials: bool, deletions: bool)

  const MAX_ATTEMPTS := 3
  const BACKOFF_SECONDS: seq<nat> := [1, 2]
  const DELETE_SUCCESS_CODES: set<nat> := {200, 204, 404, 500}

  // ----- the remote side -----

  function Effect(api: Api, boxes: map<Address, string>, r: Request): (map<Address, string>, nat) {
    match r
    case Get(a) => (boxes, if a in boxes then 200 else 404)
    case Post(a, pw) => if a in boxes then (boxes, api.refusal) else (boxes[a := pw], 200)
    case Put(a, pw) => if a in boxes then (boxes[a := pw], 200) else (boxes, 404)
    case Delete(a) => if a in boxes then (boxes - {a}, api.deleted) else (boxes, 404)
  }

  function Next(st: State): Fault {
    if st.script == [] then Served else st.script[0]
  }

  /** One request: its effect, if any, and what the caller reads. */
  function Send(api: Api, st: State, r: Request): (State, Answer) {
    var fault := Next(st);
    var rest := if st.script == [] then [] else st.script[1..];
    if fault.NoHandle? then (st.(script := rest), Thrown)
    else
      var (boxes, code) := if fault.LostBefore? then (st.boxes, 0) else Effect(api, st.boxes, r);
      (st.(boxes := boxes, script := rest, log := st.log + [r]), Code(if fault.Served? then code else fault.code))
  }

  function Pause(st: State, attempt: nat): State {
    if 1 < attempt && attempt - 2 < |BACKOFF_SECONDS| then st.(slept := st.slept + BACKOFF_SECONDS[attempt - 2]) else st
  }

  /** Attempts number attempt, attempt + 1, ... up to MAX_ATTEMPTS. */
  function Retry(api: Api, st: State, r: Request, success: set<nat>, attempt: nat): (State, Answer)
    decreases MAX_ATTEMPTS + 1 - attempt
  {
    if attempt > MAX_ATTEMPTS then (st, Thrown)
    else
      var (after, answer) := Send(api, Pause(st, attempt), r);
      if answer.Thrown? || answer.code in success then (after, answer)
      else Retry(api, after, r, success, attempt + 1)
  }

  /** requestWithRetry: all attempts. */
  function Requested(api: Api, st: State, r: Request, success: set<nat>): (State, Answer) {
    Retry(api, st, r, success, 1)
  }

  lemma RetryStep(api: Api, st: State, r: Request, success: set<nat>, attempt: nat)
    ensures var sent := Send(api, Pause(st, attempt), r);
            Retry(api, st, r, success, attempt) ==
            if attempt > MAX_ATTEMPTS then (st, Thrown)
            else if sent.1.Thrown? || sent.1.code in success then sent
            else Retry(api, sent.0, r, success, attempt + 1)
  {
    hide Send, Pause;
  }

  /** syncMailbox; encodable says whether the payload can be written as JSON. */
  function Sync(acc: Account, st: State, a: Address, password: string, encodable: bool): (State, Outcome) {
    if !acc.credentials then (st, Failed)
    else
      var (found, lookup) := Requested(acc.api, st, Get(a), {200, 404});
      if lookup.Thrown? || !encodable then (found, Failed)
      else
        var request := if lookup.code == 404 then Post(a, password) else Put(a, password);
        var (after, answer) := Requested(acc.api, found, request, {200});
        (after, if answer.Thrown? then Failed else Done)
  }

  function Remove(acc: Account, st: State, a: Address): (State, Outcome) {
    if !acc.deletions then (st, Done)
    else if !acc.credentials then (st, Failed)
    else
      var (after, answer) := Requested(acc.api, st, Delete(a), DELETE_SUCCESS_CODES);
      (after, if answer.Thrown? then Failed else Done)
  }

  class Provider {
    const acc: Account
    var boxes: map<Address, string>
    var script: seq<Fault>
    var log: seq<Request>
    var slept: nat

    constructor (acc: Account, boxes: map<Address, string>, script: seq<Fault>)
      ensures this.acc == acc && Now() == State(boxes, script, [], 0)
    {
      this.acc := acc;
      this.boxes, this.script, this.log, this.slept := boxes, script, [], 0;
    }

    function Now(): State
      reads this
    {
      State(boxes, script, log, slept)
    }

    /** request: one exchange with the API, whose side is Effect. */
    method RequestOnce(r: Request) returns (answer: Answer)
      modifies this
      ensures (Now(), answer) == Send(acc.api, old(Now()), r)
    {
      var fault := if script == [] then Served else script[0];
      script := if script == [] then [] else script[1..];
      if fault.NoHandle? {
        return Thrown;
      }
      log := log + [r];
      var code := 0;
      if !fault.LostBefore? {
        var (after, answered) := Effect(acc.api, boxes, r);
        boxes, code := after, answered;
      }
      answer := Code(if fault.Served? then code else fault.code);
    }

    method RequestWithRetry(r: Request, success: set<nat>) returns (answer: Answer)
      modifies this
      ensures (Now(), answer) == Requested(acc.api, old(Now()), r, success)
    {
      hide Retry, Send;
      var attempt := 1;
      while attempt <= MAX_ATTEMPTS
        invariant 1 <= attempt <= MAX_ATTEMPTS + 1
        invariant Requested(acc.api, old(Now()), r, success) == Retry(acc.api, Now(), r, success, attempt)
      {
        RetryStep(acc.api, Now(), r, success, attempt);
        if attempt > 1 && attempt - 2 < |BACKOFF_SECONDS| {
          slept := slept + BACKOFF_SECONDS[attempt - 2];
        }
        answer := RequestOnce(r);
        if answer.Thrown? || answer.code in success {
          return;
        }
        attempt := attempt + 1;
      }
      RetryStep(acc.api, Now(), r, success, attempt);
      answer := Thrown;
    }

    method SyncMailbox(a: Address, password: string, encodable: bool) returns (outcome: Outcome)
      modifies this
      ensures (Now(), outcome) == Sync(acc, old(Now()), a, password, encodable)
    {
      hide Requested;
      if !acc.credentials {
        return Failed;
      }
      var lookup := RequestWithRetry(Get(a), {200, 404});
      if lookup.Thrown? {
        return Failed;
      }
      if lookup.code == 404 {
        if !encodable {
          return Failed;
        }
        var created := RequestWithRetry(Post(a, password), {200});
        return if created.Thrown? then Failed else Done;
      }
      if !encodable {
        return Failed;
      }
      var updated := RequestWithRetry(Put(a, password), {200});
      return if updated.Thrown? then Failed else Done;
    }

    method DeleteMailbox(a: Address) returns (outcome: Outcome)
      modifies this
      ensures (Now(), outcome) == Remove(acc, old(Now()), a)
    {
      hide Requested;
      if !acc.deletions {
        return Done;
      }
      if !acc.credentials {
        return Failed;
      }
      var answer := RequestWithRetry(Delete(a), DELETE_SUCCESS_CODES);
      return if answer.Thrown? then Failed else Done;
    }
  }
}
