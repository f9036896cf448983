/**
 The mail server as the redirector sees it: a source folder, an archive folder
 and the destination folder.  UIDs are given out in rising order and never again
 (section 2.3.1.1 of RFC 3501); EXPUNGE removes every message flagged \Deleted
 in the folder (section 6.4.3 of RFC 3501).  Every call may fail before or after
 it takes effect, and other clients act between any two calls.
 */
module Mailbox {

  type Bytes = seq<bv8>

  datatype Stored = Stored(raw: Bytes, deleted: bool)

  datatype Folder = Folder(msgs: map<nat, Stored>, next: nat)
  {
    function Add(raw: Bytes): Folder {
      Folder(msgs[next := Stored(raw, false)], next + 1)
    }

    function Flag(uid: nat): Folder {
      if uid in msgs then this.(msgs := msgs[uid := msgs[uid].(deleted := true)]) else this
    }

    function Reflag(flagged: set<nat>, cleared: set<nat>): Folder {
      this.(msgs := map u | u in msgs :: msgs[u].(deleted := u !in cleared && (u in flagged || msgs[u].deleted)))
    }

    function Drop(uids: set<nat>): Folder {
      this.(msgs := msgs - uids)
    }

    function Expunge(): Folder {
      this.(msgs := map u | u in msgs && !msgs[u].deleted :: msgs[u])
    }
  }

  /** A message put into another folder, with the source UID it came from. */
  datatype Copy = Copy(uid: nat, raw: Bytes)

  /**
   The folders.  born, gone and foreign are the history of the source folder: what arrived
   under each UID, which messages other clients took out, and which they flagged \Deleted.
   */
  datatype World = World(
    src: Folder, archive: seq<Copy>, target: seq<Copy>, born: map<nat, Bytes>, gone: set<nat>, foreign: set<nat>)

  /** "OK", another status, imaplib.IMAP4.error, or any other exception. */
  datatype Reply = OK | NO | Protocol | Broken

  /** What other clients do to the source folder before a call: deliver messages, take some out, set and clear \Deleted. */
  datatype Meanwhile = Meanwhile(arrivals: seq<Bytes>, taken: set<nat>, flagged: set<nat>, cleared: set<nat>)

  datatype Call = Call(reply: Reply, effect: bool, before: Meanwhile)
  {
    predicate Took() { reply.OK? || effect }
  }

  function Arrive(w: World, arrivals: seq<Bytes>): World
    decreases |arrivals|
  {
    if arrivals == [] then w
    else
      var raw := arrivals[0];
      Arrive(w.(src := w.src.Add(raw), born := w.born[w.src.next := raw]), arrivals[1..])
  }

  function Take(w: World, uids: set<nat>): World {
    w.(src := w.src.Drop(uids), gone := w.gone + (uids * w.src.msgs.Keys))
  }

  function Reflag(w: World, flagged: set<nat>, cleared: set<nat>): World {
    w.(src := w.src.Reflag(flagged, cleared), foreign := w.foreign + (flagged * w.src.msgs.Keys))
  }

  function Pass(w: World, m: Meanwhile): World {
    Reflag(Take(Arrive(w, m.arrivals), m.taken), m.flagged, m.cleared)
  }

  datatype Fetched = Got(raw: Bytes) | Nothing | FetchRaised

  datatype Outcome = Done(ok: bool) | Raised

  function FetchRaw(w: World, uid: nat, select: Call, fetch: Call): (World, Fetched) {
    var w1 := Pass(w, select.before);
    if select.reply.Protocol? || select.reply.Broken? then (w1, FetchRaised)
    else if select.reply.NO? then (w1, Nothing)
    else
      var w2 := Pass(w1, fetch.before);
      if fetch.reply.Broken? then (w2, FetchRaised)
      else if fetch.reply.OK? && uid in w2.src.msgs then (w2, Got(w2.src.msgs[uid].raw))
      else (w2, Nothing)
  }

  function AppendMessage(w: World, uid: nat, raw: Bytes, append: Call): (World, bool) {
    var w1 := Pass(w, append.before);
    (if append.Took() then w1.(target := w1.target + [Copy(uid, raw)]) else w1, append.reply.OK?)
  }

  function SetDeleted(w: World, uid: nat, select: Call, store: Call): (World, Outcome) {
    var w1 := Pass(w, select.before);
    if select.reply.Protocol? || select.reply.Broken? then (w1, Raised)
    else if select.reply.NO? then (w1, Done(false))
    else
      var w2 := Pass(w1, store.before);
      var w3 := if store.Took() then w2.(src := w2.src.Flag(uid)) else w2;
      (w3, if store.reply.Broken? then Raised else Done(store.reply.OK?))
  }

  function Expunge(w: World, expunge: Call): World {
    var w1 := Pass(w, expunge.before);
    if expunge.Took() then w1.(src := w1.src.Expunge()) else w1
  }

  function CopyTo(w: World, uid: nat): World {
    if uid in w.src.msgs then w.(archive := w.archive + [Copy(uid, w.src.msgs[uid].raw)]) else w
  }

  function MoveTo(w: World, uid: nat): World {
    CopyTo(w, uid).(src := w.src.Drop({uid}))
  }

  /** COPY, STORE and EXPUNGE, where MOVE did not answer OK. */
  function MoveFallback(w: World, uid: nat, copy: Call, store: Call, expunge: Call): (World, Outcome) {
    var w1 := Pass(w, copy.before);
    var w2 := if copy.Took() then CopyTo(w1, uid) else w1;
    if copy.reply.Protocol? || copy.reply.Broken? then (w2, Raised)
    else if copy.reply.NO? then (w2, Done(false))
    else
      var w3 := Pass(w2, store.before);
      var w4 := if store.Took() then w3.(src := w3.src.Flag(uid)) else w3;
      if store.reply.Broken? then (w4, Raised)
      else if store.reply.Protocol? then (w4, Done(false))
      else
        (Expunge(w4, expunge), if expunge.reply.Broken? then Raised else Done(!expunge.reply.Protocol?))
  }

  function MoveMessage(w: World, uid: nat, select: Call, move: Call, copy: Call, store: Call, expunge: Call): (World, Outcome) {
    var w1 := Pass(w, select.before);
    if select.reply.Protocol? || select.reply.Broken? then (w1, Raised)
    else if select.reply.NO? then (w1, Done(false))
    else
      var w2 := Pass(w1, move.before);
      var w3 := if move.Took() then MoveTo(w2, uid) else w2;
      if move.reply.OK? then (w3, Done(true))
      else if move.reply.Broken? then (w3, Raised)
      else MoveFallback(w3, uid, copy, store, expunge)
  }

  /** The folders behind the two IMAP connections, changed in place by each command. */
  class Server {
    var src: Folder
    var archive: seq<Copy>
    var target: seq<Copy>
    var born: map<nat, Bytes>
    var gone: set<nat>
    var foreign: set<nat>

    constructor (w: World)
      ensures State() == w
    {
      src, archive, target, born, gone, foreign := w.src, w.archive, w.target, w.born, w.gone, w.foreign;
    }

    function State(): World
      reads this
    {
      World(src, archive, target, born, gone, foreign)
    }

    method Wait(m: Meanwhile)
      modifies this
      ensures State() == Pass(old(State()), m)
    {
      var i := 0;
      while i < |m.arrivals|
        invariant 0 <= i <= |m.arrivals|
        invariant Arrive(old(State()), m.arrivals) == Arrive(State(), m.arrivals[i..])
      {
        assert m.arrivals[i..][1..] == m.arrivals[i + 1..];
        born := born[src.next := m.arrivals[i]];
        src := src.Add(m.arrivals[i]);
        i := i + 1;
      }
      gone := gone + (m.taken * src.msgs.Keys);
      src := src.Drop(m.taken);
      foreign := foreign + (m.flagged * src.msgs.Keys);
      src := src.Reflag(m.flagged, m.cleared);
    }

    method Fetch(uid: nat, select: Call, fetch: Call) returns (r: Fetched)
      modifies this
      ensures (State(), r) == FetchRaw(old(State()), uid, select, fetch)
    {
      Wait(select.before);
      if select.reply.Protocol? || select.reply.Broken? {
        return FetchRaised;
      }
      if !select.reply.OK? {
        return Nothing;
      }
      Wait(fetch.before);
      if fetch.reply.Broken? {
        return FetchRaised;
      }
      if !fetch.reply.OK? || uid !in src.msgs {
        return Nothing;
      }
      return Got(src.msgs[uid].raw);
    }

    method Append(uid: nat, raw: Bytes, append: Call) returns (ok: bool)
      modifies this
      ensures (State(), ok) == AppendMessage(old(State()), uid, raw, append)
    {
      Wait(append.before);
      if append.Took() {
        target := target + [Copy(uid, raw)];
      }
      return append.reply.OK?;
    }

    method SetFlags(uid: nat, select: Call, store: Call) returns (r: Outcome)
      modifies this
      ensures (State(), r) == SetDeleted(old(State()), uid, select, store)
    {
      Wait(select.before);
      if select.reply.Protocol? || select.reply.Broken? {
        return Raised;
      }
      if !select.reply.OK? {
        return Done(false);
      }
      Wait(store.before);
      if store.Took() {
        src := src.Flag(uid);
      }
      if store.reply.Broken? {
        return Raised;
      }
      return Done(store.reply.OK?);
    }

    method ExpungeAll(expunge: Call)
      modifies this
      ensures State() == Expunge(old(State()), expunge)
    {
      Wait(expunge.before);
      if expunge.Took() {
        src := src.Expunge();
      }
    }

    method Move(uid: nat, select: Call, move: Call, copy: Call, store: Call, expunge: Call) returns (r: Outcome)
      modifies this
      ensures (State(), r) == MoveMessage(old(State()), uid, select, move, copy, store, expunge)
    {
      Wait(select.before);
      if select.reply.Protocol? || select.reply.Broken? {
        return Raised;
      }
      if !select.reply.OK? {
        return Done(false);
      }
      Wait(move.before);
      if move.Took() {
        if uid in src.msgs {
          archive := archive + [Copy(uid, src.msgs[uid].raw)];
        }
        src := src.Drop({uid});
      }
      if move.reply.OK? {
        return Done(true);
      }
      if move.reply.Broken? {
        return Raised;
      }
      r := FallBack(uid, copy, store, expunge);
    }

    method FallBack(uid: nat, copy: Call, store: Call, expunge: Call) returns (r: Outcome)
      modifies this
      ensures (State(), r) == MoveFallback(old(State()), uid, copy, store, expunge)
    {
      Wait(copy.before);
      if copy.Took() && uid in src.msgs {
        archive := archive + [Copy(uid, src.msgs[uid].raw)];
      }
      if copy.reply.Protocol? || copy.reply.Broken? {
        return Raised;
      }
      if !copy.reply.OK? {
        return Done(false);
      }
      Wait(store.before);
      if store.Took() {
        src := src.Flag(uid);
      }
      if store.reply.Broken? {
        return Raised;
      }
      if store.reply.Protocol? {
        return Done(false);
      }
      ExpungeAll(expunge);
      if expunge.reply.Broken? {
        return Raised;
      }
      return Done(!expunge.reply.Protocol?);
    }
  }
}
