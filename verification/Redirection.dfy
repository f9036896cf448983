/**
 The redirector: every message of the source folder is appended verbatim to the
 destination mailbox and then taken out of the source folder.
 */
module Redirection {
  import opened Mailbox

  /** after_move_folder set or not, and the dry-run switch. */
  datatype Config = Config(archiving: bool, dryRun: bool)

  /** What the server answers to the calls made for one UID. */
  datatype Script = Script(
    fetchSelect: Call, fetch: Call, append: Call,
    select: Call, move: Call, copy: Call, store: Call, expunge: Call)

  datatype Item = Item(uid: nat, script: Script)

  datatype Event = DryRun(uid: nat) | AppendFailed(uid: nat) | Redirected(uid: nat)

  /** Why a pass never reaches the loop, or the UIDs it lists with the answers it gets. */
  datatype Setup = Disabled | NoPassword | ConnectFails | Listed(items: seq<Item>)

  datatype Result = Returned(count: nat) | RaisedError

  /** The state of a pass: the audit log, ok_count, and how many APPENDs answered OK. */
  datatype Progress = Progress(world: World, audit: seq<Event>, okCount: nat, accepted: nat, raised: bool)

  function RemoveSource(w: World, cfg: Config, uid: nat, s: Script): (World, Outcome) {
    if cfg.archiving then MoveMessage(w, uid, s.select, s.move, s.copy, s.store, s.expunge)
    else
      var (w1, r) := SetDeleted(w, uid, s.select, s.store);
      if r == Done(true) then (Expunge(w1, s.expunge), Done(!s.expunge.reply.Protocol? && !s.expunge.reply.Broken?))
      else (w1, r)
  }

  function Deliver(p: Progress, cfg: Config, uid: nat, raw: Bytes, s: Script): Progress {
    var (w1, ok) := AppendMessage(p.world, uid, raw, s.append);
    if !ok then p.(world := w1, audit := p.audit + [AppendFailed(uid)])
    else
      var (w2, r) := RemoveSource(w1, cfg, uid, s);
      if r.Raised? then p.(world := w2, accepted := p.accepted + 1, raised := true)
      else p.(world := w2, audit := p.audit + [Redirected(uid)], okCount := p.okCount + 1, accepted := p.accepted + 1)
  }

  /** The loop body for one UID. */
  function Redirect(p: Progress, cfg: Config, uid: nat, s: Script): Progress {
    var (w, f) := FetchRaw(p.world, uid, s.fetchSelect, s.fetch);
    match f
    case FetchRaised => p.(world := w, raised := true)
    case Nothing => p.(world := w)
    case Got(raw) =>
      if cfg.dryRun then p.(world := w, audit := p.audit + [DryRun(uid)])
      else Deliver(p.(world := w), cfg, uid, raw, s)
  }

  function RedirectAll(p: Progress, cfg: Config, items: seq<Item>): Progress
    decreases |items|
  {
    if items == [] || p.raised then p
    else RedirectAll(Redirect(p, cfg, items[0].uid, items[0].script), cfg, items[1..])
  }

  function Items(setup: Setup): seq<Item> {
    if setup.Listed? then setup.items else []
  }

  /** One call of redirect_account, from world w. */
  function Run(w: World, cfg: Config, setup: Setup): Progress {
    RedirectAll(Progress(w, [], 0, 0, setup.ConnectFails?), cfg, Items(setup))
  }

  function ResultOf(p: Progress): Result {
    if p.raised then RaisedError else Returned(p.okCount)
  }

  // ----- the code -----

  class Redirector {
    const server: Server
    const cfg: Config
    var audit: seq<Event>

    constructor (server: Server, cfg: Config)
      ensures this.server == server && this.cfg == cfg && audit == []
    {
      this.server, this.cfg, audit := server, cfg, [];
    }

    /** _remove_source */
    method Remove(uid: nat, s: Script) returns (r: Outcome)
      modifies server
      ensures (server.State(), r) == RemoveSource(old(server.State()), cfg, uid, s)
    {
      if cfg.archiving {
        r := server.Move(uid, s.select, s.move, s.copy, s.store, s.expunge);
        return;
      }
      r := server.SetFlags(uid, s.select, s.store);
      if r != Done(true) {
        return;
      }
      server.ExpungeAll(s.expunge);
      return Done(!s.expunge.reply.Protocol? && !s.expunge.reply.Broken?);
    }

    /** redirect_account */
    method RedirectAccount(setup: Setup) returns (r: Result)
      modifies this, server
      ensures var p := Run(old(server.State()), cfg, setup);
        server.State() == p.world && r == ResultOf(p) && audit == old(audit) + p.audit
    {
      hide FetchRaw, AppendMessage, RemoveSource;
      if setup.Disabled? || setup.NoPassword? {
        return Returned(0);
      }
      if setup.ConnectFails? {
        return RaisedError;
      }
      var okCount := 0;
      ghost var accepted := 0;
      ghost var log := [];
      var i := 0;
      while i < |setup.items|
        invariant 0 <= i <= |setup.items|
        invariant audit == old(audit) + log
        invariant Run(old(server.State()), cfg, setup)
          == RedirectAll(Progress(server.State(), log, okCount, accepted, false), cfg, setup.items[i..])
      {
        var uid, s := setup.items[i].uid, setup.items[i].script;
        assert setup.items[i..][1..] == setup.items[i + 1..];
        ghost var p := Progress(server.State(), log, okCount, accepted, false);
        i := i + 1;
        var fetched := server.Fetch(uid, s.fetchSelect, s.fetch);
        if fetched.FetchRaised? {
          assert Redirect(p, cfg, uid, s).raised;
          return RaisedError;
        }
        if fetched.Nothing? {
          continue;
        }
        if cfg.dryRun {
          audit, log := audit + [DryRun(uid)], log + [DryRun(uid)];
          continue;
        }
        var appended := server.Append(uid, fetched.raw, s.append);
        if !appended {
          audit, log := audit + [AppendFailed(uid)], log + [AppendFailed(uid)];
          continue;
        }
        accepted := accepted + 1;
        var removed := Remove(uid, s);
        if removed.Raised? {
          assert Redirect(p, cfg, uid, s).raised;
          return RaisedError;
        }
        okCount := okCount + 1;
        audit, log := audit + [Redirected(uid)], log + [Redirected(uid)];
      }
      return Returned(okCount);
    }
  }
}
