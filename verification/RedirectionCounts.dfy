/** How many copies, what the returned count means, dry runs, and passes without faults. */
module RedirectionCounts {
  import opened Mailbox
  import opened Redirection
  import opened RedirectionSafety

  function Copies(t: seq<Copy>, u: nat): nat {
    if t == [] then 0 else (if t[|t| - 1].uid == u then 1 else 0) + Copies(t[..|t| - 1], u)
  }

  /** STORE and EXPUNGE answered OK, and nobody cleared the flag between them. */
  predicate ExpungeClean(uid: nat, s: Script) {
    s.store.reply.OK? && s.expunge.reply.OK? && uid !in s.expunge.before.cleared
  }

  /** The removal calls all answered OK, by one of the two ways, and nobody undid the flag. */
  predicate RemovalClean(cfg: Config, uid: nat, s: Script) {
    if cfg.archiving then
      s.select.reply.OK? && (s.move.reply.OK? || (!s.move.reply.Broken? && s.copy.reply.OK? && ExpungeClean(uid, s)))
    else s.select.reply.OK? && ExpungeClean(uid, s)
  }

  /** The append took effect, but was reported failed, or its removal failed or was undone. */
  predicate Trouble(cfg: Config, uid: nat, s: Script) {
    s.append.Took() && !(s.append.reply.OK? && RemovalClean(cfg, uid, s))
  }

  function Troubles(cfg: Config, items: seq<Item>, u: nat): nat {
    if items == [] then 0
    else (if items[0].uid == u && Trouble(cfg, u, items[0].script) then 1 else 0) + Troubles(cfg, items[1..], u)
  }

  function AllTroubles(cfg: Config, setups: seq<Setup>, u: nat): nat {
    if setups == [] then 0 else Troubles(cfg, Items(setups[0]), u) + AllTroubles(cfg, setups[1..], u)
  }

  // ----- a clean removal removes -----

  /** uid has been given out and is no longer in the source folder. */
  ghost predicate Left(w: World, uid: nat) {
    uid < w.src.next && uid !in w.src.msgs
  }

  /** uid has been given out and, if still there, is flagged \Deleted. */
  ghost predicate Doomed(w: World, uid: nat) {
    uid < w.src.next && (uid in w.src.msgs ==> w.src.msgs[uid].deleted)
  }

  lemma {:induction false} ArriveSpares(w: World, arrivals: seq<Bytes>, uid: nat)
    requires uid < w.src.next
    ensures var w' := Arrive(w, arrivals);
      && w'.target == w.target && w'.archive == w.archive && uid < w'.src.next
      && (uid in w'.src.msgs <==> uid in w.src.msgs) && (uid in w.src.msgs ==> w'.src.msgs[uid] == w.src.msgs[uid])
    decreases |arrivals|
  {
    if arrivals != [] {
      ArriveSpares(w.(src := w.src.Add(arrivals[0]), born := w.born[w.src.next := arrivals[0]]), arrivals[1..], uid);
    }
  }

  lemma PassSpares(w: World, m: Meanwhile, uid: nat)
    requires uid < w.src.next
    ensures var w' := Pass(w, m);
      && w'.target == w.target && w'.archive == w.archive && uid < w'.src.next
      && (uid in w'.src.msgs <==> uid in w.src.msgs && uid !in m.taken)
      && (uid in w'.src.msgs && w.src.msgs[uid].deleted && uid !in m.cleared ==> w'.src.msgs[uid].deleted)
  {
    ArriveSpares(w, m.arrivals, uid);
  }

  lemma ExpungeRemoves(w: World, uid: nat, expunge: Call)
    requires Doomed(w, uid) && expunge.Took() && uid !in expunge.before.cleared
    ensures Left(Expunge(w, expunge), uid)
  {
    PassSpares(w, expunge.before, uid);
  }

  lemma MoveClean(w: World, uid: nat, s: Script)
    requires uid < w.src.next && RemovalClean(Config(true, false), uid, s)
    ensures var (w', r) := MoveMessage(w, uid, s.select, s.move, s.copy, s.store, s.expunge);
      Left(w', uid) && r == Done(true)
  {
    hide Pass, Expunge;
    var w1 := Pass(w, s.select.before);
    PassSpares(w, s.select.before, uid);
    var w2 := Pass(w1, s.move.before);
    PassSpares(w1, s.move.before, uid);
    if !s.move.reply.OK? {
      var w3 := if s.move.Took() then MoveTo(w2, uid) else w2;
      PassSpares(w3, s.copy.before, uid);
      var w4 := CopyTo(Pass(w3, s.copy.before), uid);
      PassSpares(w4, s.store.before, uid);
      var w5 := Pass(w4, s.store.before);
      ExpungeRemoves(w5.(src := w5.src.Flag(uid)), uid, s.expunge);
    }
  }

  lemma DeleteClean(w: World, uid: nat, s: Script)
    requires uid < w.src.next && RemovalClean(Config(false, false), uid, s)
    ensures var (w', r) := SetDeleted(w, uid, s.select, s.store);
      r == Done(true) && Left(Expunge(w', s.expunge), uid)
  {
    hide Pass, Expunge;
    PassSpares(w, s.select.before, uid);
    var w1 := Pass(w, s.select.before);
    PassSpares(w1, s.store.before, uid);
    ExpungeRemoves(SetDeleted(w, uid, s.select, s.store).0, uid, s.expunge);
  }

  lemma RemoveClean(w: World, cfg: Config, uid: nat, s: Script)
    requires uid < w.src.next && RemovalClean(cfg, uid, s)
    ensures Left(RemoveSource(w, cfg, uid, s).0, uid) && RemoveSource(w, cfg, uid, s).1 == Done(true)
  {
    hide MoveMessage, SetDeleted, Expunge;
    if cfg.archiving {
      MoveClean(w, uid, s);
    } else {
      DeleteClean(w, uid, s);
    }
  }

  // ----- removal never touches the destination -----

  lemma {:induction false} ArriveTarget(w: World, arrivals: seq<Bytes>)
    ensures Arrive(w, arrivals).target == w.target && Arrive(w, arrivals).archive == w.archive
    decreases |arrivals|
  {
    if arrivals != [] {
      ArriveTarget(w.(src := w.src.Add(arrivals[0]), born := w.born[w.src.next := arrivals[0]]), arrivals[1..]);
    }
  }

  lemma PassTarget(w: World, m: Meanwhile)
    ensures Pass(w, m).target == w.target && Pass(w, m).archive == w.archive
  {
    ArriveTarget(w, m.arrivals);
  }

  lemma FallbackTarget(w: World, uid: nat, copy: Call, store: Call, expunge: Call)
    ensures MoveFallback(w, uid, copy, store, expunge).0.target == w.target
  {
    hide Pass;
    var w1 := Pass(w, copy.before);
    PassTarget(w, copy.before);
    var w2 := if copy.Took() then CopyTo(w1, uid) else w1;
    var w3 := Pass(w2, store.before);
    PassTarget(w2, store.before);
    PassTarget(if store.Took() then w3.(src := w3.src.Flag(uid)) else w3, expunge.before);
  }

  lemma RemoveTarget(w: World, cfg: Config, uid: nat, s: Script)
    ensures RemoveSource(w, cfg, uid, s).0.target == w.target
  {
    hide Pass, MoveFallback;
    var w1 := Pass(w, s.select.before);
    PassTarget(w, s.select.before);
    if cfg.archiving {
      PassTarget(w1, s.move.before);
      var w2 := Pass(w1, s.move.before);
      FallbackTarget(if s.move.Took() then MoveTo(w2, uid) else w2, uid, s.copy, s.store, s.expunge);
    } else {
      PassTarget(w1, s.store.before);
      PassTarget(SetDeleted(w, uid, s.select, s.store).0, s.expunge.before);
    }
  }

  // ----- at least once, with a bound -----

  /** With t troubles so far: no copy before u exists, at most t while it is in the source folder, else t + 1. */
  ghost predicate Bounded(w: World, u: nat, t: nat) {
    var n := Copies(w.target, u);
    n <= t + 1 && (u in w.src.msgs ==> n <= t) && (u >= w.src.next ==> n == 0)
  }

  lemma BoundedFollows(w: World, w': World, u: nat, t: nat, t': nat)
    requires Bounded(w, u, t) && Follows(w, w') && w'.target == w.target && t <= t'
    ensures Bounded(w', u, t')
  {
  }

  lemma BoundedMore(w: World, u: nat, t: nat, t': nat)
    requires Bounded(w, u, t) && t <= t'
    ensures Bounded(w, u, t')
  {
  }

  lemma FetchTarget(w: World, uid: nat, select: Call, fetch: Call)
    ensures FetchRaw(w, uid, select, fetch).0.target == w.target
  {
    hide Pass;
    PassTarget(w, select.before);
    PassTarget(Pass(w, select.before), fetch.before);
  }

  lemma AppendTarget(w: World, uid: nat, raw: Bytes, append: Call)
    ensures AppendMessage(w, uid, raw, append).0.target
      == if append.Took() then w.target + [Copy(uid, raw)] else w.target
  {
    hide Pass;
    PassTarget(w, append.before);
  }

  lemma CopiesOfOneMore(t: seq<Copy>, c: Copy, u: nat)
    ensures Copies(t + [c], u) == Copies(t, u) + (if c.uid == u then 1 else 0)
  {
    assert (t + [c])[..|t|] == t;
  }

  /** The append itself: one copy more, which is trouble unless u then leaves the source folder. */
  lemma AppendBounded(w: World, w1: World, uid: nat, raw: Bytes, u: nat, t: nat, took: bool)
    requires Bounded(w, u, t) && Follows(w, w1) && uid in w.src.msgs && uid < w.src.next
    requires w1.target == if took then w.target + [Copy(uid, raw)] else w.target
    ensures !(took && uid == u) ==> Bounded(w1, u, t)
    ensures Bounded(w1, u, t + 1)
    ensures took && uid == u ==> Copies(w1.target, u) <= t + 1
  {
    CopiesOfOneMore(w.target, Copy(uid, raw), u);
    hide Copies;
  }

  lemma RemoveBounded(w: World, cfg: Config, uid: nat, s: Script, u: nat, t: nat)
    requires Safe(w, w, uid)
    ensures Bounded(w, u, t) ==> Bounded(RemoveSource(w, cfg, uid, s).0, u, t)
    ensures RemovalClean(cfg, uid, s) && uid == u && Copies(w.target, u) <= t + 1 ==> Bounded(RemoveSource(w, cfg, uid, s).0, u, t)
  {
    assert uid < w.src.next;
    hide RemoveSource, Sound, RemovalClean, Copies;
    RemoveSafe(w, w, cfg, uid, s);
    RemoveTarget(w, cfg, uid, s);
    if RemovalClean(cfg, uid, s) {
      RemoveClean(w, cfg, uid, s);
    }
  }

  lemma DeliverBounded(p: Progress, cfg: Config, uid: nat, raw: Bytes, s: Script, u: nat, t: nat)
    requires Sound(p.world) && uid in p.world.born && raw == p.world.born[uid] && uid in p.world.src.msgs
    requires Bounded(p.world, u, t)
    ensures Bounded(Deliver(p, cfg, uid, raw, s).world, u, t + if uid == u && Trouble(cfg, uid, s) then 1 else 0)
  {
    var w := p.world;
    assert uid < w.src.next;
    var (w1, ok) := AppendMessage(w, uid, raw, s.append);
    FollowsItself(w1);
    AppendKeeps(w, uid, raw, s.append);
    assert s.append.Took() ==> Safe(w1, w1, uid);
    hide Sound, AppendMessage, RemoveSource, Copies, Follows, Safe, Bounded, RemovalClean;
    AppendTarget(w, uid, raw, s.append);
    AcceptedTook(w, uid, raw, s.append);
    AppendBounded(w, w1, uid, raw, u, t, s.append.Took());
    AppendAnswers(w, uid, raw, s.append);
    if ok {
      RemoveBounded(w1, cfg, uid, s, u, t);
      RemoveBounded(w1, cfg, uid, s, u, t + 1);
    }
  }

  lemma AppendAnswers(w: World, uid: nat, raw: Bytes, append: Call)
    ensures AppendMessage(w, uid, raw, append).1 == append.reply.OK?
  {
    hide Pass;
  }

  lemma RedirectBounded(p: Progress, cfg: Config, uid: nat, s: Script, u: nat, t: nat)
    requires Sound(p.world) && Bounded(p.world, u, t)
    ensures Bounded(Redirect(p, cfg, uid, s).world, u, t + if uid == u && Trouble(cfg, uid, s) then 1 else 0)
  {
    var w := p.world;
    var (w1, f) := FetchRaw(w, uid, s.fetchSelect, s.fetch);
    FetchKeeps(w, uid, s.fetchSelect, s.fetch);
    FetchTarget(w, uid, s.fetchSelect, s.fetch);
    BoundedFollows(w, w1, u, t, t);
    BoundedFollows(w, w1, u, t, t + 1);
    if f.Got? && !cfg.dryRun {
      assert uid in w1.born;
      hide Sound, Bounded, FetchRaw, Deliver;
      DeliverBounded(p.(world := w1), cfg, uid, f.raw, s, u, t);
    }
  }

  lemma {:induction false} RedirectAllBounded(p: Progress, cfg: Config, items: seq<Item>, u: nat, t: nat)
    requires Sound(p.world) && Bounded(p.world, u, t)
    ensures Bounded(RedirectAll(p, cfg, items).world, u, t + Troubles(cfg, items, u))
    decreases |items|
  {
    hide Sound, Bounded, Redirect, Follows, Trouble;
    BoundedMore(p.world, u, t, t + Troubles(cfg, items, u));
    if items != [] && !p.raised {
      var it := items[0];
      RedirectKeeps(p, cfg, it.uid, it.script);
      RedirectBounded(p, cfg, it.uid, it.script, u, t);
      RedirectAllBounded(Redirect(p, cfg, it.uid, it.script), cfg, items[1..], u,
        t + if it.uid == u && Trouble(cfg, u, it.script) then 1 else 0);
    }
  }

  /**
   The destination never holds more copies of a message than one plus the number of
   times its removal failed or was undone, or its append took effect but was reported failed.
   */
  lemma {:induction false} CopiesBounded(w: World, cfg: Config, setups: seq<Setup>, u: nat, t: nat)
    requires Sound(w) && Bounded(w, u, t)
    ensures Bounded(Passes(w, cfg, setups), u, t + AllTroubles(cfg, setups, u))
    decreases |setups|
  {
    hide Sound, Bounded, Redirect, RedirectAll, Troubles, Items;
    if setups != [] {
      var p := Progress(w, [], 0, 0, setups[0].ConnectFails?);
      RedirectAllKeeps(p, cfg, Items(setups[0]));
      RedirectAllBounded(p, cfg, Items(setups[0]), u, t);
      CopiesBounded(Run(w, cfg, setups[0]).world, cfg, setups[1..], u, t + Troubles(cfg, Items(setups[0]), u));
    }
  }

  // ----- the returned count and the audit log -----

  function Redirections(audit: seq<Event>): nat {
    if audit == [] then 0
    else (if audit[|audit| - 1].Redirected? then 1 else 0) + Redirections(audit[..|audit| - 1])
  }

  /** ok_count counts the "ok" events; an APPEND that answered OK lacks one only if its removal raised. */
  ghost predicate Tallied(p: Progress) {
    && p.okCount == Redirections(p.audit)
    && p.okCount <= p.accepted <= p.okCount + (if p.raised then 1 else 0)
  }

  lemma RedirectionsOneMore(audit: seq<Event>, e: Event)
    ensures Redirections(audit + [e]) == Redirections(audit) + (if e.Redirected? then 1 else 0)
  {
    assert (audit + [e])[..|audit|] == audit;
  }

  lemma RedirectTallied(p: Progress, cfg: Config, uid: nat, s: Script)
    requires Tallied(p) && !p.raised
    ensures Tallied(Redirect(p, cfg, uid, s))
    ensures |Redirect(p, cfg, uid, s).world.target| - |p.world.target| >= Redirect(p, cfg, uid, s).accepted - p.accepted
  {
    RedirectionsOneMore(p.audit, DryRun(uid));
    RedirectionsOneMore(p.audit, AppendFailed(uid));
    RedirectionsOneMore(p.audit, Redirected(uid));
    hide FetchRaw, AppendMessage, RemoveSource, Redirections;
    var (w1, f) := FetchRaw(p.world, uid, s.fetchSelect, s.fetch);
    FetchTarget(p.world, uid, s.fetchSelect, s.fetch);
    if f.Got? && !cfg.dryRun {
      AppendTarget(w1, uid, f.raw, s.append);
      AppendAnswers(w1, uid, f.raw, s.append);
      RemoveTarget(AppendMessage(w1, uid, f.raw, s.append).0, cfg, uid, s);
    }
  }

  lemma {:induction false} RedirectAllTallied(p: Progress, cfg: Config, items: seq<Item>)
    requires Tallied(p)
    ensures var p' := RedirectAll(p, cfg, items);
      Tallied(p') && |p'.world.target| - |p.world.target| >= p'.accepted - p.accepted
    decreases |items|
  {
    if items != [] && !p.raised {
      hide Redirect, Tallied;
      RedirectTallied(p, cfg, items[0].uid, items[0].script);
      RedirectAllTallied(Redirect(p, cfg, items[0].uid, items[0].script), cfg, items[1..]);
    }
  }

  /** The returned count is the number of "ok" events and of APPENDs reported successful; that many copies were made. */
  lemma CountMeans(w: World, cfg: Config, setup: Setup)
    ensures var p := Run(w, cfg, setup);
      && (ResultOf(p).Returned? ==> ResultOf(p).count == Redirections(p.audit) == p.accepted)
      && (ResultOf(p).RaisedError? ==> Redirections(p.audit) <= p.accepted <= Redirections(p.audit) + 1)
      && |p.world.target| - |w.target| >= p.accepted
  {
    hide RedirectAll;
    RedirectAllTallied(Progress(w, [], 0, 0, setup.ConnectFails?), cfg, Items(setup));
  }

  // ----- dry runs -----

  lemma {:induction false} DryRunAll(w: World, p: Progress, cfg: Config, items: seq<Item>)
    requires cfg.dryRun && Sound(p.world) && Follows(w, p.world) && Undisturbed(w, p.world)
    ensures var p' := RedirectAll(p, cfg, items);
      Sound(p'.world) && Follows(w, p'.world) && Undisturbed(w, p'.world) && p'.okCount == p.okCount
    decreases |items|
  {
    if items != [] && !p.raised {
      var s := items[0].script;
      FetchKeeps(p.world, items[0].uid, s.fetchSelect, s.fetch);
      hide Sound, FetchRaw;
      var p1 := Redirect(p, cfg, items[0].uid, s);
      FetchFollows(w, p.world, p1.world);
      hide Follows, Undisturbed, Redirect;
      DryRunAll(w, p1, cfg, items[1..]);
    }
  }

  /** A dry run changes no folder: only other clients' actions show, and it returns 0. */
  lemma DryRunChangesNothing(w: World, cfg: Config, setup: Setup)
    requires cfg.dryRun && Sound(w)
    ensures Undisturbed(w, Run(w, cfg, setup).world)
    ensures ResultOf(Run(w, cfg, setup)).Returned? ==> ResultOf(Run(w, cfg, setup)).count == 0
  {
    FollowsItself(w);
    assert Undisturbed(w, w);
    hide Sound, RedirectAll;
    DryRunAll(w, Progress(w, [], 0, 0, setup.ConnectFails?), cfg, Items(setup));
  }

  // ----- a pass without faults -----

  predicate Quiet(c: Call) { c.reply.OK? && c.before == Meanwhile([], {}, {}, {}) }

  predicate QuietScript(s: Script) {
    && Quiet(s.fetchSelect) && Quiet(s.fetch) && Quiet(s.append) && Quiet(s.select)
    && Quiet(s.move) && Quiet(s.copy) && Quiet(s.store) && Quiet(s.expunge)
  }

  /** The listed UIDs are distinct, all in the folder, and no call on them fails. */
  predicate Smooth(msgs: map<nat, Stored>, items: seq<Item>) {
    items == []
    || (QuietScript(items[0].script) && items[0].uid in msgs && Smooth(msgs - {items[0].uid}, items[1..]))
  }

  function Uids(items: seq<Item>): set<nat> {
    if items == [] then {} else {items[0].uid} + Uids(items[1..])
  }

  /** The messages under the listed UIDs, in order. */
  function Verbatim(msgs: map<nat, Stored>, items: seq<Item>): seq<Copy>
    requires Smooth(msgs, items)
  {
    if items == [] then []
    else [Copy(items[0].uid, msgs[items[0].uid].raw)] + Verbatim(msgs - {items[0].uid}, items[1..])
  }

  ghost predicate NoneFlagged(w: World) {
    forall u :: u in w.src.msgs ==> !w.src.msgs[u].deleted
  }

  lemma QuietPassing(w: World, c: Call)
    requires Quiet(c)
    ensures Pass(w, c.before) == w
  {
    assert w.src.msgs - {} == w.src.msgs;
    assert w.gone + ({} * w.src.msgs.Keys) == w.gone;
    assert w.src.Reflag({}, {}).msgs == w.src.msgs;
    assert w.foreign + ({} * w.src.msgs.Keys) == w.foreign;
  }

  lemma QuietRedirect(p: Progress, cfg: Config, uid: nat, s: Script)
    requires QuietScript(s) && !cfg.dryRun && uid in p.world.src.msgs && NoneFlagged(p.world)
    ensures var p', c := Redirect(p, cfg, uid, s), Copy(uid, p.world.src.msgs[uid].raw);
      && p'.world.src == p.world.src.Drop({uid}) && p'.world.target == p.world.target + [c]
      && p'.world.archive == (if cfg.archiving then p.world.archive + [c] else p.world.archive)
      && p'.okCount == p.okCount + 1 && p'.raised == p.raised
  {
    var w, raw := p.world, p.world.src.msgs[uid].raw;
    QuietPassing(w, s.fetchSelect);
    QuietPassing(w, s.fetch);
    QuietPassing(w, s.append);
    var w1 := w.(target := w.target + [Copy(uid, raw)]);
    QuietPassing(w1, s.select);
    QuietPassing(w1, s.move);
    QuietPassing(w1, s.store);
    var w2 := w1.(src := w1.src.Flag(uid));
    QuietPassing(w2, s.expunge);
    hide Pass;
    assert w2.src.Expunge().msgs == w.src.msgs - {uid};
  }

  /**
   A pass that meets no fault and no other client appends every listed message
   exactly once, verbatim and in order, and leaves none of them in the source folder.
   */
  lemma {:induction false} QuietPassDelivers(p: Progress, cfg: Config, items: seq<Item>)
    requires !cfg.dryRun && !p.raised && NoneFlagged(p.world) && Smooth(p.world.src.msgs, items)
    ensures var p' := RedirectAll(p, cfg, items);
      && p'.world.src == p.world.src.Drop(Uids(items))
      && p'.world.target == p.world.target + Verbatim(p.world.src.msgs, items)
      && p'.okCount == p.okCount + |items| && !p'.raised
    decreases |items|
  {
    if items == [] {
      assert p.world.src.msgs - {} == p.world.src.msgs;
      assert p.world.target + [] == p.world.target;
    } else {
      var uid := items[0].uid;
      var p1 := Redirect(p, cfg, uid, items[0].script);
      QuietRedirect(p, cfg, uid, items[0].script);
      hide Redirect, QuietScript;
      var c, rest := Copy(uid, p.world.src.msgs[uid].raw), Verbatim(p1.world.src.msgs, items[1..]);
      QuietPassDelivers(p1, cfg, items[1..]);
      DropTwice(p.world.src.msgs, uid, Uids(items[1..]));
      AppendTwice(p.world.target, c, rest);
    }
  }

  lemma DropTwice(msgs: map<nat, Stored>, uid: nat, uids: set<nat>)
    ensures msgs - ({uid} + uids) == (msgs - {uid}) - uids
  {
  }

  lemma AppendTwice(t: seq<Copy>, c: Copy, rest: seq<Copy>)
    ensures (t + [c]) + rest == t + ([c] + rest)
  {
  }

  // ----- what others flag can be lost -----

  /** Quiet, but before it another client flags message 1 \Deleted. */
  predicate QuietButFlagged(c: Call) { c.reply.OK? && c.before == Meanwhile([], {}, {1}, {}) }

  lemma FlaggedIsExpunged(w: World, c: Call)
    requires QuietButFlagged(c) && 1 in w.src.msgs && 1 in w.born && 1 !in w.gone
    requires (forall x :: x in w.target ==> x.uid != 1) && (forall x :: x in w.archive ==> x.uid != 1)
    ensures var w' := Expunge(w, c); w'.born == w.born && 1 in w'.foreign && !Accounted(w', 1)
  {
    var w1 := Pass(w, c.before);
    assert 1 in w1.src.msgs && w1.src.msgs[1].deleted && 1 in w1.foreign;
    assert w1.gone == w.gone && w1.archive == w.archive && w1.target == w.target && w1.born == w.born;
    hide Pass;
  }

  /** The loop round for one message, with every call quiet up to the EXPUNGE. */
  lemma QuietUpToExpunge(p: Progress, uid: nat, s: Script)
    requires Quiet(s.fetchSelect) && Quiet(s.fetch) && Quiet(s.append) && Quiet(s.select) && Quiet(s.store)
    requires uid in p.world.src.msgs
    ensures var w := p.world;
      Redirect(p, Config(false, false), uid, s).world
      == Expunge(w.(src := w.src.Flag(uid), target := w.target + [Copy(uid, w.src.msgs[uid].raw)]), s.expunge)
  {
    var w := p.world;
    QuietPassing(w, s.fetchSelect);
    QuietPassing(w, s.fetch);
    QuietPassing(w, s.append);
    var w1 := w.(target := w.target + [Copy(uid, w.src.msgs[uid].raw)]);
    QuietPassing(w1, s.select);
    QuietPassing(w1, s.store);
    hide Pass, Expunge;
  }

  lemma SinglePass(w: World, cfg: Config, uid: nat, s: Script)
    ensures Passes(w, cfg, [Listed([Item(uid, s)])]) == Redirect(Progress(w, [], 0, 0, false), cfg, uid, s).world
  {
    hide Redirect;
    var p, items := Progress(w, [], 0, 0, false), [Item(uid, s)];
    assert items[1..] == [];
    assert RedirectAll(p, cfg, items) == Redirect(p, cfg, uid, s);
    var setups := [Listed(items)];
    assert setups[1..] == [];
    assert Passes(w, cfg, setups) == Run(w, cfg, setups[0]).world;
  }

  /** Message 1, flagged by somebody else during the pass, is lost to the EXPUNGE that removes message 2. */
  lemma ForeignFlagIsLost(w: World, s: Script)
    requires Sound(w) && {1, 2} <= w.src.msgs.Keys && w.target == [] && w.archive == [] && w.foreign == {}
    requires Quiet(s.fetchSelect) && Quiet(s.fetch) && Quiet(s.append) && Quiet(s.select) && Quiet(s.store)
    requires QuietButFlagged(s.expunge)
    ensures var w' := Passes(w, Config(false, false), [Listed([Item(2, s)])]);
      1 in w'.born && !Accounted(w', 1) && 1 in w'.foreign
  {
    var cfg, p := Config(false, false), Progress(w, [], 0, 0, false);
    QuietUpToExpunge(p, 2, s);
    FlaggedIsExpunged(w.(src := w.src.Flag(2), target := w.target + [Copy(2, w.src.msgs[2].raw)]), s.expunge);
    hide *;
    SinglePass(w, cfg, 2, s);
  }
}
