/** What one message's answers do to a pass, and that a failure for one message does not keep the pass from the others. */
module RedirectionProgress {
  import opened Mailbox
  import opened Redirection
  import opened RedirectionSafety
  import opened RedirectionCounts

  predicate Errs(c: Call) {
    c.reply.Protocol? || c.reply.Broken?
  }

  /** The fetch raises: SELECT fails with an error, or FETCH with one that is not the protocol's. */
  predicate FetchRaises(s: Script) {
    Errs(s.fetchSelect) || (s.fetchSelect.reply.OK? && s.fetch.reply.Broken?)
  }

  /** The message is fetched: both calls answer OK and it is still in the folder. */
  predicate Fetches(w: World, uid: nat, s: Script) {
    && s.fetchSelect.reply.OK? && s.fetch.reply.OK?
    && uid in Pass(Pass(w, s.fetchSelect.before), s.fetch.before).src.msgs
  }

  /** COPY, STORE or EXPUNGE raises after a MOVE that did not answer OK. */
  predicate FallbackRaises(s: Script) {
    || Errs(s.copy)
    || (s.copy.reply.OK? && (s.store.reply.Broken? || (!s.store.reply.Protocol? && s.expunge.reply.Broken?)))
  }

  predicate RemovalRaises(cfg: Config, s: Script) {
    || Errs(s.select)
    || (s.select.reply.OK? &&
        if cfg.archiving then s.move.reply.Broken? || (!s.move.reply.OK? && FallbackRaises(s)) else s.store.reply.Broken?)
  }

  lemma FetchedExactly(w: World, uid: nat, s: Script)
    ensures FetchRaw(w, uid, s.fetchSelect, s.fetch).1.FetchRaised? <==> FetchRaises(s)
    ensures FetchRaw(w, uid, s.fetchSelect, s.fetch).1.Got? <==> Fetches(w, uid, s)
  {
    hide Pass;
  }

  lemma RemovalExactly(w: World, cfg: Config, uid: nat, s: Script)
    ensures RemoveSource(w, cfg, uid, s).1.Raised? <==> RemovalRaises(cfg, s)
  {
    hide Pass, CopyTo;
  }

  /** The append is made and answered OK. */
  predicate Appends(w: World, cfg: Config, uid: nat, s: Script) {
    Fetches(w, uid, s) && !cfg.dryRun && s.append.reply.OK?
  }

  /** What the audit log gains. */
  function Logged(w: World, cfg: Config, uid: nat, s: Script): seq<Event> {
    if !Fetches(w, uid, s) then []
    else if cfg.dryRun then [DryRun(uid)]
    else if !s.append.reply.OK? then [AppendFailed(uid)]
    else if RemovalRaises(cfg, s) then []
    else [Redirected(uid)]
  }

  /**
   One message's answers decide whether the pass ends with an error, what it counts and what
   it logs.  A fetch or an append that fails without an error only skips the message.
   */
  lemma RoundExactly(p: Progress, cfg: Config, uid: nat, s: Script)
    requires !p.raised
    ensures var (p', w) := (Redirect(p, cfg, uid, s), p.world);
      && (p'.raised <==> FetchRaises(s) || (Appends(w, cfg, uid, s) && RemovalRaises(cfg, s)))
      && p'.okCount == p.okCount + (if Appends(w, cfg, uid, s) && !RemovalRaises(cfg, s) then 1 else 0)
      && p'.audit == p.audit + Logged(w, cfg, uid, s)
  {
    var w := p.world;
    var (w1, f) := FetchRaw(w, uid, s.fetchSelect, s.fetch);
    FetchedExactly(w, uid, s);
    hide FetchRaw, AppendMessage, RemoveSource, Fetches, FetchRaises, RemovalRaises;
    if f.Got? {
      AppendAnswers(w1, uid, f.raw, s.append);
      RemovalExactly(AppendMessage(w1, uid, f.raw, s.append).0, cfg, uid, s);
    }
  }

  /** No answer of the pass is an error that would end it. */
  predicate Calm(cfg: Config, items: seq<Item>) {
    forall k :: 0 <= k < |items| ==> !FetchRaises(items[k].script) && !RemovalRaises(cfg, items[k].script)
  }

  lemma {:induction false} Continues(p: Progress, cfg: Config, items: seq<Item>, k: nat)
    requires k <= |items|
    ensures RedirectAll(p, cfg, items) == RedirectAll(RedirectAll(p, cfg, items[..k]), cfg, items[k..])
    decreases |items|
  {
    hide Redirect;
    if k == 0 {
      assert items[..0] == [] && items[0..] == items;
    } else if !p.raised {
      Continues(Redirect(p, cfg, items[0].uid, items[0].script), cfg, items[1..], k - 1);
      assert items[..k][1..] == items[1..][..k - 1] && items[1..][k - 1..] == items[k..];
    }
  }

  /** A calm pass goes through to its last message, whatever fails in it. */
  lemma {:induction false} CalmCompletes(p: Progress, cfg: Config, items: seq<Item>)
    requires !p.raised && Calm(cfg, items)
    ensures !RedirectAll(p, cfg, items).raised
    decreases |items|
  {
    if items != [] {
      var (uid, s) := (items[0].uid, items[0].script);
      RoundExactly(p, cfg, uid, s);
      hide Redirect, FetchRaises, RemovalRaises, Appends;
      assert !FetchRaises(items[0].script) && !RemovalRaises(cfg, items[0].script);
      CalmCompletes(Redirect(p, cfg, uid, s), cfg, items[1..]);
    }
  }

  /** The worlds of a round whose message is fetched: after the fetch, after the append, at the end. */
  lemma RoundWorlds(p: Progress, cfg: Config, uid: nat, s: Script) returns (w1: World, raw: Bytes, w2: World)
    requires !cfg.dryRun && Fetches(p.world, uid, s)
    ensures (w1, Got(raw)) == FetchRaw(p.world, uid, s.fetchSelect, s.fetch)
    ensures (w2, s.append.reply.OK?) == AppendMessage(w1, uid, raw, s.append)
    ensures Redirect(p, cfg, uid, s).world == if s.append.reply.OK? then RemoveSource(w2, cfg, uid, s).0 else w2
  {
    var (w, f) := FetchRaw(p.world, uid, s.fetchSelect, s.fetch);
    FetchedExactly(p.world, uid, s);
    w1, raw := w, f.raw;
    AppendAnswers(w1, uid, raw, s.append);
    hide FetchRaw, AppendMessage, RemoveSource, Fetches;
    w2 := AppendMessage(w1, uid, raw, s.append).0;
  }

  lemma AppendedIsSafe(w: World, uid: nat, raw: Bytes, append: Call)
    requires Sound(w) && uid in w.src.msgs && raw == w.born[uid] && append.Took()
    ensures var w' := AppendMessage(w, uid, raw, append).0;
      Safe(w', w', uid) && uid < w'.src.next
  {
    AppendKeeps(w, uid, raw, append);
    hide AppendMessage, Accounted;
    FollowsItself(AppendMessage(w, uid, raw, append).0);
  }

  lemma SafeMeans(w0: World, w: World, uid: nat)
    requires Safe(w0, w, uid)
    ensures uid in w.born && Copy(uid, w.born[uid]) in w.target
  {
  }

  /** After its round a message that was fetched and whose append took effect is in the destination, and gone if its removal was clean. */
  lemma RoundDelivers(p: Progress, cfg: Config, uid: nat, s: Script)
    requires Sound(p.world) && !cfg.dryRun && Fetches(p.world, uid, s) && s.append.Took()
    ensures var w := Redirect(p, cfg, uid, s).world;
      && uid in w.born && Copy(uid, w.born[uid]) in w.target
      && (s.append.reply.OK? && RemovalClean(cfg, uid, s) ==> Left(w, uid))
  {
    hide *;
    var w1, raw, w2 := RoundWorlds(p, cfg, uid, s);
    FetchKeeps(p.world, uid, s.fetchSelect, s.fetch);
    AppendedIsSafe(w1, uid, raw, s.append);
    RemoveSafe(w2, w2, cfg, uid, s);
    SafeMeans(w2, w2, uid);
    SafeMeans(w2, RemoveSource(w2, cfg, uid, s).0, uid);
    if RemovalClean(cfg, uid, s) {
      RemoveClean(w2, cfg, uid, s);
    }
  }

  lemma LaterKeeps(p: Progress, cfg: Config, items: seq<Item>, uid: nat)
    requires Sound(p.world) && uid in p.world.born && Copy(uid, p.world.born[uid]) in p.world.target
    ensures var w := RedirectAll(p, cfg, items).world;
      && uid in w.born && w.born[uid] == p.world.born[uid] && Copy(uid, w.born[uid]) in w.target
      && (Left(p.world, uid) ==> Left(w, uid))
  {
    hide RedirectAll;
    RedirectAllKeeps(p, cfg, items);
  }

  /** What is said below of the message with this UID in the end. */
  predicate Delivered(w: World, cfg: Config, uid: nat, s: Script) {
    && uid in w.born && Copy(uid, w.born[uid]) in w.target
    && (s.append.reply.OK? && RemovalClean(cfg, uid, s) ==> uid !in w.src.msgs)
  }

  lemma TurnDelivers(p: Progress, cfg: Config, items: seq<Item>)
    requires Sound(p.world) && !p.raised && !cfg.dryRun && items != []
    requires Fetches(p.world, items[0].uid, items[0].script) && items[0].script.append.Took()
    ensures Delivered(RedirectAll(p, cfg, items).world, cfg, items[0].uid, items[0].script)
  {
    hide Redirect, Fetches, RemovalClean, Sound, Follows;
    var (uid, s) := (items[0].uid, items[0].script);
    RoundDelivers(p, cfg, uid, s);
    RedirectKeeps(p, cfg, uid, s);
    LaterKeeps(Redirect(p, cfg, uid, s), cfg, items[1..], uid);
  }

  /**
   In a calm pass every message that is fetched in its turn and appended reaches the
   destination, verbatim, and leaves the source folder if its own removal is clean, whatever
   happens to the messages before and after it.
   */
  lemma DeliveredDespiteOthers(w: World, cfg: Config, items: seq<Item>, k: nat)
    requires Sound(w) && Calm(cfg, items) && !cfg.dryRun && k < |items|
    requires Fetches(Run(w, cfg, Listed(items[..k])).world, items[k].uid, items[k].script) && items[k].script.append.Took()
    ensures !Run(w, cfg, Listed(items)).raised
    ensures Delivered(Run(w, cfg, Listed(items)).world, cfg, items[k].uid, items[k].script)
  {
    var p := Progress(w, [], 0, 0, false);
    CalmPrefix(cfg, items, k);
    hide RedirectAll, Fetches, Sound, Follows, Calm, Delivered;
    var before := RedirectAll(p, cfg, items[..k]);
    CalmCompletes(p, cfg, items);
    CalmCompletes(p, cfg, items[..k]);
    RedirectAllKeeps(p, cfg, items[..k]);
    Continues(p, cfg, items, k);
    assert items[k..][0] == items[k];
    TurnDelivers(before, cfg, items[k..]);
  }

  lemma CalmPrefix(cfg: Config, items: seq<Item>, k: nat)
    requires Calm(cfg, items) && k <= |items|
    ensures Calm(cfg, items[..k])
  {
    hide FetchRaises, RemovalRaises;
  }
}
