/** What holds over every run of redirect passes, whatever fails and whoever else uses the folder. */
module RedirectionSafety {
  import opened Mailbox
  import opened Redirection

  // ----- no mail is lost -----

  /** Message u is still in the source folder, was taken by somebody else, or has a verbatim copy. */
  ghost predicate Accounted(w: World, u: nat)
    requires u in w.born
  {
    u in w.src.msgs || u in w.gone || Copy(u, w.born[u]) in w.target || Copy(u, w.born[u]) in w.archive
  }

  /**
   The bytes in the source folder are the ones that arrived.  Whatever others have flagged:
   each message that they did not flag is accounted for and, if flagged, has been appended.
   */
  ghost predicate Sound(w: World) {
    && (forall u :: u in w.born ==> u < w.src.next)
    && (forall u :: u in w.src.msgs ==> u in w.born && u !in w.gone && w.src.msgs[u].raw == w.born[u])
    && (forall u :: u in w.gone ==> u < w.src.next)
    && (forall u :: u in w.src.msgs && w.src.msgs[u].deleted && u !in w.foreign ==> Copy(u, w.born[u]) in w.target)
    && (forall u :: u in w.born && u !in w.foreign ==> Accounted(w, u))
  }

  /** History only grows, and a UID that has left the source folder does not come back. */
  ghost predicate Follows(w: World, w': World) {
    && w.target <= w'.target && w.archive <= w'.archive && w.gone <= w'.gone && w.foreign <= w'.foreign && w.src.next <= w'.src.next
    && (forall u :: u in w.born ==> u in w'.born && w'.born[u] == w.born[u])
    && (forall u :: u in w'.src.msgs && u < w.src.next ==> u in w.src.msgs)
  }

  lemma FollowsItself(w: World)
    ensures Follows(w, w)
  {
  }

  lemma FollowsTransitive(w0: World, w1: World, w2: World)
    requires Follows(w0, w1) && Follows(w1, w2)
    ensures Follows(w0, w2)
  {
  }

  /** What other clients do changes nothing but flags in messages they leave in place. */
  ghost predicate Undisturbed(w: World, w': World) {
    && w'.target == w.target && w'.archive == w.archive
    && (forall u :: u in w'.src.msgs && u < w.src.next ==> u in w.src.msgs && w'.src.msgs[u].raw == w.src.msgs[u].raw)
    && (forall u :: u in w'.src.msgs && u < w.src.next && u !in w'.foreign && w'.src.msgs[u].deleted ==> w.src.msgs[u].deleted)
    && (forall u :: u in w'.src.msgs && u >= w.src.next && u !in w'.foreign ==> !w'.src.msgs[u].deleted)
    && (forall u :: u in w.src.msgs ==> u in w'.src.msgs || u in w'.gone)
  }

  lemma {:induction false} ArriveKeeps(w: World, arrivals: seq<Bytes>)
    requires Sound(w)
    ensures Sound(Arrive(w, arrivals)) && Follows(w, Arrive(w, arrivals)) && Undisturbed(w, Arrive(w, arrivals))
    decreases |arrivals|
  {
    if arrivals != [] {
      var w1 := w.(src := w.src.Add(arrivals[0]), born := w.born[w.src.next := arrivals[0]]);
      assert Sound(w1) by {
        forall u | u in w1.born && u !in w1.foreign ensures Accounted(w1, u) {
          assert u != w.src.next ==> Accounted(w, u);
        }
      }
      assert Follows(w, w1) && Undisturbed(w, w1);
      ArriveKeeps(w1, arrivals[1..]);
    }
  }

  lemma TakeKeeps(w: World, uids: set<nat>)
    requires Sound(w)
    ensures Sound(Take(w, uids)) && Follows(w, Take(w, uids)) && Undisturbed(w, Take(w, uids))
  {
    var w1 := Take(w, uids);
    forall u | u in w1.born && u !in w1.foreign ensures Accounted(w1, u) {
      assert Accounted(w, u);
    }
  }

  lemma ReflagKeeps(w: World, flagged: set<nat>, cleared: set<nat>)
    requires Sound(w)
    ensures var w1 := Reflag(w, flagged, cleared); Sound(w1) && Follows(w, w1) && Undisturbed(w, w1)
  {
    var w1 := Reflag(w, flagged, cleared);
    forall u | u in w1.born && u !in w1.foreign ensures Accounted(w1, u) {
      assert Accounted(w, u);
    }
  }

  lemma PassKeeps(w: World, m: Meanwhile)
    requires Sound(w)
    ensures Sound(Pass(w, m)) && Follows(w, Pass(w, m)) && Undisturbed(w, Pass(w, m))
  {
    var w1 := Arrive(w, m.arrivals);
    var w2 := Take(w1, m.taken);
    ArriveKeeps(w, m.arrivals);
    TakeKeeps(w1, m.taken);
    ReflagKeeps(w2, m.flagged, m.cleared);
    hide Sound, Arrive, Take, Reflag;
    UndisturbedTwice(w, w1, w2);
    UndisturbedTwice(w, w2, Pass(w, m));
  }

  lemma UndisturbedTwice(w: World, w1: World, w2: World)
    requires Follows(w, w1) && Follows(w1, w2) && Undisturbed(w, w1) && Undisturbed(w1, w2)
    ensures Follows(w, w2) && Undisturbed(w, w2)
  {
  }

  lemma FetchKeeps(w: World, uid: nat, select: Call, fetch: Call)
    requires Sound(w)
    ensures var (w', f) := FetchRaw(w, uid, select, fetch);
      && Sound(w') && Follows(w, w') && Undisturbed(w, w')
      && (f.Got? ==> uid in w'.src.msgs && f.raw == w'.born[uid])
  {
    hide Sound, Follows, Undisturbed, Pass;
    PassKeeps(w, select.before);
    var w1 := Pass(w, select.before);
    PassKeeps(w1, fetch.before);
    FetchFollows(w, w1, Pass(w1, fetch.before));
  }

  lemma FetchFollows(w: World, w1: World, w2: World)
    requires Follows(w, w1) && Follows(w1, w2) && Undisturbed(w, w1) && Undisturbed(w1, w2) && Sound(w2)
    ensures Follows(w, w2) && Undisturbed(w, w2)
    ensures forall u :: u in w2.src.msgs ==> u in w2.born && w2.src.msgs[u].raw == w2.born[u]
  {
  }

  lemma AppendKeeps(w: World, uid: nat, raw: Bytes, append: Call)
    requires Sound(w) && uid in w.born && raw == w.born[uid]
    ensures var (w', ok) := AppendMessage(w, uid, raw, append);
      && Sound(w') && Follows(w, w') && (append.Took() ==> Safe(w, w', uid))
  {
    PassKeeps(w, append.before);
    var w1 := Pass(w, append.before);
    if append.Took() {
      TargetGrows(w1, Copy(uid, raw));
      FollowsTransitive(w, w1, w1.(target := w1.target + [Copy(uid, raw)]));
    }
  }

  lemma TargetGrows(w: World, c: Copy)
    requires Sound(w)
    ensures Sound(w.(target := w.target + [c])) && Follows(w, w.(target := w.target + [c]))
  {
    var w1 := w.(target := w.target + [c]);
    forall u | u in w1.born && u !in w1.foreign ensures Accounted(w1, u) {
      assert Accounted(w, u);
    }
  }

  /** A state after w0, in which uid has been appended. */
  ghost predicate Safe(w0: World, w: World, uid: nat) {
    Sound(w) && Follows(w0, w) && uid in w.born && Copy(uid, w.born[uid]) in w.target
  }

  lemma WaitSafe(w0: World, w: World, uid: nat, m: Meanwhile)
    requires Safe(w0, w, uid)
    ensures Safe(w0, Pass(w, m), uid)
  {
    PassKeeps(w, m);
  }

  lemma CopySafe(w0: World, w: World, uid: nat)
    requires Safe(w0, w, uid)
    ensures Safe(w0, CopyTo(w, uid), uid) && Safe(w0, MoveTo(w, uid), uid)
  {
    var w1, w2 := CopyTo(w, uid), MoveTo(w, uid);
    forall u | u in w1.born && u !in w1.foreign ensures Accounted(w1, u) && Accounted(w2, u) {
      assert Accounted(w, u);
    }
  }

  lemma FlagSafe(w0: World, w: World, uid: nat)
    requires Safe(w0, w, uid)
    ensures Safe(w0, w.(src := w.src.Flag(uid)), uid)
  {
    var w1 := w.(src := w.src.Flag(uid));
    forall u | u in w1.born && u !in w1.foreign ensures Accounted(w1, u) {
      assert Accounted(w, u);
    }
  }

  /** The folder-wide EXPUNGE only removes messages that have been appended or that others flagged. */
  lemma ExpungeSafe(w0: World, w: World, uid: nat, expunge: Call)
    requires Safe(w0, w, uid)
    ensures Safe(w0, Expunge(w, expunge), uid)
  {
    var w1 := Pass(w, expunge.before);
    WaitSafe(w0, w, uid, expunge.before);
    hide Pass;
    var w2 := w1.(src := w1.src.Expunge());
    forall u | u in w2.born && u !in w2.foreign ensures Accounted(w2, u) {
      assert Accounted(w1, u);
    }
  }

  lemma SetDeletedSafe(w0: World, w: World, uid: nat, select: Call, store: Call)
    requires Safe(w0, w, uid)
    ensures Safe(w0, SetDeleted(w, uid, select, store).0, uid)
  {
    hide Safe, Pass;
    var w1 := Pass(w, select.before);
    WaitSafe(w0, w, uid, select.before);
    WaitSafe(w0, w1, uid, store.before);
    FlagSafe(w0, Pass(w1, store.before), uid);
  }

  lemma FallbackSafe(w0: World, w: World, uid: nat, copy: Call, store: Call, expunge: Call)
    requires Safe(w0, w, uid)
    ensures Safe(w0, MoveFallback(w, uid, copy, store, expunge).0, uid)
  {
    hide Safe, Pass, CopyTo, Expunge;
    var w1 := Pass(w, copy.before);
    WaitSafe(w0, w, uid, copy.before);
    CopySafe(w0, w1, uid);
    var w2 := if copy.Took() then CopyTo(w1, uid) else w1;
    WaitSafe(w0, w2, uid, store.before);
    var w3 := Pass(w2, store.before);
    FlagSafe(w0, w3, uid);
    ExpungeSafe(w0, if store.Took() then w3.(src := w3.src.Flag(uid)) else w3, uid, expunge);
  }

  lemma MoveSafe(w0: World, w: World, uid: nat, s: Script)
    requires Safe(w0, w, uid)
    ensures Safe(w0, MoveMessage(w, uid, s.select, s.move, s.copy, s.store, s.expunge).0, uid)
  {
    hide Safe, Pass, MoveTo, MoveFallback;
    var w1 := Pass(w, s.select.before);
    WaitSafe(w0, w, uid, s.select.before);
    WaitSafe(w0, w1, uid, s.move.before);
    var w2 := Pass(w1, s.move.before);
    CopySafe(w0, w2, uid);
    FallbackSafe(w0, if s.move.Took() then MoveTo(w2, uid) else w2, uid, s.copy, s.store, s.expunge);
  }

  lemma RemoveSafe(w0: World, w: World, cfg: Config, uid: nat, s: Script)
    requires Safe(w0, w, uid)
    ensures Safe(w0, RemoveSource(w, cfg, uid, s).0, uid)
  {
    hide Safe, SetDeleted, Expunge, MoveMessage;
    if cfg.archiving {
      MoveSafe(w0, w, uid, s);
    } else {
      SetDeletedSafe(w0, w, uid, s.select, s.store);
      ExpungeSafe(w0, SetDeleted(w, uid, s.select, s.store).0, uid, s.expunge);
    }
  }

  lemma RedirectKeeps(p: Progress, cfg: Config, uid: nat, s: Script)
    requires Sound(p.world)
    ensures var p' := Redirect(p, cfg, uid, s); Sound(p'.world) && Follows(p.world, p'.world)
  {
    hide Undisturbed, Accounted, FetchRaw, AppendMessage, RemoveSource;
    var w := p.world;
    var (w1, f) := FetchRaw(w, uid, s.fetchSelect, s.fetch);
    FetchKeeps(w, uid, s.fetchSelect, s.fetch);
    if f.Got? && !cfg.dryRun {
      assert uid in w1.born;
      hide Sound, Follows, FetchRaw, AppendMessage, RemoveSource;
      AppendKeeps(w1, uid, f.raw, s.append);
      var (w2, ok) := AppendMessage(w1, uid, f.raw, s.append);
      FollowsTransitive(w, w1, w2);
      if ok {
        AcceptedTook(w1, uid, f.raw, s.append);
        RemoveSafe(w2, w2, cfg, uid, s) by { FollowsItself(w2); }
        FollowsTransitive(w, w2, RemoveSource(w2, cfg, uid, s).0);
      }
    }
  }

  lemma AcceptedTook(w: World, uid: nat, raw: Bytes, append: Call)
    ensures AppendMessage(w, uid, raw, append).1 ==> append.Took()
  {
    hide Pass;
  }

  lemma {:induction false} RedirectAllKeeps(p: Progress, cfg: Config, items: seq<Item>)
    requires Sound(p.world)
    ensures var p' := RedirectAll(p, cfg, items); Sound(p'.world) && Follows(p.world, p'.world)
    decreases |items|
  {
    if items == [] || p.raised {
      FollowsItself(p.world);
    } else {
      hide Sound, Follows, Redirect;
      var p1 := Redirect(p, cfg, items[0].uid, items[0].script);
      RedirectKeeps(p, cfg, items[0].uid, items[0].script);
      RedirectAllKeeps(p1, cfg, items[1..]);
      FollowsTransitive(p.world, p1.world, RedirectAll(p1, cfg, items[1..]).world);
    }
  }

  /** Passes one after another; what happens between two passes is part of the next one's calls. */
  function Passes(w: World, cfg: Config, setups: seq<Setup>): World
    decreases |setups|
  {
    if setups == [] then w else Passes(Run(w, cfg, setups[0]).world, cfg, setups[1..])
  }

  /**
   No mail is lost: over every run of passes with any pattern of failures, and whatever other
   clients flag, take and deliver meanwhile, each message that they did not flag stays
   accounted for, bytes unchanged.
   */
  lemma {:induction false} NothingLost(w: World, cfg: Config, setups: seq<Setup>)
    requires Sound(w)
    ensures Sound(Passes(w, cfg, setups)) && Follows(w, Passes(w, cfg, setups))
    ensures var w' := Passes(w, cfg, setups);
      forall u :: u in w.born && u !in w'.foreign ==> w'.born[u] == w.born[u] && Accounted(w', u)
    decreases |setups|
  {
    if setups == [] {
      FollowsItself(w);
    } else {
      hide Sound, Follows, RedirectAll;
      var p := Run(w, cfg, setups[0]);
      RedirectAllKeeps(Progress(w, [], 0, 0, setups[0].ConnectFails?), cfg, Items(setups[0]));
      NothingLost(p.world, cfg, setups[1..]);
      FollowsTransitive(w, p.world, Passes(p.world, cfg, setups[1..]));
    }
    StaysAccounted(w, Passes(w, cfg, setups));
  }

  lemma StaysAccounted(w: World, w': World)
    requires Sound(w') && Follows(w, w')
    ensures forall u :: u in w.born && u !in w'.foreign ==> u in w'.born && w'.born[u] == w.born[u] && Accounted(w', u)
  {
  }

  // ----- exactly what is lost -----

  /** u was accounted for and is not any more. */
  ghost predicate Loses(w: World, w': World, u: nat) {
    u in w.born && u in w'.born && Accounted(w, u) && !Accounted(w', u)
  }

  predicate Copied(w: World, u: nat)
    requires u in w.born
  {
    Copy(u, w.born[u]) in w.target || Copy(u, w.born[u]) in w.archive
  }

  /**
   An EXPUNGE that takes effect loses exactly the messages that are flagged in the folder and
   have no verbatim copy; these are messages that other clients flagged.
   */
  lemma ExpungeLosesExactly(w: World, expunge: Call, u: nat)
    requires Sound(w) && expunge.Took()
    ensures var w1 := Pass(w, expunge.before);
      && (Loses(w1, Expunge(w, expunge), u) <==> u in w1.src.msgs && w1.src.msgs[u].deleted && u in w1.born && !Copied(w1, u))
      && (Loses(w1, Expunge(w, expunge), u) ==> u in w1.foreign)
  {
    PassKeeps(w, expunge.before);
    hide Pass;
  }
}
