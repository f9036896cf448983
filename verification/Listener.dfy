/**
 From user events to mailbox operations: which mailbox a user has, and the capture of a
 mailbox before its user is deleted.
 */
module Listener {
  import opened Options
  import opened Migadu

  /** A user at the time of an event; no email address is the empty string. */
  datatype User = User(uid: string, email: string)

  datatype Config = Config(acc: Account, domain: string, exclude: string)

  datatype Resolution = NoMailbox | Mailbox(address: Address) | Malformed

  datatype Event =
    | NewPassword(user: User, password: string, encodable: bool)
    | CreatedWithoutPassword(user: User)
    | BeforeDeleted(user: User)
    | Deleted(uid: string)

  // ----- which mailbox a user has -----

  predicate Blank(c: char) {
    c in {' ', '\t', '\n', '\r', '\0', '\U{0B}'}
  }

  function Trim(s: string): string
    decreases |s|
  {
    if s == [] then []
    else if Blank(s[0]) then Trim(s[1..])
    else if Blank(s[|s| - 1]) then Trim(s[..|s| - 1])
    else s
  }

  function LowerChar(c: char): char {
    if 'A' <= c <= 'Z' then c + 32 as char else c
  }

  function Lower(s: string): string {
    seq(|s|, k requires 0 <= k < |s| => LowerChar(s[k]))
  }

  function Normal(s: string): string {
    Lower(Trim(s))
  }

  /** explode(c, s, 2) padded with "": what stands before and after the first c. */
  function Halves(s: string, c: char): (string, string) {
    if s == [] then ("", "")
    else if s[0] == c then ("", s[1..])
    else
      var (before, after) := Halves(s[1..], c);
      ([s[0]] + before, after)
  }

  function Explode(s: string, c: char): seq<string> {
    if s == [] then [""]
    else
      var rest := Explode(s[1..], c);
      if s[0] == c then [""] + rest else [[s[0]] + rest[0]] + rest[1..]
  }

  function ExcludedUids(exclude: string): set<string> {
    set uid | uid in Explode(exclude, ',') && Trim(uid) != "" :: Trim(uid)
  }

  /** resolveMailbox */
  function Resolve(cfg: Config, user: User): Resolution {
    if user.uid in ExcludedUids(cfg.exclude) then NoMailbox
    else
      var email := Normal(user.email);
      var domain := Normal(cfg.domain);
      var (local, mailDomain) := Halves(email, '@');
      if email == "" || domain == "" || mailDomain != domain then NoMailbox
      else if local == "" then Malformed
      else Mailbox(Address(local, domain))
  }

  lemma {:induction false} HalvesMeans(s: string, c: char)
    ensures var (before, after) := Halves(s, c);
            c !in before && if c in s then s == before + [c] + after else s == before && after == ""
  {
    if s != [] && s[0] != c {
      HalvesMeans(s[1..], c);
    }
  }

  lemma {:induction false} HalvesOf(before: string, c: char, after: string)
    requires c !in before
    ensures Halves(before + [c] + after, c) == (before, after)
  {
    var s := before + [c] + after;
    if before != [] {
      HalvesOf(before[1..], c, after);
      assert s[1..] == before[1..] + [c] + after;
      assert before == [before[0]] + before[1..];
    } else {
      assert s[1..] == after;
    }
  }

  // ----- what the text functions mean -----

  /** Space, tab, line feed, carriage return, NUL and vertical tab. */
  predicate IsBlank(c: char) {
    var n := c as int;
    n == 32 || n == 9 || n == 10 || n == 13 || n == 0 || n == 11
  }

  lemma BlankIs(c: char)
    ensures Blank(c) <==> IsBlank(c)
  {
  }

  lemma TrimStep(s: string)
    ensures s == "" ==> Trim(s) == ""
    ensures s != "" && Blank(s[0]) ==> Trim(s) == Trim(s[1..])
    ensures s != "" && !Blank(s[0]) && Blank(s[|s| - 1]) ==> Trim(s) == Trim(s[..|s| - 1])
    ensures s != "" && !Blank(s[0]) && !Blank(s[|s| - 1]) ==> Trim(s) == s
  {
    hide Blank;
  }

  /** Outside i and j stand blanks only, and none at the ends between them. */
  predicate IsCore(s: string, i: nat, j: nat) {
    && i <= j <= |s|
    && (forall k :: 0 <= k < i ==> IsBlank(s[k]))
    && (forall k :: j <= k < |s| ==> IsBlank(s[k]))
    && (i < j ==> !IsBlank(s[i]) && !IsBlank(s[j - 1]))
  }

  lemma CoreFront(s: string, t: string, i: nat, j: nat)
    requires s != "" && IsBlank(s[0]) && t == s[1..] && IsCore(t, i, j)
    ensures IsCore(s, i + 1, j + 1) && s[i + 1..j + 1] == t[i..j]
  {
    assert forall k :: 1 <= k < |s| ==> s[k] == t[k - 1];
  }

  lemma CoreBack(s: string, t: string, i: nat, j: nat)
    requires s != "" && IsBlank(s[|s| - 1]) && t == s[..|s| - 1] && IsCore(t, i, j)
    ensures IsCore(s, i, j) && s[i..j] == t[i..j]
  {
  }

  /** trim keeps what stands between the first and the last character that is not blank. */
  lemma {:induction false} TrimMeans(s: string) returns (i: nat, j: nat)
    ensures IsCore(s, i, j) && Trim(s) == s[i..j]
    decreases |s|
  {
    i, j := 0, |s|;
    TrimStep(s);
    assert s[0..|s|] == s;
    if s != "" {
      BlankIs(s[0]);
      BlankIs(s[|s| - 1]);
      if Blank(s[0]) {
        hide *;
        i, j := TrimMeans(s[1..]);
        CoreFront(s, s[1..], i, j);
        i, j := i + 1, j + 1;
      } else if Blank(s[|s| - 1]) {
        hide *;
        i, j := TrimMeans(s[..|s| - 1]);
        CoreBack(s, s[..|s| - 1], i, j);
      } else {
        hide Trim, Blank, IsBlank;
      }
    }
  }

  /** strtolower changes the 26 capitals, each into its small letter. */
  lemma LowerMeans(s: string, k: nat)
    requires k < |s|
    ensures |Lower(s)| == |s|
    ensures 'A' <= s[k] <= 'Z' ==> Lower(s)[k] == "abcdefghijklmnopqrstuvwxyz"[(s[k] - 'A') as nat]
    ensures !('A' <= s[k] <= 'Z') ==> Lower(s)[k] == s[k]
  {
  }

  function Join(pieces: seq<string>, c: char): string
    requires pieces != []
  {
    if |pieces| == 1 then pieces[0] else pieces[0] + [c] + Join(pieces[1..], c)
  }

  lemma {:induction false} ExplodePiece(piece: string, c: char, rest: string)
    requires c !in piece
    ensures Explode(piece, c) == [piece]
    ensures Explode(piece + [c] + rest, c) == [piece] + Explode(rest, c)
  {
    var s := piece + [c] + rest;
    if piece == "" {
      assert s[1..] == rest;
    } else {
      ExplodePiece(piece[1..], c, rest);
      assert s[1..] == piece[1..] + [c] + rest;
      assert piece == [piece[0]] + piece[1..];
    }
  }

  /** explode undoes joining pieces without the separator. */
  lemma {:induction false} ExplodeJoined(pieces: seq<string>, c: char)
    requires pieces != [] && (forall p :: p in pieces ==> c !in p)
    ensures Explode(Join(pieces, c), c) == pieces
  {
    assert pieces[0] in pieces;
    if |pieces| > 1 {
      ExplodeJoined(pieces[1..], c);
      ExplodePiece(pieces[0], c, Join(pieces[1..], c));
    } else {
      ExplodePiece(pieces[0], c, "");
    }
  }

  /** The excluded users are the trimmed, non-empty items of the comma-separated setting. */
  lemma ExcludedMeans(items: seq<string>, uid: string)
    requires items != [] && (forall p :: p in items ==> ',' !in p)
    ensures uid in ExcludedUids(Join(items, ',')) <==> uid != "" && exists p :: p in items && Trim(p) == uid
  {
    ExplodeJoined(items, ',');
  }

  /**
   A user has mailbox local@domain exactly when they are not excluded and their normalised
   address is that mailbox, on the configured domain; only "@domain" is malformed.
   */
  lemma ResolveExactly(cfg: Config, user: User, local: string, domain: string)
    ensures Resolve(cfg, user) == Mailbox(Address(local, domain)) <==>
      && user.uid !in ExcludedUids(cfg.exclude)
      && domain == Normal(cfg.domain) != ""
      && local != ""
      && '@' !in local
      && Normal(user.email) == local + "@" + domain
    ensures Resolve(cfg, user).Malformed? <==>
      && user.uid !in ExcludedUids(cfg.exclude)
      && Normal(cfg.domain) != ""
      && Normal(user.email) == "@" + Normal(cfg.domain)
  {
    var email := Normal(user.email);
    hide Normal, ExcludedUids, Halves;
    HalvesMeans(email, '@');
    if '@' !in local {
      HalvesOf(local, '@', domain);
    }
    HalvesOf("", '@', Normal(cfg.domain));
    assert "" + "@" + Normal(cfg.domain) == "@" + Normal(cfg.domain);
  }

  // ----- the listener -----

  datatype System = System(st: State, pending: map<string, Option<Address>>)

  function Handled(cfg: Config, s: System, e: Event): System {
    match e
    case BeforeDeleted(user) =>
      var r := Resolve(cfg, user);
      s.(pending := s.pending[user.uid := if r.Mailbox? then Some(r.address) else None])
    case Deleted(uid) =>
      if uid !in s.pending then s
      else
        var captured := s.pending[uid];
        System(if captured.Some? then Remove(cfg.acc, s.st, captured.value).0 else s.st, s.pending - {uid})
    case NewPassword(user, password, encodable) =>
      var r := Resolve(cfg, user);
      if r.Mailbox? then s.(st := Sync(cfg.acc, s.st, r.address, password, encodable).0) else s
    case CreatedWithoutPassword(_) => s
  }

  function Run(cfg: Config, s: System, events: seq<Event>): System {
    if events == [] then s
    else Handled(cfg, Run(cfg, s, events[..|events| - 1]), events[|events| - 1])
  }

  class PasswordSyncListener {
    const cfg: Config
    const provider: Provider
    var pendingDeletions: map<string, Option<Address>>

    constructor (cfg: Config, provider: Provider)
      requires provider.acc == cfg.acc
      ensures this.cfg == cfg && this.provider == provider && pendingDeletions == map[] && Valid()
    {
      this.cfg, this.provider, this.pendingDeletions := cfg, provider, map[];
    }

    ghost predicate Valid() {
      provider.acc == cfg.acc
    }

    function Now(): System
      reads this, provider
    {
      System(provider.Now(), pendingDeletions)
    }

    /** Failures of the provider are logged and go no further. */
    method Handle(e: Event)
      requires Valid()
      modifies this, provider
      ensures Now() == Handled(cfg, old(Now()), e)
    {
      match e
      case BeforeDeleted(user) =>
        CaptureMailboxForDeletion(user);
      case Deleted(uid) =>
        DeleteCapturedMailbox(uid);
      case NewPassword(user, password, encodable) =>
        var r := Resolve(cfg, user);
        if r.Mailbox? {
          var outcome := provider.SyncMailbox(r.address, password, encodable);
        }
      case CreatedWithoutPassword(_) =>
    }

    method CaptureMailboxForDeletion(user: User)
      modifies this
      ensures pendingDeletions == old(pendingDeletions)[user.uid := match Resolve(cfg, user) case Mailbox(a) => Some(a) case _ => None]
    {
      var r := Resolve(cfg, user);
      pendingDeletions := pendingDeletions[user.uid := if r.Mailbox? then Some(r.address) else None];
    }

    method DeleteCapturedMailbox(uid: string)
      requires Valid()
      modifies this, provider
      ensures Now() == Handled(cfg, old(Now()), Deleted(uid))
    {
      if uid !in pendingDeletions {
        return;
      }
      var mailbox := pendingDeletions[uid];
      pendingDeletions := pendingDeletions - {uid};
      if mailbox == None {
        return;
      }
      var outcome := provider.DeleteMailbox(mailbox.value);
    }
  }
}
