/**
 Repeat offenders: spam hits per sender domain, and the block that follows at the threshold.
 Clock readings and the fate of a script upload are inputs.
 */
module AutoBlock {
  import opened Options
  import opened SieveScript
  import SieveReader

  datatype Row = Row(account: string, domain: string, hits: nat, lastSeen: int, blocked: bool)

  datatype Config = Config(enabled: bool, threshold: nat, window: nat)

  /** Dry runs and missing passwords make no upload. */
  datatype Upload = NotMade | Accepted | Refused

  /** One message classified as spam; registered and counted are the clock readings of the two queries. */
  datatype Event = Event(account: string, domain: string, sieve: bool, registered: int, counted: int, upload: Upload)

  datatype Entry = Entry(account: string, domain: string)

  /** rows is the table block_candidates, audit the "sieve_block" entries, server the active script of each account. */
  datatype State = State(rows: seq<Row>, audit: seq<Entry>, server: map<string, string>)

  predicate IsKey(r: Row, account: string, domain: string) {
    r.account == account && r.domain == domain
  }

  function Select(rows: seq<Row>, account: string, domain: string): Option<Row> {
    if rows == [] then None
    else if IsKey(rows[0], account, domain) then Some(rows[0])
    else Select(rows[1..], account, domain)
  }

  /** UPDATE ... WHERE: every row with the key becomes r. */
  function Update(rows: seq<Row>, r: Row): seq<Row> {
    if rows == [] then []
    else [if IsKey(rows[0], r.account, r.domain) then r else rows[0]] + Update(rows[1..], r)
  }

  function WithHit(rows: seq<Row>, account: string, domain: string, now: int): seq<Row> {
    match Select(rows, account, domain)
    case None => rows + [Row(account, domain, 1, now, false)]
    case Some(r) => Update(rows, r.(hits := r.hits + 1, lastSeen := now))
  }

  function RecentHits(rows: seq<Row>, account: string, domain: string, cutoff: int): nat {
    match Select(rows, account, domain)
    case None => 0
    case Some(r) => if r.lastSeen >= cutoff then r.hits else 0
  }

  function WithBlock(rows: seq<Row>, account: string, domain: string): seq<Row> {
    match Select(rows, account, domain)
    case None => rows
    case Some(r) => Update(rows, r.(blocked := true))
  }

  function ListBlocked(rows: seq<Row>, account: string): seq<string> {
    if rows == [] then []
    else
      var rest := ListBlocked(rows[1..], account);
      if rows[0].account == account && rows[0].blocked then [rows[0].domain] + rest else rest
  }

  predicate Tracked(cfg: Config, e: Event) {
    cfg.enabled && e.domain != "" && e.sieve
  }

  /** The event reaches the point where a block is recorded. */
  predicate ReachesBlock(cfg: Config, rows: seq<Row>, e: Event) {
    var r := Select(rows, e.account, e.domain);
    && r.Some?
    && r.value.hits >= cfg.threshold
    && RecentHits(rows, e.account, e.domain, e.counted - cfg.window) >= cfg.threshold
    && e.domain !in ListBlocked(rows, e.account)
  }

  function Registered(cfg: Config, s: State, e: Event): State {
    if !Tracked(cfg, e) then s
    else
      var rows := WithHit(s.rows, e.account, e.domain, e.registered);
      if !ReachesBlock(cfg, rows, e) then s.(rows := rows)
      else
        var blocked := WithBlock(rows, e.account, e.domain);
        var list := ListBlocked(blocked, e.account);
        State(blocked, s.audit + [Entry(e.account, e.domain)],
              if e.upload.Accepted? && list != [] then s.server[e.account := Script(list)] else s.server)
  }

  class Blocker {
    const cfg: Config
    var rows: seq<Row>
    var audit: seq<Entry>
    var server: map<string, string>

    constructor (cfg: Config)
      ensures this.cfg == cfg && Now() == START
    {
      this.cfg, rows, audit, server := cfg, [], [], map[];
    }

    function Now(): State
      reads this
    {
      State(rows, audit, server)
    }

    method RegisterHit(account: string, domain: string, now: int) returns (hits: nat)
      modifies this`rows
      ensures rows == WithHit(old(rows), account, domain, now)
      ensures Select(rows, account, domain).Some? && hits == Select(rows, account, domain).value.hits
    {
      var row := Select(rows, account, domain);
      if row == None {
        SelectAppend(rows, Row(account, domain, 1, now, false), account, domain);
        rows := rows + [Row(account, domain, 1, now, false)];
        return 1;
      }
      hits := row.value.hits + 1;
      SelectKey(rows, account, domain);
      SelectUpdate(rows, row.value.(hits := hits, lastSeen := now), account, domain);
      rows := Update(rows, row.value.(hits := hits, lastSeen := now));
    }

    method RecordBlock(account: string, domain: string)
      modifies this`rows
      ensures rows == WithBlock(old(rows), account, domain)
    {
      var row := Select(rows, account, domain);
      if row.Some? {
        rows := Update(rows, row.value.(blocked := true));
      }
    }

    method PushBlockScript(account: string, upload: Upload)
      modifies this`server
      ensures var list := ListBlocked(rows, account);
              server == if upload.Accepted? && list != [] then old(server)[account := Script(list)] else old(server)
    {
      var domains := ListBlocked(rows, account);
      var script := GenerateBlockScript(domains);
      if domains == [] {
        return;
      }
      if upload.Accepted? {
        server := server[account := script];
      }
    }

    /** _maybe_register_offender */
    method MaybeRegisterOffender(e: Event)
      modifies this
      ensures Now() == Registered(cfg, old(Now()), e)
    {
      if !cfg.enabled {
        return;
      }
      if e.domain == "" || !e.sieve {
        return;
      }
      var hits := RegisterHit(e.account, e.domain, e.registered);
      if hits < cfg.threshold {
        return;
      }
      var recent := RecentHits(rows, e.account, e.domain, e.counted - cfg.window);
      if recent < cfg.threshold {
        return;
      }
      if e.domain in ListBlocked(rows, e.account) {
        return;
      }
      RecordBlock(e.account, e.domain);
      audit := audit + [Entry(e.account, e.domain)];
      PushBlockScript(e.account, e.upload);
    }
  }

  // ----- the table as a map -----

  lemma {:induction false} SelectAppend(rows: seq<Row>, r: Row, account: string, domain: string)
    ensures Select(rows + [r], account, domain) ==
      if Select(rows, account, domain).Some? then Select(rows, account, domain)
      else if IsKey(r, account, domain) then Some(r) else None
  {
    if rows == [] {
      assert rows + [r] == [r] && [r][1..] == [];
    } else {
      SelectAppend(rows[1..], r, account, domain);
      assert (rows + [r])[1..] == rows[1..] + [r];
    }
  }

  lemma {:induction false} SelectUpdate(rows: seq<Row>, r: Row, account: string, domain: string)
    ensures Select(Update(rows, r), account, domain) ==
      if Select(rows, account, domain).Some? && IsKey(r, account, domain) then Some(r) else Select(rows, account, domain)
  {
    if rows != [] {
      SelectUpdate(rows[1..], r, account, domain);
    }
  }

  lemma {:induction false} SelectKey(rows: seq<Row>, account: string, domain: string)
    ensures Select(rows, account, domain).Some? ==> IsKey(Select(rows, account, domain).value, account, domain)
  {
    if rows != [] {
      SelectKey(rows[1..], account, domain);
    }
  }

  /** At most one row for each key. */
  predicate Keyed(rows: seq<Row>) {
    rows == [] || (Select(rows[1..], rows[0].account, rows[0].domain).None? && Keyed(rows[1..]))
  }

  lemma {:induction false} KeyedAppend(rows: seq<Row>, r: Row)
    requires Keyed(rows) && Select(rows, r.account, r.domain).None?
    ensures Keyed(rows + [r])
  {
    if rows == [] {
      assert rows + [r] == [r] && [r][1..] == [];
    } else {
      KeyedAppend(rows[1..], r);
      assert (rows + [r])[1..] == rows[1..] + [r];
      SelectAppend(rows[1..], r, rows[0].account, rows[0].domain);
    }
  }

  lemma {:induction false} KeyedUpdate(rows: seq<Row>, r: Row)
    requires Keyed(rows)
    ensures Keyed(Update(rows, r))
  {
    if rows != [] {
      KeyedUpdate(rows[1..], r);
      SelectUpdate(rows[1..], r, rows[0].account, rows[0].domain);
    }
  }

  predicate IsBlocked(rows: seq<Row>, account: string, domain: string) {
    var r := Select(rows, account, domain);
    r.Some? && r.value.blocked
  }

  lemma {:induction false} ListedIsBlocked(rows: seq<Row>, account: string, domain: string)
    requires Keyed(rows)
    ensures domain in ListBlocked(rows, account) <==> IsBlocked(rows, account, domain)
  {
    if rows != [] {
      ListedIsBlocked(rows[1..], account, domain);
      SelectKey(rows[1..], account, domain);
    }
  }

  // ----- runs -----

  const START := State([], [], map[])

  function Run(cfg: Config, events: seq<Event>): State {
    if events == [] then START
    else Registered(cfg, Run(cfg, events[..|events| - 1]), events[|events| - 1])
  }

  /** The spam messages of the domain in the history. */
  /** The event counts as a hit of this domain. */
  predicate IsHit(cfg: Config, e: Event, account: string, domain: string) {
    cfg.enabled && e.sieve && e.domain != "" && e.account == account && e.domain == domain
  }

  function Hits(cfg: Config, events: seq<Event>, account: string, domain: string): nat {
    if events == [] then 0
    else
      var e := events[|events| - 1];
      Hits(cfg, events[..|events| - 1], account, domain)
      + if IsHit(cfg, e, account, domain) then 1 else 0
  }

  function Count(audit: seq<Entry>, x: Entry): nat {
    if audit == [] then 0 else Count(audit[..|audit| - 1], x) + if audit[|audit| - 1] == x then 1 else 0
  }

  /** The count is read within one window of the registration. */
  predicate Prompt(cfg: Config, events: seq<Event>) {
    forall k :: 0 <= k < |events| ==> events[k].counted - cfg.window <= events[k].registered
  }

  /** What the table and the audit say of a domain with n hits that is blocked or not. */
  predicate Settled(s: State, account: string, domain: string, n: nat, blocked: bool) {
    var r := Select(s.rows, account, domain);
    && (r.None? <==> n == 0)
    && (r.Some? ==> r.value.hits == n && r.value.blocked == blocked)
    && Count(s.audit, Entry(account, domain)) == (if blocked then 1 else 0)
    && (blocked ==> n > 0)
  }

  /** Some spam message of the domain has brought its hits to the threshold or beyond, and was counted within the window. */
  predicate Reached(cfg: Config, events: seq<Event>, account: string, domain: string) {
    events != [] &&
    var (before, e) := (events[..|events| - 1], events[|events| - 1]);
    || Reached(cfg, before, account, domain)
    || (IsHit(cfg, e, account, domain)
        && Hits(cfg, events, account, domain) >= cfg.threshold && e.registered >= e.counted - cfg.window)
  }

  lemma {:induction false} RunKeyed(cfg: Config, events: seq<Event>)
    ensures Keyed(Run(cfg, events).rows)
  {
    if events != [] {
      RunKeyed(cfg, events[..|events| - 1]);
      StepKeyed(cfg, Run(cfg, events[..|events| - 1]), events[|events| - 1]);
    }
  }

  lemma HitKeyed(rows: seq<Row>, account: string, domain: string, now: int)
    requires Keyed(rows)
    ensures Keyed(WithHit(rows, account, domain, now))
  {
    hide Keyed;
    var r := Select(rows, account, domain);
    if r.Some? {
      KeyedUpdate(rows, r.value.(hits := r.value.hits + 1, lastSeen := now));
    } else {
      KeyedAppend(rows, Row(account, domain, 1, now, false));
    }
  }

  lemma StepKeyed(cfg: Config, s: State, e: Event)
    requires Keyed(s.rows)
    ensures Keyed(Registered(cfg, s, e).rows)
  {
    hide Keyed, ListBlocked, Script;
    HitKeyed(s.rows, e.account, e.domain, e.registered);
    var rows := WithHit(s.rows, e.account, e.domain, e.registered);
    var r := Select(rows, e.account, e.domain);
    if r.Some? {
      KeyedUpdate(rows, r.value.(blocked := true));
    }
  }

  /** The row of any key after a hit. */
  lemma HitRow(rows: seq<Row>, e: Event, account: string, domain: string)
    ensures var before := Select(rows, account, domain);
            Select(WithHit(rows, e.account, e.domain, e.registered), account, domain) ==
            if e.account != account || e.domain != domain then before
            else if before.None? then Some(Row(account, domain, 1, e.registered, false))
            else Some(before.value.(hits := before.value.hits + 1, lastSeen := e.registered))
  {
    var r := Select(rows, e.account, e.domain);
    SelectKey(rows, e.account, e.domain);
    if r.Some? {
      SelectUpdate(rows, r.value.(hits := r.value.hits + 1, lastSeen := e.registered), account, domain);
    } else {
      SelectAppend(rows, Row(e.account, e.domain, 1, e.registered, false), account, domain);
    }
  }

  lemma BlockRow(rows: seq<Row>, e: Event, account: string, domain: string)
    ensures var before := Select(rows, account, domain);
            Select(WithBlock(rows, e.account, e.domain), account, domain) ==
            if e.account == account && e.domain == domain && before.Some? then Some(before.value.(blocked := true)) else before
  {
    var r := Select(rows, e.account, e.domain);
    SelectKey(rows, e.account, e.domain);
    if r.Some? {
      SelectUpdate(rows, r.value.(blocked := true), account, domain);
    }
  }

  lemma StepSettles(cfg: Config, s: State, e: Event, account: string, domain: string, n: nat, blocked: bool)
    requires cfg.threshold >= 1 && Keyed(s.rows) && Settled(s, account, domain, n, blocked)
    ensures var mine := IsHit(cfg, e, account, domain);
            Settled(Registered(cfg, s, e), account, domain, n + if mine then 1 else 0,
                    blocked || (mine && n + 1 >= cfg.threshold && e.registered >= e.counted - cfg.window))
  {
    hide Select, Keyed, ListBlocked, Script, WithHit, WithBlock;
    if Tracked(cfg, e) {
      var rows := WithHit(s.rows, e.account, e.domain, e.registered);
      HitRow(s.rows, e, account, domain);
      HitRow(s.rows, e, e.account, e.domain);
      BlockRow(rows, e, account, domain);
      HitKeyed(s.rows, e.account, e.domain, e.registered);
      ListedIsBlocked(rows, e.account, e.domain);
      assert (s.audit + [Entry(e.account, e.domain)])[..|s.audit|] == s.audit;
    }
  }

  /** The table and the audit after any run, whatever the clocks say. */
  lemma {:induction false} RunSettles(cfg: Config, events: seq<Event>, account: string, domain: string)
    requires cfg.threshold >= 1
    ensures Settled(Run(cfg, events), account, domain, Hits(cfg, events, account, domain), Reached(cfg, events, account, domain))
  {
    if events != [] {
      var before := events[..|events| - 1];
      RunSettles(cfg, before, account, domain);
      RunKeyed(cfg, before);
      hide Settled, Keyed, Registered, Tracked, IsHit;
      StepSettles(cfg, Run(cfg, before), events[|events| - 1], account, domain, Hits(cfg, before, account, domain), Reached(cfg, before, account, domain));
    }
  }

  /** When every count is read within one window of its hit, the window decides nothing. */
  lemma {:induction false} PromptReaches(cfg: Config, events: seq<Event>, account: string, domain: string)
    requires cfg.threshold >= 1 && Prompt(cfg, events)
    ensures Reached(cfg, events, account, domain) <==> Hits(cfg, events, account, domain) >= cfg.threshold
  {
    if events != [] {
      PromptReaches(cfg, events[..|events| - 1], account, domain);
    }
  }

  /**
   From an empty table a domain is blocked exactly when its spam hits have reached the
   threshold, however far apart they came, and the block is recorded once.
   */
  lemma BlockedExactly(cfg: Config, events: seq<Event>, account: string, domain: string)
    requires cfg.threshold >= 1 && Prompt(cfg, events)
    ensures var n := Hits(cfg, events, account, domain);
            && Settled(Run(cfg, events), account, domain, n, n >= cfg.threshold)
            && (IsBlocked(Run(cfg, events).rows, account, domain) <==> n >= cfg.threshold)
  {
    RunSettles(cfg, events, account, domain);
    PromptReaches(cfg, events, account, domain);
    hide Hits, Reached, Run;
  }

  // ----- the script on the server -----

  /** What became of the upload of the last event that recorded a block for the account. */
  function LastUpload(cfg: Config, events: seq<Event>, account: string): Option<Upload> {
    if events == [] then None
    else
      var (before, e) := (events[..|events| - 1], events[|events| - 1]);
      if e.account == account && RecordsBlock(cfg, Run(cfg, before), e) then Some(e.upload)
      else LastUpload(cfg, before, account)
  }

  predicate RecordsBlock(cfg: Config, s: State, e: Event) {
    Tracked(cfg, e) && ReachesBlock(cfg, WithHit(s.rows, e.account, e.domain, e.registered), e)
  }

  /** The account's script is that of its blocked domains; without any it has none. */
  predicate Current(s: State, account: string) {
    var list := ListBlocked(s.rows, account);
    if list == [] then account !in s.server else account in s.server && s.server[account] == Script(list)
  }

  lemma {:induction false} ListAppend(rows: seq<Row>, r: Row, account: string)
    requires !r.blocked
    ensures ListBlocked(rows + [r], account) == ListBlocked(rows, account)
  {
    if rows == [] {
      assert rows + [r] == [r] && [r][1..] == [];
    } else {
      ListAppend(rows[1..], r, account);
      assert (rows + [r])[1..] == rows[1..] + [r];
    }
  }

  /** An update that changes no block of the account leaves its list as it is. */
  lemma {:induction false} ListUpdate(rows: seq<Row>, r: Row, account: string)
    requires Keyed(rows)
    requires r.account != account || (Select(rows, r.account, r.domain).Some? ==> Select(rows, r.account, r.domain).value.blocked == r.blocked)
    ensures ListBlocked(Update(rows, r), account) == ListBlocked(rows, account)
  {
    if rows != [] {
      if IsKey(rows[0], r.account, r.domain) {
        UpdateAbsent(rows[1..], r);
      } else {
        ListUpdate(rows[1..], r, account);
      }
    }
  }

  lemma {:induction false} UpdateAbsent(rows: seq<Row>, r: Row)
    requires Select(rows, r.account, r.domain).None?
    ensures Update(rows, r) == rows
  {
    if rows != [] {
      UpdateAbsent(rows[1..], r);
    }
  }

  lemma HitList(rows: seq<Row>, e: Event, account: string)
    requires Keyed(rows)
    ensures ListBlocked(WithHit(rows, e.account, e.domain, e.registered), account) == ListBlocked(rows, account)
  {
    hide Keyed, ListBlocked;
    SelectKey(rows, e.account, e.domain);
    var r := Select(rows, e.account, e.domain);
    if r.Some? {
      ListUpdate(rows, r.value.(hits := r.value.hits + 1, lastSeen := e.registered), account);
    } else {
      ListAppend(rows, Row(e.account, e.domain, 1, e.registered, false), account);
    }
  }

  lemma BlockList(rows: seq<Row>, e: Event, account: string)
    requires Keyed(rows) && e.account != account
    ensures ListBlocked(WithBlock(rows, e.account, e.domain), account) == ListBlocked(rows, account)
  {
    hide Keyed, ListBlocked;
    SelectKey(rows, e.account, e.domain);
    var r := Select(rows, e.account, e.domain);
    if r.Some? {
      ListUpdate(rows, r.value.(blocked := true), account);
    }
  }

  /** A recorded block adds exactly its domain to the list of its account. */
  lemma BlockAdds(cfg: Config, s: State, e: Event)
    requires Keyed(s.rows) && RecordsBlock(cfg, s, e)
    ensures var (before, after) := (ListBlocked(s.rows, e.account), ListBlocked(Registered(cfg, s, e).rows, e.account));
            e.domain !in before && forall d :: d in after <==> d == e.domain || d in before
  {
    hide Select, Keyed, ListBlocked, Script, WithHit, WithBlock, RecentHits;
    var rows := WithHit(s.rows, e.account, e.domain, e.registered);
    HitKeyed(s.rows, e.account, e.domain, e.registered);
    HitList(s.rows, e, e.account);
    StepKeyed(cfg, s, e);
    forall d ensures d in ListBlocked(Registered(cfg, s, e).rows, e.account) <==> d == e.domain || d in ListBlocked(s.rows, e.account) {
      BlockRow(rows, e, e.account, d);
      ListedIsBlocked(rows, e.account, d);
      ListedIsBlocked(WithBlock(rows, e.account, e.domain), e.account, d);
    }
  }

  /** Any other event leaves the account's list and script alone. */
  lemma OtherEvent(cfg: Config, s: State, e: Event, account: string)
    requires Keyed(s.rows) && !(e.account == account && RecordsBlock(cfg, s, e))
    ensures var t := Registered(cfg, s, e);
            && ListBlocked(t.rows, account) == ListBlocked(s.rows, account)
            && (account in t.server <==> account in s.server)
            && (account in s.server ==> t.server[account] == s.server[account])
  {
    hide Select, Keyed, ListBlocked, Script, WithHit, WithBlock, RecentHits;
    if Tracked(cfg, e) {
      var rows := WithHit(s.rows, e.account, e.domain, e.registered);
      HitKeyed(s.rows, e.account, e.domain, e.registered);
      HitList(s.rows, e, account);
      if ReachesBlock(cfg, rows, e) {
        BlockList(rows, e, account);
      }
    }
  }

  /** The account's script is that of its list, or a shorter one of an earlier list. */
  predicate Lags(s: State, account: string) {
    var list := ListBlocked(s.rows, account);
    list != [] && (account in s.server ==> |s.server[account]| < |Script(list)|)
  }

  lemma BlockUploads(cfg: Config, s: State, e: Event)
    requires Keyed(s.rows) && RecordsBlock(cfg, s, e) && (Current(s, e.account) || Lags(s, e.account))
    ensures e.upload.Accepted? ==> Current(Registered(cfg, s, e), e.account)
    ensures !e.upload.Accepted? ==> Lags(Registered(cfg, s, e), e.account)
  {
    BlockAdds(cfg, s, e);
    hide Select, Keyed, ListBlocked, Script, WithHit, WithBlock, RecentHits;
    var (before, after) := (ListBlocked(s.rows, e.account), ListBlocked(Registered(cfg, s, e).rows, e.account));
    assert e.domain in after;
    ScriptLengthens(before, after, e.domain);
  }

  lemma {:induction false} ServerState(cfg: Config, events: seq<Event>, account: string)
    ensures var (s, u) := (Run(cfg, events), LastUpload(cfg, events, account));
            if u.None? || u.value.Accepted? then Current(s, account) else Lags(s, account)
  {
    if events != [] {
      var (before, e) := (events[..|events| - 1], events[|events| - 1]);
      ServerState(cfg, before, account);
      RunKeyed(cfg, before);
      var s := Run(cfg, before);
      hide Keyed, Registered, Script, ListBlocked, RecordsBlock;
      if e.account == account && RecordsBlock(cfg, s, e) {
        BlockUploads(cfg, s, e);
      } else {
        OtherEvent(cfg, s, e, account);
      }
    }
  }

  predicate UpToDate(cfg: Config, events: seq<Event>, account: string) {
    var u := LastUpload(cfg, events, account);
    u.None? || u.value.Accepted?
  }

  /**
   The script on the server is that of the blocked domains exactly when the upload of the last
   recorded block of the account was accepted, or no block has been recorded.
   */
  lemma ServerCurrent(cfg: Config, events: seq<Event>, account: string)
    ensures Current(Run(cfg, events), account) <==> UpToDate(cfg, events, account)
  {
    hide Run, LastUpload, Script, ListBlocked;
    ServerState(cfg, events, account);
  }

  /** The account's active script, or nothing. */
  function ServerScript(s: State, account: string): string {
    if account in s.server then s.server[account] else ""
  }

  /**
   Then a Sieve interpreter reads out of the script the sorted domains of the account whose
   hits have reached the threshold, if these are free of quotes and backslashes.
   */
  lemma ServerRejectsOffenders(cfg: Config, events: seq<Event>, account: string) returns (ds: seq<string>)
    requires cfg.threshold >= 1 && Prompt(cfg, events) && UpToDate(cfg, events, account)
    requires AllClean(ListBlocked(Run(cfg, events).rows, account))
    ensures SieveReader.ReadScript(ServerScript(Run(cfg, events), account)) == Some(SieveReader.RulesFor(ds))
    ensures Increasing(ds)
    ensures forall domain :: domain in ds <==> Hits(cfg, events, account, domain) >= cfg.threshold
  {
    hide Run, Keyed, ListBlocked, Select, Hits, SortedSet, AllClean, Prompt, UpToDate, Increasing, SieveReader.ReadScript;
    ServerCurrent(cfg, events, account);
    RunKeyed(cfg, events);
    var list := ListBlocked(Run(cfg, events).rows, account);
    assert ServerScript(Run(cfg, events), account) == Script(list);
    hide Script;
    SieveReader.ReadBack(list);
    SortedSetFacts(list);
    ds := SortedSet(list);
    forall domain ensures domain in ds <==> Hits(cfg, events, account, domain) >= cfg.threshold {
      BlockedExactly(cfg, events, account, domain);
      ListedIsBlocked(Run(cfg, events).rows, account, domain);
    }
  }

  /** An upload that fails is not repeated for its own domain: its later hits change neither the server nor the audit. */
  lemma BlockedDomainUploadsNothing(cfg: Config, s: State, e: Event)
    requires Keyed(s.rows) && IsBlocked(s.rows, e.account, e.domain)
    ensures Registered(cfg, s, e).server == s.server && Registered(cfg, s, e).audit == s.audit
  {
    hide Keyed, ListBlocked, Script;
    HitKeyed(s.rows, e.account, e.domain, e.registered);
    HitList(s.rows, e, e.account);
    ListedIsBlocked(s.rows, e.account, e.domain);
  }

  /**
   With threshold 1, a refused block of "a" leaves the server behind, later hits of "a" do not
   mend it, and an accepted block of "b" does.
   */
  lemma RefusalIsMendedByAnotherBlock(cfg: Config, e: Event, f: Event)
    requires cfg.enabled && cfg.threshold == 1 && cfg.window >= 1
    requires e == Event("x", "a", true, 0, 0, Refused) && f == Event("x", "b", true, 0, 0, Accepted)
    ensures !Current(Run(cfg, [e]), "x") && !Current(Run(cfg, [e, e]), "x") && Current(Run(cfg, [e, e, f]), "x")
  {
    var none: seq<Event> := [];
    var (one, two, three) := ([e], [e, e], [e, e, f]);
    assert one[..0] == none && two[..1] == one && three[..2] == two;
    assert Prompt(cfg, none) && Prompt(cfg, one) && Prompt(cfg, two);
    assert Hits(cfg, none, "x", "a") == 0 && Hits(cfg, one, "x", "a") == 1 && Hits(cfg, one, "x", "b") == 0;
    assert Hits(cfg, two, "x", "b") == 0;
    PromptReaches(cfg, none, "x", "a");
    PromptReaches(cfg, one, "x", "a");
    PromptReaches(cfg, two, "x", "b");
    BlocksExactly(cfg, none, e);
    BlocksExactly(cfg, one, e);
    BlocksExactly(cfg, two, f);
    hide Run, RecordsBlock, Current, Hits, Prompt, Reached;
    assert LastUpload(cfg, one, "x") == Some(Refused);
    assert LastUpload(cfg, two, "x") == Some(Refused);
    assert LastUpload(cfg, three, "x") == Some(Accepted);
    ServerCurrent(cfg, one, "x");
    ServerCurrent(cfg, two, "x");
    ServerCurrent(cfg, three, "x");
  }

  /**
   In any run, an event records a block exactly when its domain has none yet, its hits have
   reached the threshold with it, and they are counted within the window.
   */
  lemma BlocksExactly(cfg: Config, events: seq<Event>, e: Event)
    requires cfg.threshold >= 1
    ensures RecordsBlock(cfg, Run(cfg, events), e) <==>
      && cfg.enabled && e.sieve && e.domain != ""
      && !Reached(cfg, events, e.account, e.domain)
      && Hits(cfg, events, e.account, e.domain) + 1 >= cfg.threshold
      && e.registered >= e.counted - cfg.window
  {
    var s := Run(cfg, events);
    RunSettles(cfg, events, e.account, e.domain);
    RunKeyed(cfg, events);
    HitKeyed(s.rows, e.account, e.domain, e.registered);
    HitRow(s.rows, e, e.account, e.domain);
    ListedIsBlocked(WithHit(s.rows, e.account, e.domain, e.registered), e.account, e.domain);
    hide Select, Keyed, ListBlocked, WithHit, Hits, Run, Reached;
  }
}
