/**
 Near-duplicate and repeated-content detection over stored spam.  A text is given by
 whether it is blank, by the 32-bit hashes of its shingles and by its content digest;
 the table rows carry the columns that the checks read.
 */
module Similarity {
  import opened Options
  import opened MinHash

  const SIMILAR := 0.4
  const NEAR_DUPE := 0.7
  const SAME_SENDER_MAX := 3
  const DIFF_SENDER_MIN := 2

  datatype Text = Text(blank: bool, hashes: seq<Word>, content: string)

  datatype Report = Report(uuid: string, account: string, text: Text, domain: string)

  datatype Row = Row(uuid: string, account: string, sig: seq<Byte>)

  datatype ContentRow = ContentRow(content: string, domain: string, account: string, count: nat)

  datatype Verdict = Verdict(score: real, uuid: Option<string>, near: bool, similar: bool)

  datatype Reason = Unremarkable | SameSender(count: nat) | ManySenders

  datatype Repetition = Repetition(repeated: bool, occurrences: nat, senders: nat, reason: Reason)

  // ----- the two tables -----

  /** Rows of other messages, in their order. */
  function Others(rows: seq<Row>, uuid: string): seq<Row> {
    if rows == [] then []
    else (if rows[0].uuid == uuid then [] else [rows[0]]) + Others(rows[1..], uuid)
  }

  /** INSERT OR REPLACE with the newest timestamp; rows are kept newest first. */
  function Store(rows: seq<Row>, row: Row): seq<Row> {
    [row] + Others(rows, row.uuid)
  }

  predicate IsKey(r: ContentRow, e: Report) {
    r.content == e.text.content && r.domain == e.domain && r.account == e.account
  }

  predicate Present(rows: seq<ContentRow>, e: Report) {
    rows != [] && (IsKey(rows[0], e) || Present(rows[1..], e))
  }

  function Bump(rows: seq<ContentRow>, e: Report): seq<ContentRow> {
    if rows == [] then []
    else [if IsKey(rows[0], e) then rows[0].(count := rows[0].count + 1) else rows[0]] + Bump(rows[1..], e)
  }

  function Upsert(rows: seq<ContentRow>, e: Report): seq<ContentRow> {
    if Present(rows, e) then Bump(rows, e)
    else rows + [ContentRow(e.text.content, e.domain, e.account, 1)]
  }

  function RowOf(e: Report): Row {
    Row(e.uuid, e.account, Pack(Signature(e.text.hashes)))
  }

  /** The signature table after a history of reports, oldest first. */
  function Signatures(history: seq<Report>): seq<Row> {
    if history == [] then [] else
      var (before, e) := (history[..|history| - 1], history[|history| - 1]);
      if e.text.blank then Signatures(before) else Store(Signatures(before), RowOf(e))
  }

  /** The content table after the same history. */
  function Contents(history: seq<Report>): seq<ContentRow> {
    if history == [] then [] else
      var (before, e) := (history[..|history| - 1], history[|history| - 1]);
      if e.text.blank then Contents(before) else Upsert(Contents(before), e)
  }

  // ----- check_similarity -----

  function OfAccount(rows: seq<Row>, account: string): seq<Row> {
    if rows == [] then []
    else (if rows[0].account == account then [rows[0]] else []) + OfAccount(rows[1..], account)
  }

  /** The newest limit rows, of one account unless the account is empty. */
  function Recent(rows: seq<Row>, account: string, limit: nat): seq<Row> {
    var mine := if account == "" then rows else OfAccount(rows, account);
    if |mine| <= limit then mine else mine[..limit]
  }

  predicate WellFormed(r: Row) {
    |r.sig| == 4 * NUM_PERM
  }

  function Likeness(q: seq<Byte>, r: Row): (l: real)
    requires |q| == 4 * NUM_PERM
    ensures 0.0 <= l <= 1.0
  {
    if WellFormed(r) then Jaccard(Unpack(q), Unpack(r.sig)) else 0.0
  }

  /** k is the newest row that no row exceeds. */
  predicate NewestBest(rows: seq<Row>, q: seq<Byte>, k: nat)
    requires |q| == 4 * NUM_PERM
  {
    && k < |rows|
    && (forall j :: 0 <= j < |rows| ==> Likeness(q, rows[j]) <= Likeness(q, rows[k]))
    && (forall j :: 0 <= j < k ==> Likeness(q, rows[j]) < Likeness(q, rows[k]))
  }

  /** k is the newest row that reaches the near-duplicate threshold. */
  predicate NewestNear(rows: seq<Row>, q: seq<Byte>, k: nat)
    requires |q| == 4 * NUM_PERM
  {
    && k < |rows|
    && Likeness(q, rows[k]) >= NEAR_DUPE
    && (forall j :: 0 <= j < k ==> Likeness(q, rows[j]) < NEAR_DUPE)
  }

  predicate SomeNear(rows: seq<Row>, q: seq<Byte>)
    requires |q| == 4 * NUM_PERM
  {
    exists k :: 0 <= k < |rows| && Likeness(q, rows[k]) >= NEAR_DUPE
  }

  predicate SomeSimilar(rows: seq<Row>, q: seq<Byte>)
    requires |q| == 4 * NUM_PERM
  {
    exists k :: 0 <= k < |rows| && Likeness(q, rows[k]) >= SIMILAR
  }

  predicate SomeLikeness(rows: seq<Row>, q: seq<Byte>)
    requires |q| == 4 * NUM_PERM
  {
    exists k :: 0 <= k < |rows| && Likeness(q, rows[k]) > 0.0
  }

  /** The row named by the answer: newest near duplicate, else newest maximum, else none. */
  ghost predicate Names(rows: seq<Row>, q: seq<Byte>, v: Verdict)
    requires |q| == 4 * NUM_PERM
  {
    if SomeNear(rows, q) then
      exists k: nat :: NewestNear(rows, q, k) && v.score == Likeness(q, rows[k]) && v.uuid == Some(rows[k].uuid)
    else if SomeLikeness(rows, q) then
      exists k: nat :: NewestBest(rows, q, k) && v.score == Likeness(q, rows[k]) && v.uuid == Some(rows[k].uuid)
    else
      v.score == 0.0 && v.uuid == None
  }

  // ----- the same, said of the whole table -----

  predicate Matches(r: Row, account: string) {
    account == "" || r.account == account
  }

  /** How many matching rows stand before row k. */
  function Ahead(rows: seq<Row>, account: string, k: nat): nat
    requires k <= |rows|
  {
    if k == 0 then 0 else Ahead(rows, account, k - 1) + if Matches(rows[k - 1], account) then 1 else 0
  }

  /** Row k is compared with: it matches, and fewer than limit matching rows are newer. */
  predicate TakesPart(rows: seq<Row>, account: string, limit: nat, k: nat) {
    k < |rows| && Matches(rows[k], account) && Ahead(rows, account, k) < limit
  }

  predicate Reaches(rows: seq<Row>, account: string, limit: nat, q: seq<Byte>, k: nat, bar: real)
    requires |q| == 512
  {
    TakesPart(rows, account, limit, k) && Likeness(q, rows[k]) >= bar
  }

  ghost predicate SomeReaches(rows: seq<Row>, account: string, limit: nat, q: seq<Byte>, bar: real)
    requires |q| == 512
  {
    exists k: nat :: Reaches(rows, account, limit, q, k, bar)
  }

  /** Row k is the newest that reaches 0.7. */
  ghost predicate FirstNear(rows: seq<Row>, account: string, limit: nat, q: seq<Byte>, k: nat)
    requires |q| == 512
  {
    && Reaches(rows, account, limit, q, k, 0.7)
    && forall j :: 0 <= j < k ==> !Reaches(rows, account, limit, q, j, 0.7)
  }

  /** Row k is the newest of those that no row exceeds. */
  ghost predicate FirstBest(rows: seq<Row>, account: string, limit: nat, q: seq<Byte>, k: nat)
    requires |q| == 512
  {
    && TakesPart(rows, account, limit, k)
    && (forall j: nat :: TakesPart(rows, account, limit, j) ==> Likeness(q, rows[j]) <= Likeness(q, rows[k]))
    && (forall j: nat :: TakesPart(rows, account, limit, j) && j < k ==> Likeness(q, rows[j]) < Likeness(q, rows[k]))
  }

  /** The answer is this row, whose signature is whole. */
  predicate Tells(v: Verdict, r: Row, q: seq<Byte>)
    requires |q| == 512
  {
    v.score == Likeness(q, r) && v.uuid == Some(r.uuid) && |r.sig| == 512
  }

  /** The answer to a query, over the rows that take part. */
  ghost predicate Answers(rows: seq<Row>, account: string, limit: nat, q: seq<Byte>, v: Verdict)
    requires |q| == 512
  {
    && (v.near <==> SomeReaches(rows, account, limit, q, 0.7))
    && (v.similar <==> SomeReaches(rows, account, limit, q, 0.4))
    && (if v.near then exists k: nat :: FirstNear(rows, account, limit, q, k) && Tells(v, rows[k], q)
        else if v.score > 0.0 then exists k: nat :: FirstBest(rows, account, limit, q, k) && Tells(v, rows[k], q)
        else v.score == 0.0 && v.uuid == None && forall k: nat :: TakesPart(rows, account, limit, k) ==> Likeness(q, rows[k]) == 0.0)
  }

  lemma {:induction false} AheadFront(rows: seq<Row>, account: string, k: nat)
    requires 0 < k <= |rows|
    ensures Ahead(rows, account, k) == (if Matches(rows[0], account) then 1 else 0) + Ahead(rows[1..], account, k - 1)
  {
    if k > 1 {
      AheadFront(rows, account, k - 1);
    }
  }

  lemma {:induction false} AheadGrows(rows: seq<Row>, account: string, j: nat, k: nat)
    requires j <= k <= |rows|
    ensures Ahead(rows, account, j) <= Ahead(rows, account, k)
    ensures j < k && Matches(rows[j], account) ==> Ahead(rows, account, j) < Ahead(rows, account, k)
    decreases k
  {
    if j < k {
      AheadGrows(rows, account, j, k - 1);
    }
  }

  lemma {:induction false} AllAhead(rows: seq<Row>, k: nat)
    requires k <= |rows|
    ensures Ahead(rows, "", k) == k
  {
    if k > 0 {
      AllAhead(rows, k - 1);
    }
  }

  lemma {:induction false} OfAccountAt(rows: seq<Row>, account: string, k: nat)
    requires account != "" && k < |rows| && rows[k].account == account
    ensures Ahead(rows, account, k) < |OfAccount(rows, account)| && OfAccount(rows, account)[Ahead(rows, account, k)] == rows[k]
  {
    if k > 0 {
      AheadFront(rows, account, k);
      OfAccountAt(rows[1..], account, k - 1);
    }
  }

  lemma {:induction false} OfAccountFrom(rows: seq<Row>, account: string, i: nat) returns (k: nat)
    requires account != "" && i < |OfAccount(rows, account)|
    ensures k < |rows| && rows[k].account == account && Ahead(rows, account, k) == i
  {
    if rows[0].account == account && i == 0 {
      k := 0;
    } else {
      k := OfAccountFrom(rows[1..], account, if rows[0].account == account then i - 1 else i);
      k := k + 1;
      AheadFront(rows, account, k);
    }
  }

  /** A row takes part exactly when it is selected, and it stands where the matching rows before it put it. */
  lemma RecentAt(rows: seq<Row>, account: string, limit: nat, k: nat)
    requires TakesPart(rows, account, limit, k)
    ensures Ahead(rows, account, k) < |Recent(rows, account, limit)|
    ensures Recent(rows, account, limit)[Ahead(rows, account, k)] == rows[k]
  {
    if account == "" {
      AllAhead(rows, k);
    } else {
      OfAccountAt(rows, account, k);
    }
  }

  lemma RecentFrom(rows: seq<Row>, account: string, limit: nat, i: nat) returns (k: nat)
    requires i < |Recent(rows, account, limit)|
    ensures TakesPart(rows, account, limit, k) && Ahead(rows, account, k) == i && rows[k] == Recent(rows, account, limit)[i]
  {
    if account == "" {
      k := i;
      AllAhead(rows, k);
    } else {
      k := OfAccountFrom(rows, account, i);
      OfAccountAt(rows, account, k);
    }
  }

  lemma NearTransfers(rows: seq<Row>, account: string, limit: nat, q: seq<Byte>, bar: real)
    requires |q| == 512
    ensures SomeReaches(rows, account, limit, q, bar) <==>
      exists i :: 0 <= i < |Recent(rows, account, limit)| && Likeness(q, Recent(rows, account, limit)[i]) >= bar
  {
    hide Likeness, Recent, Ahead;
    var mine := Recent(rows, account, limit);
    if SomeReaches(rows, account, limit, q, bar) {
      var k: nat :| Reaches(rows, account, limit, q, k, bar);
      RecentAt(rows, account, limit, k);
    }
    if i :| 0 <= i < |mine| && Likeness(q, mine[i]) >= bar {
      var k := RecentFrom(rows, account, limit, i);
      assert Reaches(rows, account, limit, q, k, bar);
    }
  }

  lemma FirstTransfers(rows: seq<Row>, account: string, limit: nat, q: seq<Byte>, i: nat) returns (k: nat)
    requires |q| == 512 && i < |Recent(rows, account, limit)|
    ensures k < |rows| && rows[k] == Recent(rows, account, limit)[i]
    ensures NewestNear(Recent(rows, account, limit), q, i) ==> FirstNear(rows, account, limit, q, k)
    ensures NewestBest(Recent(rows, account, limit), q, i) ==> FirstBest(rows, account, limit, q, k)
  {
    hide Likeness, Recent, Ahead;
    k := RecentFrom(rows, account, limit, i);
    forall j: nat | TakesPart(rows, account, limit, j)
      ensures Ahead(rows, account, j) < |Recent(rows, account, limit)|
      ensures Recent(rows, account, limit)[Ahead(rows, account, j)] == rows[j]
      ensures j < k ==> Ahead(rows, account, j) < i
    {
      RecentAt(rows, account, limit, j);
      if j < k {
        AheadGrows(rows, account, j, k);
      }
    }
  }

  lemma OnlyWholeIsLike(q: seq<Byte>, r: Row)
    requires |q| == 512 && Likeness(q, r) > 0.0
    ensures |r.sig| == 512
  {
  }

  lemma BestIsLike(rows: seq<Row>, q: seq<Byte>, i: nat)
    requires |q| == 512 && SomeLikeness(rows, q) && NewestBest(rows, q, i)
    ensures Likeness(q, rows[i]) > 0.0
  {
    hide Likeness;
  }

  /** What the scan of the selected rows answers is the answer over the whole table. */
  lemma ScanAnswers(rows: seq<Row>, account: string, limit: nat, q: seq<Byte>, v: Verdict)
    requires |q| == 512 && Names(Recent(rows, account, limit), q, v)
    requires v.near <==> SomeNear(Recent(rows, account, limit), q)
    requires v.similar <==> SomeSimilar(Recent(rows, account, limit), q)
    ensures Answers(rows, account, limit, q, v)
  {
    hide Likeness, Recent, Ahead;
    var mine := Recent(rows, account, limit);
    NearTransfers(rows, account, limit, q, 0.7);
    NearTransfers(rows, account, limit, q, 0.4);
    if SomeNear(mine, q) {
      var i: nat :| NewestNear(mine, q, i) && v.score == Likeness(q, mine[i]) && v.uuid == Some(mine[i].uuid);
      var k := FirstTransfers(rows, account, limit, q, i);
      OnlyWholeIsLike(q, rows[k]);
      assert FirstNear(rows, account, limit, q, k) && Tells(v, rows[k], q);
    } else if SomeLikeness(mine, q) {
      var i: nat :| NewestBest(mine, q, i) && v.score == Likeness(q, mine[i]) && v.uuid == Some(mine[i].uuid);
      var k := FirstTransfers(rows, account, limit, q, i);
      BestIsLike(mine, q, i);
      OnlyWholeIsLike(q, rows[k]);
      assert FirstBest(rows, account, limit, q, k) && Tells(v, rows[k], q);
    } else {
      forall k: nat | TakesPart(rows, account, limit, k) ensures Likeness(q, rows[k]) == 0.0 {
        RecentAt(rows, account, limit, k);
      }
    }
  }

  // ----- check_repeated -----

  function Select(rows: seq<ContentRow>, content: string, account: string): seq<ContentRow> {
    if rows == [] then []
    else
      var rest := Select(rows[1..], content, account);
      if rows[0].content == content && rows[0].account == account then [rows[0]] + rest else rest
  }

  function Total(rows: seq<ContentRow>): nat {
    if rows == [] then 0 else rows[0].count + Total(rows[1..])
  }

  // ----- the history itself -----

  function Times(history: seq<Report>, content: string, domain: string, account: string): nat {
    if history == [] then 0 else
      var e := history[|history| - 1];
      Times(history[..|history| - 1], content, domain, account)
      + if !e.text.blank && e.text.content == content && e.domain == domain && e.account == account then 1 else 0
  }

  function TimesAnySender(history: seq<Report>, content: string, account: string): nat {
    if history == [] then 0 else
      var e := history[|history| - 1];
      TimesAnySender(history[..|history| - 1], content, account)
      + if !e.text.blank && e.text.content == content && e.account == account then 1 else 0
  }

  function Senders(history: seq<Report>, content: string, account: string): set<string> {
    set e | e in history && !e.text.blank && e.text.content == content && e.account == account :: e.domain
  }

  /** What check_repeated answers, said of the history of reports alone. */
  function Expected(history: seq<Report>, text: Text, domain: string, account: string): Repetition {
    if text.blank || account == "" then Repetition(false, 0, 0, Unremarkable) else
      var t := Times(history, text.content, domain, account);
      var all := TimesAnySender(history, text.content, account);
      var n := |Senders(history, text.content, account)|;
      if domain != "" && t >= 3 then Repetition(true, all, n, SameSender(t))
      else if n >= 2 then Repetition(true, all, n, ManySenders)
      else Repetition(false, all, n, Unremarkable)
  }

  // ----- the content table agrees with the history -----

  lemma {:induction false} PresentMeans(rows: seq<ContentRow>, e: Report)
    ensures Present(rows, e) <==> exists k :: 0 <= k < |rows| && IsKey(rows[k], e)
  {
    if rows != [] {
      PresentMeans(rows[1..], e);
      if Present(rows[1..], e) {
        var k :| 0 <= k < |rows[1..]| && IsKey(rows[1..][k], e);
        assert IsKey(rows[k + 1], e);
      }
    }
  }

  lemma {:induction false} BumpMeans(rows: seq<ContentRow>, e: Report)
    ensures |Bump(rows, e)| == |rows|
    ensures forall k :: 0 <= k < |rows| ==> Bump(rows, e)[k] == if IsKey(rows[k], e) then rows[k].(count := rows[k].count + 1) else rows[k]
  {
    if rows != [] {
      BumpMeans(rows[1..], e);
    }
  }

  predicate Concerns(e: Report, content: string, account: string) {
    e.text.content == content && e.account == account
  }

  /** An upsert seen through the selection of check_repeated. */
  lemma {:induction false} SelectBump(rows: seq<ContentRow>, e: Report, content: string, account: string)
    ensures var s := Select(rows, content, account);
            Select(Bump(rows, e), content, account) == if Concerns(e, content, account) then Bump(s, e) else s
    ensures Concerns(e, content, account) ==> (Present(rows, e) <==> Present(Select(rows, content, account), e))
  {
    if rows != [] {
      SelectBump(rows[1..], e, content, account);
      assert Bump(rows, e)[1..] == Bump(rows[1..], e);
      var s := Select(rows, content, account);
      if rows[0].content == content && rows[0].account == account {
        assert s[0] == rows[0] && s[1..] == Select(rows[1..], content, account);
      }
    }
  }

  lemma {:induction false} SelectAppend(rows: seq<ContentRow>, r: ContentRow, content: string, account: string)
    ensures var s := Select(rows, content, account);
            Select(rows + [r], content, account) == if r.content == content && r.account == account then s + [r] else s
  {
    if rows != [] {
      SelectAppend(rows[1..], r, content, account);
      assert (rows + [r])[1..] == rows[1..] + [r];
    }
  }

  lemma {:induction false} TotalAppend(rows: seq<ContentRow>, r: ContentRow)
    ensures Total(rows + [r]) == Total(rows) + r.count
  {
    if rows != [] {
      TotalAppend(rows[1..], r);
      assert (rows + [r])[1..] == rows[1..] + [r];
    }
  }

  predicate DistinctDomains(rows: seq<ContentRow>) {
    forall j, k :: 0 <= j < k < |rows| ==> rows[j].domain != rows[k].domain
  }

  predicate AllOf(rows: seq<ContentRow>, content: string, account: string) {
    forall k :: 0 <= k < |rows| ==> rows[k].content == content && rows[k].account == account
  }

  lemma {:induction false} TotalBump(rows: seq<ContentRow>, e: Report)
    requires AllOf(rows, e.text.content, e.account) && DistinctDomains(rows)
    ensures Total(Bump(rows, e)) == Total(rows) + if Present(rows, e) then 1 else 0
  {
    if rows != [] {
      TotalBump(rows[1..], e);
      assert Bump(rows, e)[1..] == Bump(rows[1..], e);
      PresentMeans(rows[1..], e);
    }
  }

  lemma {:induction false} DistinctCount(rows: seq<ContentRow>, domains: set<string>)
    requires DistinctDomains(rows)
    requires forall d :: d in domains <==> HasDomain(rows, d)
    ensures |rows| == |domains|
  {
    if rows == [] {
      assert domains == {};
    } else {
      var d := rows[0].domain;
      forall x ensures x in domains - {d} <==> HasDomain(rows[1..], x) {
        HasDomainTail(rows, x);
      }
      HasDomainTail(rows, d);
      DistinctCount(rows[1..], domains - {d});
    }
  }

  lemma HasDomainTail(rows: seq<ContentRow>, d: string)
    requires rows != [] && DistinctDomains(rows)
    ensures HasDomain(rows, d) <==> rows[0].domain == d || HasDomain(rows[1..], d)
    ensures !HasDomain(rows[1..], rows[0].domain)
  {
    if HasDomain(rows[1..], d) {
      var k :| 0 <= k < |rows[1..]| && rows[1..][k].domain == d;
      assert rows[k + 1].domain == d;
    }
    if rows[0].domain != d && HasDomain(rows, d) {
      var k :| 0 <= k < |rows| && rows[k].domain == d;
      assert rows[1..][k - 1].domain == d;
    }
  }

  predicate HasDomain(rows: seq<ContentRow>, d: string) {
    exists k :: 0 <= k < |rows| && rows[k].domain == d
  }

  lemma {:induction false} TimesOfSenders(history: seq<Report>, content: string, domain: string, account: string)
    ensures Times(history, content, domain, account) > 0 <==> domain in Senders(history, content, account)
  {
    if history != [] {
      var (before, e) := (history[..|history| - 1], history[|history| - 1]);
      TimesOfSenders(before, content, domain, account);
      assert history == before + [e];
    }
  }

  ghost predicate RowCounts(rows: seq<ContentRow>, history: seq<Report>, content: string, account: string) {
    forall k :: 0 <= k < |rows| ==> 0 < rows[k].count == Times(history, content, rows[k].domain, account)
  }

  ghost predicate AllDomains(rows: seq<ContentRow>, history: seq<Report>, content: string, account: string) {
    forall d :: Times(history, content, d, account) > 0 ==> HasDomain(rows, d)
  }

  /** Rows that carry exactly the counts of the history, each domain once. */
  ghost predicate Counted(rows: seq<ContentRow>, history: seq<Report>, content: string, account: string) {
    && DistinctDomains(rows)
    && AllOf(rows, content, account)
    && RowCounts(rows, history, content, account)
    && AllDomains(rows, history, content, account)
    && Total(rows) == TimesAnySender(history, content, account)
  }

  lemma TimesNext(before: seq<Report>, e: Report, content: string, account: string)
    requires !e.text.blank && Concerns(e, content, account)
    ensures TimesAnySender(before + [e], content, account) == TimesAnySender(before, content, account) + 1
    ensures forall d :: Times(before + [e], content, d, account) == Times(before, content, d, account) + if d == e.domain then 1 else 0
  {
    var history := before + [e];
    assert history[..|history| - 1] == before && history[|history| - 1] == e;
  }

  lemma DomainsBump(rows: seq<ContentRow>, before: seq<Report>, e: Report)
    requires AllDomains(rows, before, e.text.content, e.account) && !e.text.blank && Present(rows, e)
    ensures AllDomains(Bump(rows, e), before + [e], e.text.content, e.account)
  {
    PresentMeans(rows, e);
    BumpMeans(rows, e);
    TimesNext(before, e, e.text.content, e.account);
    hide Times, TimesAnySender, Total, Bump, Present;
    var after := Bump(rows, e);
    var i :| 0 <= i < |rows| && IsKey(rows[i], e);
    forall d | Times(before + [e], e.text.content, d, e.account) > 0 ensures HasDomain(after, d) {
      if d == e.domain {
        assert after[i].domain == d;
      } else {
        var k :| 0 <= k < |rows| && rows[k].domain == d;
        assert after[k].domain == d;
      }
    }
  }

  lemma RowsBump(rows: seq<ContentRow>, before: seq<Report>, e: Report)
    requires RowCounts(rows, before, e.text.content, e.account) && AllOf(rows, e.text.content, e.account)
    requires DistinctDomains(rows) && !e.text.blank
    ensures RowCounts(Bump(rows, e), before + [e], e.text.content, e.account)
    ensures AllOf(Bump(rows, e), e.text.content, e.account) && DistinctDomains(Bump(rows, e))
  {
    BumpMeans(rows, e);
    TimesNext(before, e, e.text.content, e.account);
    hide Times, TimesAnySender, Total, Bump, Present;
    var after := Bump(rows, e);
    forall k | 0 <= k < |rows|
      ensures 0 < after[k].count == Times(before + [e], e.text.content, after[k].domain, e.account)
    {
      assert after[k].domain == rows[k].domain;
      assert IsKey(rows[k], e) <==> rows[k].domain == e.domain;
    }
  }

  lemma CountedBump(rows: seq<ContentRow>, before: seq<Report>, e: Report)
    requires Counted(rows, before, e.text.content, e.account) && !e.text.blank && Present(rows, e)
    ensures Counted(Bump(rows, e), before + [e], e.text.content, e.account)
  {
    TotalBump(rows, e);
    TimesNext(before, e, e.text.content, e.account);
    DomainsBump(rows, before, e);
    RowsBump(rows, before, e);
    hide Times, TimesAnySender, Total, Bump, Present, RowCounts, AllDomains, AllOf, DistinctDomains;
  }

  lemma CountedInsert(rows: seq<ContentRow>, before: seq<Report>, e: Report)
    requires Counted(rows, before, e.text.content, e.account) && !e.text.blank && !Present(rows, e)
    ensures Counted(rows + [ContentRow(e.text.content, e.domain, e.account, 1)], before + [e], e.text.content, e.account)
  {
    var (c, a) := (e.text.content, e.account);
    var row := ContentRow(c, e.domain, a, 1);
    hide Bump;
    PresentMeans(rows, e);
    TotalAppend(rows, row);
    TimesNext(before, e, c, a);
    hide Times, TimesAnySender, Total, Bump, Present;
    var after := rows + [row];
    forall k | 0 <= k < |rows| ensures rows[k].domain != e.domain {
      assert !IsKey(rows[k], e);
    }
    assert Times(before, c, e.domain, a) == 0;
    forall d | Times(before + [e], c, d, a) > 0 ensures HasDomain(after, d) {
      if d == e.domain {
        assert after[|rows|].domain == d;
      } else {
        var k :| 0 <= k < |rows| && rows[k].domain == d;
        assert after[k].domain == d;
      }
    }
  }

  /** The rows selected for a digest and an account carry the counts of the history. */
  lemma {:induction false} SelectedCounted(history: seq<Report>, content: string, account: string)
    ensures Counted(Select(Contents(history), content, account), history, content, account)
  {
    if history != [] {
      var (before, e) := (history[..|history| - 1], history[|history| - 1]);
      assert history == before + [e];
      SelectedCounted(before, content, account);
      var s := Select(Contents(before), content, account);
      SelectBump(Contents(before), e, content, account);
      SelectAppend(Contents(before), ContentRow(e.text.content, e.domain, e.account, 1), content, account);
      if !e.text.blank && Concerns(e, content, account) {
        if Present(s, e) {
          CountedBump(s, before, e);
        } else {
          CountedInsert(s, before, e);
        }
        assert Select(Contents(history), content, account) == Upsert(s, e);
      } else {
        assert Select(Contents(history), content, account) == s;
        forall d ensures Times(history, content, d, account) == Times(before, content, d, account) {
        }
      }
    }
  }

  lemma SelectedAgree(history: seq<Report>, content: string, account: string)
    ensures Counted(Select(Contents(history), content, account), history, content, account)
    ensures |Select(Contents(history), content, account)| == |Senders(history, content, account)|
  {
    SelectedCounted(history, content, account);
    var s := Select(Contents(history), content, account);
    var senders := Senders(history, content, account);
    forall d ensures d in senders <==> HasDomain(s, d) {
      TimesOfSenders(history, content, d, account);
      if HasDomain(s, d) {
        var k :| 0 <= k < |s| && s[k].domain == d;
      }
    }
    DistinctCount(s, senders);
  }

  // ----- the signature table agrees with the history -----

  /** Report k is the last one with its uuid that had any text. */
  predicate IsLatest(history: seq<Report>, k: nat) {
    && k < |history|
    && !history[k].text.blank
    && forall j :: k < j < |history| && !history[j].text.blank ==> history[j].uuid != history[k].uuid
  }

  lemma {:induction false} OthersMeans(rows: seq<Row>, uuid: string, r: Row)
    ensures r in Others(rows, uuid) <==> r in rows && r.uuid != uuid
  {
    if rows != [] {
      OthersMeans(rows[1..], uuid, r);
    }
  }

  ghost predicate FromLatest(history: seq<Report>, r: Row) {
    exists k: nat :: IsLatest(history, k) && r == RowOf(history[k])
  }

  lemma LatestNext(before: seq<Report>, e: Report, r: Row)
    ensures FromLatest(before + [e], r) <==>
      if e.text.blank then FromLatest(before, r) else r == RowOf(e) || (FromLatest(before, r) && r.uuid != e.uuid)
  {
    var history := before + [e];
    hide Pack, Signature;
    if FromLatest(before, r) && (e.text.blank || r.uuid != e.uuid) {
      var k: nat :| IsLatest(before, k) && r == RowOf(before[k]);
      assert IsLatest(history, k) && history[k] == before[k];
    }
    if FromLatest(history, r) {
      var k: nat :| IsLatest(history, k) && r == RowOf(history[k]);
      if k < |before| {
        forall j | k < j < |before| && !before[j].text.blank ensures before[j].uuid != before[k].uuid {
          assert history[j] == before[j];
        }
        assert IsLatest(before, k) && history[k] == before[k];
        if !e.text.blank {
          assert history[|before|].uuid != history[k].uuid;
        }
      }
    }
    if !e.text.blank && r == RowOf(e) {
      assert IsLatest(history, |before|) && history[|before|] == e;
    }
  }

  /** The table holds one signature per message: that of its latest report. */
  lemma {:induction false} SignaturesAreLatest(history: seq<Report>, r: Row)
    ensures r in Signatures(history) <==> FromLatest(history, r)
  {
    if history != [] {
      var (before, e) := (history[..|history| - 1], history[|history| - 1]);
      assert history == before + [e];
      SignaturesAreLatest(before, r);
      OthersMeans(Signatures(before), e.uuid, r);
      LatestNext(before, e, r);
    }
  }

  // ----- a learnt text is found -----

  ghost predicate UniqueUuids(rows: seq<Row>) {
    forall j, k :: 0 <= j < k < |rows| ==> rows[j].uuid != rows[k].uuid
  }

  lemma {:induction false} OthersUnique(rows: seq<Row>, uuid: string)
    requires UniqueUuids(rows)
    ensures UniqueUuids(Others(rows, uuid))
  {
    if rows != [] {
      OthersUnique(rows[1..], uuid);
      var rest := Others(rows[1..], uuid);
      forall k | 0 <= k < |rest| ensures rest[k].uuid != rows[0].uuid {
        OthersMeans(rows[1..], uuid, rest[k]);
        assert rest[k] in rest;
        var j :| 0 <= j < |rows[1..]| && rows[1..][j] == rest[k];
        assert rows[j + 1] == rest[k];
      }
    }
  }

  lemma {:induction false} SignaturesUnique(history: seq<Report>)
    ensures UniqueUuids(Signatures(history))
  {
    if history != [] {
      var (before, e) := (history[..|history| - 1], history[|history| - 1]);
      SignaturesUnique(before);
      if !e.text.blank {
        OthersUnique(Signatures(before), e.uuid);
        var rest := Others(Signatures(before), e.uuid);
        hide Signature, Pack;
        forall k | 0 <= k < |rest| ensures rest[k].uuid != e.uuid {
          OthersMeans(Signatures(before), e.uuid, rest[k]);
          assert rest[k] in rest;
        }
      }
    }
  }

  /** Taking out the rows of another message keeps a row, and of those before it only some. */
  lemma {:induction false} OthersAt(rows: seq<Row>, uuid: string, k: nat) returns (k': nat)
    requires k < |rows| && rows[k].uuid != uuid
    ensures k' < |Others(rows, uuid)| && Others(rows, uuid)[k'] == rows[k]
    ensures forall j :: 0 <= j < k' ==> Others(rows, uuid)[j] in rows[..k]
  {
    if k == 0 {
      k' := 0;
    } else {
      k' := OthersAt(rows[1..], uuid, k - 1);
      assert rows[..k] == [rows[0]] + rows[1..][..k - 1];
      if rows[0].uuid != uuid {
        k' := k' + 1;
      }
    }
  }

  /** The row of a report made after report i. */
  ghost predicate FromLater(history: seq<Report>, i: nat, r: Row) {
    exists m :: i < m < |history| && !history[m].text.blank && r == RowOf(history[m])
  }

  lemma FromLaterStep(before: seq<Report>, e: Report, i: nat, r: Row)
    requires FromLater(before, i, r) && i < |before|
    ensures FromLater(before + [e], i, r)
  {
    hide RowOf;
    var m :| i < m < |before| && !before[m].text.blank && r == RowOf(before[m]);
    assert (before + [e])[m] == before[m];
  }

  /** The row of the latest report of a message stands behind rows of later reports only. */
  lemma {:induction false} PositionOf(history: seq<Report>, i: nat) returns (k: nat)
    requires IsLatest(history, i)
    ensures k < |Signatures(history)| && Signatures(history)[k] == RowOf(history[i])
    ensures forall j :: 0 <= j < k ==> FromLater(history, i, Signatures(history)[j])
  {
    var (before, e) := (history[..|history| - 1], history[|history| - 1]);
    hide Signature, Pack;
    if i == |before| {
      k := 0;
    } else {
      assert IsLatest(before, i) && history == before + [e];
      k := PositionOf(before, i);
      var rows := Signatures(before);
      forall j | 0 <= j < k ensures FromLater(history, i, rows[j]) {
        FromLaterStep(before, e, i, rows[j]);
      }
      if !e.text.blank {
        var k' := OthersAt(rows, e.uuid, k);
        assert FromLater(history, i, RowOf(e)) by {
          assert history[|before|] == e;
        }
        k := k' + 1;
      }
    }
  }

  lemma {:induction false} AheadIsFew(rows: seq<Row>, account: string, k: nat, uuids: set<string>)
    requires UniqueUuids(rows) && k <= |rows|
    requires forall j :: 0 <= j < k && Matches(rows[j], account) ==> rows[j].uuid in uuids
    ensures Ahead(rows, account, k) <= |uuids|
  {
    if k > 0 {
      if Matches(rows[k - 1], account) {
        AheadIsFew(rows, account, k - 1, uuids - {rows[k - 1].uuid});
      } else {
        AheadIsFew(rows, account, k - 1, uuids);
      }
    }
  }

  /** The messages of the account reported after report i. */
  function LaterUuids(history: seq<Report>, i: nat, account: string): set<string> {
    set m | i < m < |history| && !history[m].text.blank && (account == "" || history[m].account == account) :: history[m].uuid
  }

  /**
   A learnt text is found to be a near duplicate of itself, for its account and for all, as long
   as fewer than limit other messages of the account have been learnt since; the text learnt
   last is found with score 1 under its own message.
   */
  lemma LearntIsFound(history: seq<Report>, i: nat, account: string, limit: nat, v: Verdict)
    requires IsLatest(history, i) && (account == "" || account == history[i].account)
    requires |LaterUuids(history, i, account)| < limit
    requires Answers(Signatures(history), account, limit, Pack(Signature(history[i].text.hashes)), v)
    ensures v.near && v.score >= 0.7
    ensures i == |history| - 1 ==> v.score == 1.0 && v.uuid == Some(history[i].uuid)
  {
    var (rows, e) := (Signatures(history), history[i]);
    var q := Pack(Signature(e.text.hashes));
    var k := PositionOf(history, i);
    LaterRows(history, i, account, k);
    LikeItself(e);
    hide Likeness, Signatures, LaterUuids, Ahead, IsLatest, Pack, Signature;
    assert Reaches(rows, account, limit, q, k, 0.7);
    if i == |history| - 1 {
      NewestIsFirst(history);
      var f: nat :| FirstNear(rows, account, limit, q, f) && Tells(v, rows[f], q);
      AheadNone(rows, account);
      assert Reaches(rows, account, limit, q, 0, 0.7);
      assert f == 0;
    }
  }

  lemma AheadNone(rows: seq<Row>, account: string)
    ensures Ahead(rows, account, 0) == 0
  {
  }

  lemma NewestIsFirst(history: seq<Report>)
    requires history != [] && !history[|history| - 1].text.blank
    ensures Signatures(history) != [] && Signatures(history)[0] == RowOf(history[|history| - 1])
  {
    hide Signature, Pack;
  }

  lemma LikeItself(e: Report)
    ensures RowOf(e).uuid == e.uuid && RowOf(e).account == e.account
    ensures Likeness(Pack(Signature(e.text.hashes)), RowOf(e)) == 1.0
  {
    UnpackPacked(Signature(e.text.hashes));
    JaccardExtremes(e.text.hashes, e.text.hashes);
    hide Pack, Unpack, Signature, Jaccard;
  }

  lemma LaterRows(history: seq<Report>, i: nat, account: string, k: nat)
    requires k < |Signatures(history)|
    requires forall j :: 0 <= j < k ==> FromLater(history, i, Signatures(history)[j])
    ensures Ahead(Signatures(history), account, k) <= |LaterUuids(history, i, account)|
  {
    var rows := Signatures(history);
    SignaturesUnique(history);
    hide Signatures, Signature, Pack;
    forall j | 0 <= j < k && Matches(rows[j], account) ensures rows[j].uuid in LaterUuids(history, i, account) {
      var m :| i < m < |history| && !history[m].text.blank && rows[j] == RowOf(history[m]);
      assert history[m].uuid in LaterUuids(history, i, account);
    }
    AheadIsFew(rows, account, k, LaterUuids(history, i, account));
  }

  lemma {:induction false} OfAccountIgnores(rows: seq<Row>, row: Row, account: string)
    requires row.account != account && (forall r :: r in rows ==> r.uuid != row.uuid)
    ensures OfAccount(Store(rows, row), account) == OfAccount(rows, account)
  {
    OthersOfNew(rows, row.uuid);
  }

  lemma {:induction false} OthersOfNew(rows: seq<Row>, uuid: string)
    requires forall r :: r in rows ==> r.uuid != uuid
    ensures Others(rows, uuid) == rows
  {
    if rows != [] {
      OthersOfNew(rows[1..], uuid);
    }
  }

  class Detector {
    var signatures: seq<Row>
    var contents: seq<ContentRow>

    constructor ()
      ensures signatures == Signatures([]) && contents == Contents([])
    {
      signatures := [];
      contents := [];
    }

    /** The tables are those of a history. */
    ghost predicate Reflects(history: seq<Report>)
      reads this
    {
      signatures == Signatures(history) && contents == Contents(history)
    }

    method AddSpam(e: Report, ghost history: seq<Report>)
      requires Reflects(history)
      modifies this
      ensures Reflects(history + [e])
    {
      assert (history + [e])[..|history|] == history;
      if e.text.blank {
        return;
      }
      var signature := MinhashSignature(e.text.hashes);
      signatures := Store(signatures, Row(e.uuid, e.account, signature));
      if Present(contents, e) {
        contents := Bump(contents, e);
      } else {
        contents := contents + [ContentRow(e.text.content, e.domain, e.account, 1)];
      }
    }

    method RemoveMessage(uuid: string)
      modifies this
      ensures signatures == Others(old(signatures), uuid) && contents == old(contents)
    {
      signatures := Others(signatures, uuid);
    }

    /** The scan stops at the first row that is good enough. */
    method CheckSimilarity(text: Text, account: string, limit: nat) returns (v: Verdict)
      ensures text.blank ==> v == Verdict(0.0, None, false, false)
      ensures !text.blank ==> Answers(signatures, account, limit, Pack(Signature(text.hashes)), v)
    {
      hide Pack, Unpack, Signature, OfAccount, Recent, Answers;
      if text.blank {
        return Verdict(0.0, None, false, false);
      }
      var q := MinhashSignature(text.hashes);
      var rows := Recent(signatures, account, limit);
      var bestScore: real, bestUuid: Option<string> := 0.0, None;
      ghost var best: nat := 0;
      var k := 0;
      while k < |rows|
        invariant 0 <= k <= |rows|
        invariant 0.0 <= bestScore < NEAR_DUPE
        invariant forall j :: 0 <= j < k ==> Likeness(q, rows[j]) <= bestScore
        invariant bestScore == 0.0 ==> bestUuid == None
        invariant bestScore > 0.0 ==> best < k && bestScore == Likeness(q, rows[best])
        invariant bestScore > 0.0 ==> bestUuid == Some(rows[best].uuid)
        invariant bestScore > 0.0 ==> forall j :: 0 <= j < best ==> Likeness(q, rows[j]) < bestScore
      {
        if |rows[k].sig| == 4 * NUM_PERM {
          var sim := JaccardFromBytes(q, rows[k].sig);
          assert sim == Likeness(q, rows[k]);
          if sim > bestScore {
            bestScore := sim;
            bestUuid := Some(rows[k].uuid);
            best := k;
            if bestScore >= NEAR_DUPE {
              assert NewestNear(rows, q, best);
              break;
            }
          }
        }
        k := k + 1;
      }
      if bestScore < NEAR_DUPE && bestScore > 0.0 {
        assert NewestBest(rows, q, best);
      }
      v := Verdict(bestScore, bestUuid, bestScore >= NEAR_DUPE, bestScore >= SIMILAR);
      ScanAnswers(signatures, account, limit, q, v);
    }

    method CheckRepeated(text: Text, domain: string, account: string, ghost history: seq<Report>) returns (r: Repetition)
      requires Reflects(history)
      ensures r == Expected(history, text, domain, account)
    {
      if text.blank || account == "" {
        return Repetition(false, 0, 0, Unremarkable);
      }
      var rows := Select(contents, text.content, account);
      SelectedAgree(history, text.content, account);
      TimesOfSenders(history, text.content, domain, account);
      var total := Total(rows);
      if rows == [] {
        return Repetition(false, 0, 0, Unremarkable);
      }
      if domain != "" {
        var k := 0;
        while k < |rows|
          invariant 0 <= k <= |rows|
          invariant forall j :: 0 <= j < k ==> rows[j].domain == domain ==> rows[j].count < SAME_SENDER_MAX
        {
          if rows[k].domain == domain && rows[k].count >= SAME_SENDER_MAX {
            return Repetition(true, total, |rows|, SameSender(rows[k].count));
          }
          k := k + 1;
        }
      }
      if |rows| >= DIFF_SENDER_MIN {
        return Repetition(true, total, |rows|, ManySenders);
      }
      return Repetition(false, total, |rows|, Unremarkable);
    }
  }
}
