/**
 The generated Sieve block script, and how a Sieve interpreter reads the strings in it
 (section 2.4.2 of RFC 5228).
 */
module SieveScript {
  import opened Options

  // ----- escaping -----

  /** str.replace of a single character. */
  function Replace(s: string, c: char, other: string): string {
    if s == [] then [] else (if s[0] == c then other else [s[0]]) + Replace(s[1..], c, other)
  }

  /** _quote_reject_message: backslashes first, then quotes. */
  function Quote(text: string): string {
    Replace(Replace(text, '\\', "\\\\"), '"', "\\\"")
  }

  /** Read a quoted string after its opening quote: its text, and what follows the closing quote. */
  function Scan(s: string): Option<(string, string)> {
    if s == [] then None
    else if s[0] == '"' then Some(("", s[1..]))
    else if s[0] == '\\' then
      if |s| == 1 then None else Prepend(s[1], Scan(s[2..]))
    else Prepend(s[0], Scan(s[1..]))
  }

  function Prepend(c: char, r: Option<(string, string)>): Option<(string, string)> {
    if r.Some? then Some(([c] + r.value.0, r.value.1)) else None
  }

  predicate Special(c: char) {
    c == '"' || c == '\\'
  }

  predicate Clean(s: string) {
    forall k :: 0 <= k < |s| ==> !Special(s[k])
  }

  /** Each character escaped by itself: what the two passes amount to. */
  function Escape(c: char): string {
    if Special(c) then ['\\', c] else [c]
  }

  lemma ReplaceStep(head: string, rest: string, c: char, other: string)
    requires |head| == 1
    ensures Replace(head + rest, c, other) == (if head[0] == c then other else head) + Replace(rest, c, other)
  {
    assert (head + rest)[1..] == rest;
  }

  lemma Joined(a: string, b: string, c: string)
    ensures a + (b + c) == (a + b) + c
  {
  }

  lemma {:induction false} ReplaceAppend(s: string, t: string, c: char, other: string)
    ensures Replace(s + t, c, other) == Replace(s, c, other) + Replace(t, c, other)
  {
    if s == [] {
      assert s + t == t;
    } else {
      hide *;
      var head, rest := s[..1], s[1..];
      assert s == head + rest;
      ReplaceAppend(rest, t, c, other);
      ReplaceStep(head, rest, c, other);
      Joined(head, rest, t);
      ReplaceStep(head, rest + t, c, other);
      Joined(if head[0] == c then other else head, Replace(rest, c, other), Replace(t, c, other));
    }
  }

  lemma ReplaceOne(c: char, d: char, other: string)
    ensures Replace([d], c, other) == if d == c then other else [d]
  {
    assert [d][1..] == [];
  }

  lemma QuoteStep(text: string)
    requires text != []
    ensures Quote(text) == Escape(text[0]) + Quote(text[1..])
  {
    var c := text[0];
    var head := if c == '\\' then "\\\\" else [c];
    var rest := Replace(text[1..], '\\', "\\\\");
    assert Replace(text, '\\', "\\\\") == head + rest;
    ReplaceAppend(head, rest, '"', "\\\"");
    ReplaceOne('"', c, "\\\"");
    if c == '\\' {
      ReplaceAppend(['\\'], ['\\'], '"', "\\\"");
      assert head == ['\\'] + ['\\'];
    }
  }

  /** Reading an escaped string back gives it unchanged, whatever it contains and whatever follows. */
  lemma {:induction false} ScanQuoted(text: string, more: string)
    ensures Scan(Quote(text) + "\"" + more) == Some((text, more))
  {
    var s := Quote(text) + "\"" + more;
    if text == [] {
      assert s == "\"" + more && s[1..] == more;
    } else {
      QuoteStep(text);
      var rest := Quote(text[1..]) + "\"" + more;
      ScanQuoted(text[1..], more);
      assert s == Escape(text[0]) + rest;
      assert text == [text[0]] + text[1..];
      ScanEscape(text[0], rest);
    }
  }

  lemma ScanEscape(c: char, rest: string)
    ensures Scan(Escape(c) + rest) == Prepend(c, Scan(rest))
  {
    var s := Escape(c) + rest;
    if Special(c) {
      assert s[2..] == rest;
    } else {
      assert s[1..] == rest;
    }
  }

  lemma {:induction false} ScanClean(text: string, more: string)
    requires Clean(text)
    ensures Scan(text + "\"" + more) == Some((text, more))
  {
    var s := text + "\"" + more;
    if text == [] {
      assert s[1..] == more;
    } else {
      ScanClean(text[1..], more);
      assert s == Escape(text[0]) + (text[1..] + "\"" + more);
      assert text == [text[0]] + text[1..];
      ScanEscape(text[0], text[1..] + "\"" + more);
    }
  }

  /** What an unescaped string with a quote or backslash in it may be read as: something else. */
  predicate Misread(text: string, r: string) {
    |r| < |text| || (text != [] && r != [] && text[|text| - 1] == '\\' && r[|r| - 1] != '\\')
  }

  lemma LastEscaped(next: string, more: string)
    requires Clean(next) && next != []
    ensures Scan("\\\"" + next + "\"" + more) == Some((['"'] + next, more))
  {
    var s := "\\\"" + next + "\"" + more;
    assert s[2..] == next + "\"" + more;
    ScanClean(next, more);
  }

  lemma {:induction false} ScanUnclean(text: string, next: string, more: string)
    requires !Clean(text) && Clean(next) && next != []
    ensures var r := Scan(text + "\"" + (next + "\"" + more));
            r.Some? && Misread(text, r.value.0)
  {
    var after := next + "\"" + more;
    var s := text + "\"" + after;
    assert s[0] == text[0];
    if text[0] == '\\' && |text| == 1 {
      assert s == "\\\"" + next + "\"" + more;
      LastEscaped(next, more);
    } else if text[0] != '"' {
      var n := if text[0] == '\\' then 2 else 1;
      var rest := text[n..];
      assert s[n..] == rest + "\"" + after;
      if Clean(rest) {
        ScanClean(rest, after);
      } else {
        ScanUnclean(rest, next, more);
      }
    }
  }

  // ----- sorted(set(domains)) -----

  /** Python's order on strings. */
  predicate Less(s: string, t: string) {
    t != [] && (s == [] || s[0] < t[0] || (s[0] == t[0] && Less(s[1..], t[1..])))
  }

  lemma {:induction false} LessTotal(s: string, t: string)
    ensures s == t || Less(s, t) || Less(t, s)
    ensures !(Less(s, t) && Less(t, s)) && !Less(s, s)
  {
    if s != [] && t != [] {
      LessTotal(s[1..], t[1..]);
      LessIrreflexive(s);
      if s[0] == t[0] && s[1..] == t[1..] {
        assert s == [s[0]] + s[1..] && t == [t[0]] + t[1..];
      }
    } else if s != [] {
      LessIrreflexive(s);
    }
  }

  lemma {:induction false} LessIrreflexive(s: string)
    ensures !Less(s, s)
  {
    if s != [] {
      LessIrreflexive(s[1..]);
    }
  }

  lemma {:induction false} LessTransitive(s: string, t: string, u: string)
    requires Less(s, t) && Less(t, u)
    ensures Less(s, u)
  {
    if s != [] && s[0] == t[0] == u[0] {
      LessTransitive(s[1..], t[1..], u[1..]);
    }
  }

  /** The first n characters agree. */
  predicate Agree(s: string, t: string, n: nat) {
    n <= |s| && n <= |t| && s[..n] == t[..n]
  }

  /** Less is the order of a dictionary: a proper beginning, or a smaller character at the first difference. */
  lemma {:induction false} LessMeans(s: string, t: string)
    ensures Less(s, t) <==>
      exists n: nat :: Agree(s, t, n) && n < |t| && (n == |s| || s[n] < t[n])
  {
    forall n: nat | n > 0 && Agree(s, t, n) ensures s[0] == t[0] {
      assert s[..n][0] == s[0] && t[..n][0] == t[0];
    }
    if s == "" || t == "" || s[0] != t[0] {
      assert Agree(s, t, 0);
    } else {
      LessMeans(s[1..], t[1..]);
      if n: nat :| Agree(s, t, n) && n < |t| && (n == |s| || s[n] < t[n]) {
        assert n > 0;
        assert s[1..][..n - 1] == s[..n][1..] && t[1..][..n - 1] == t[..n][1..];
        assert Agree(s[1..], t[1..], n - 1);
      }
      if n: nat :| Agree(s[1..], t[1..], n) && n < |t[1..]| && (n == |s[1..]| || s[1..][n] < t[1..][n]) {
        assert s[..n + 1] == [s[0]] + s[1..][..n] && t[..n + 1] == [t[0]] + t[1..][..n];
        assert Agree(s, t, n + 1);
      }
    }
  }

  predicate Increasing(ds: seq<string>) {
    forall i, j :: 0 <= i < j < |ds| ==> Less(ds[i], ds[j])
  }

  function Insert(d: string, ds: seq<string>): seq<string> {
    if ds == [] then [d]
    else if d == ds[0] then ds
    else if Less(d, ds[0]) then [d] + ds
    else [ds[0]] + Insert(d, ds[1..])
  }

  function SortedSet(ds: seq<string>): seq<string> {
    if ds == [] then [] else Insert(ds[0], SortedSet(ds[1..]))
  }

  ghost predicate SameElements(a: seq<string>, b: seq<string>) {
    forall d :: d in a <==> d in b
  }

  lemma {:induction false} InsertKeeps(d: string, ds: seq<string>)
    requires Increasing(ds)
    ensures Increasing(Insert(d, ds))
    ensures forall x :: x in Insert(d, ds) <==> x == d || x in ds
  {
    if ds != [] && d != ds[0] {
      LessTotal(d, ds[0]);
      if Less(d, ds[0]) {
        forall j | 0 <= j < |ds| ensures Less(d, ds[j]) {
          if j > 0 {
            LessTransitive(d, ds[0], ds[j]);
          }
        }
      } else {
        InsertKeeps(d, ds[1..]);
        var rest := Insert(d, ds[1..]);
        forall j | 0 <= j < |rest| ensures Less(ds[0], rest[j]) {
          assert rest[j] in rest;
          if rest[j] != d {
            var k :| 0 <= k < |ds[1..]| && ds[1..][k] == rest[j];
            assert ds[k + 1] == rest[j];
          }
        }
        assert ds == [ds[0]] + ds[1..];
      }
    }
  }

  lemma {:induction false} SortedSetFacts(ds: seq<string>)
    ensures Increasing(SortedSet(ds)) && SameElements(SortedSet(ds), ds)
  {
    if ds != [] {
      SortedSetFacts(ds[1..]);
      InsertKeeps(ds[0], SortedSet(ds[1..]));
      assert ds == [ds[0]] + ds[1..];
    }
  }

  /** There is one strictly increasing list of given elements. */
  lemma {:induction false} IncreasingUnique(a: seq<string>, b: seq<string>)
    requires Increasing(a) && Increasing(b) && SameElements(a, b)
    ensures a == b
  {
    SameEmptiness(a, b);
    SameEmptiness(b, a);
    if a != [] {
      HeadIsLeast(a, b);
      HeadIsLeast(b, a);
      LessTotal(a[0], b[0]);
      forall d ensures d in a[1..] <==> d in b[1..] {
        TailOf(a, d);
        TailOf(b, d);
      }
      IncreasingUnique(a[1..], b[1..]);
      assert a == [a[0]] + a[1..] && b == [b[0]] + b[1..];
    }
  }

  lemma SameEmptiness(a: seq<string>, b: seq<string>)
    requires SameElements(a, b)
    ensures a == [] ==> b == []
  {
    if b != [] {
      var d := b[0];
      assert d in a;
    }
  }

  lemma HeadIsLeast(a: seq<string>, b: seq<string>)
    requires a != [] && b != [] && Increasing(a) && SameElements(a, b)
    ensures a[0] == b[0] || Less(a[0], b[0])
  {
    assert b[0] in a;
    var k :| 0 <= k < |a| && a[k] == b[0];
  }

  lemma TailOf(a: seq<string>, d: string)
    requires a != [] && Increasing(a)
    ensures d in a[1..] <==> d in a && d != a[0]
  {
    if d in a[1..] {
      var k :| 0 <= k < |a[1..]| && a[1..][k] == d;
      LessIrreflexive(d);
      assert a[k + 1] == d;
    }
    assert a == [a[0]] + a[1..];
  }

  // ----- the script -----

  const HEADER := "require [\"reject\", \"address\"];\n\n"
  const OPEN := "if address :domain :contains \"from\" \""
  const MIDDLE := " {\n    reject "
  const MESSAGE := "Blocked domain: "
  const CLOSE := ";\n}\n"

  /** One block and the line end after it. */
  function Block(d: string): string {
    OPEN + d + "\"" + MIDDLE + "\"" + MESSAGE + Quote(d) + "\"" + CLOSE
  }

  function Blocks(ds: seq<string>): string {
    if ds == [] then "" else Block(ds[0]) + Blocks(ds[1..])
  }

  function Script(domains: seq<string>): string {
    if domains == [] then "" else HEADER + Blocks(SortedSet(domains))
  }

  /** generate_block_script */
  method GenerateBlockScript(domains: seq<string>) returns (script: string)
    ensures script == Script(domains)
  {
    hide Block, SortedSet, HEADER;
    if domains == [] {
      return "";
    }
    var ds := SortedSet(domains);
    script := HEADER;
    var k := 0;
    while k < |ds|
      invariant 0 <= k <= |ds|
      invariant script + Blocks(ds[k..]) == HEADER + Blocks(ds)
    {
      assert ds[k..][1..] == ds[k + 1..];
      script := script + Block(ds[k]);
      k := k + 1;
    }
  }

  /** The script depends on the set of domains alone, not on their order or repetition. */
  lemma ScriptOfSet(a: seq<string>, b: seq<string>)
    requires SameElements(a, b)
    ensures Script(a) == Script(b)
  {
    SortedSetFacts(a);
    SortedSetFacts(b);
    IncreasingUnique(SortedSet(a), SortedSet(b));
    SameEmptiness(a, b);
    SameEmptiness(b, a);
  }

  // ----- clean domains -----

  predicate AllClean(ds: seq<string>) {
    forall k :: 0 <= k < |ds| ==> Clean(ds[k])
  }

  lemma AllCleanStep(ds: seq<string>)
    requires ds != []
    ensures AllClean(ds) <==> Clean(ds[0]) && AllClean(ds[1..])
  {
    hide Clean;
    assert ds == [ds[0]] + ds[1..];
  }

  lemma CleanSets(a: seq<string>, b: seq<string>)
    requires SameElements(a, b)
    ensures AllClean(a) <==> AllClean(b)
  {
    hide Clean;
    assert AllClean(a) <==> (forall d :: d in a ==> Clean(d));
    assert AllClean(b) <==> (forall d :: d in b ==> Clean(d));
  }

  lemma CleanTail(s: string)
    requires Clean(s) && s != []
    ensures !Special(s[0]) && Clean(s[1..])
  {
  }

  lemma {:induction false} QuoteClean(s: string, t: string)
    requires Clean(s)
    ensures Quote(s + t) == s + Quote(t)
  {
    hide Quote, Clean;
    if s == [] {
      assert s + t == t;
    } else {
      CleanTail(s);
      QuoteStep(s + t);
      assert (s + t)[1..] == s[1..] + t;
      QuoteClean(s[1..], t);
      assert s + Quote(t) == [s[0]] + (s[1..] + Quote(t));
    }
  }

  lemma {:induction false} ScanShorter(s: string)
    ensures Scan(s).Some? ==> |Scan(s).value.1| < |s|
  {
    if s != [] && s[0] != '"' {
      if s[0] != '\\' {
        ScanShorter(s[1..]);
      } else if |s| > 1 {
        ScanShorter(s[2..]);
      }
    }
  }

  lemma BlockNotEmpty(d: string, more: string)
    ensures Block(d) + more != ""
  {
    hide Quote;
    assert |OPEN| > 0;
  }

  // ----- each block lengthens the script -----

  lemma {:induction false} InsertLengthens(d: string, ds: seq<string>)
    requires d !in ds
    ensures |Blocks(Insert(d, ds))| > |Blocks(ds)|
  {
    hide Block;
    BlockPositive(d);
    if ds != [] && !Less(d, ds[0]) {
      InsertLengthens(d, ds[1..]);
    } else {
      assert ([d] + ds)[1..] == ds;
    }
  }

  lemma BlockPositive(d: string)
    ensures |Block(d)| > 0
  {
    BlockNotEmpty(d, "");
    assert Block(d) + "" == Block(d);
  }

  /** The script of the old domains and one more is longer than that of the old ones. */
  lemma ScriptLengthens(shorter: seq<string>, longer: seq<string>, d: string)
    requires d !in shorter && (forall x :: x in longer <==> x == d || x in shorter)
    ensures |Script(longer)| > |Script(shorter)|
  {
    assert d in longer;
    ScriptOfSet(longer, [d] + shorter);
    SortedSetFacts(shorter);
    assert ([d] + shorter)[1..] == shorter;
    hide Blocks, Insert;
    InsertLengthens(d, SortedSet(shorter));
  }
}
