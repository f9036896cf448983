/**
 A reader for the block script that knows nothing of how it was written: the tokens of
 section 2 of RFC 5228, the "require" command, and "if" commands with one address test and one
 reject action; and what such rules reject.
 */
module SieveReader {
  import opened Options
  import opened SieveScript

  datatype Token = Word(text: string) | Tag(text: string) | Quoted(text: string) | Mark(mark: char)

  /** if address :part :match header key { reject message; } */
  datatype Rule = Rule(part: string, match_: string, header: string, key: string, message: string)

  predicate White(c: char) {
    c == ' ' || c == '\n' || c == '\r' || c == '\t'
  }

  predicate Letter(c: char) {
    'a' <= c <= 'z' || 'A' <= c <= 'Z'
  }

  predicate IsMark(c: char) {
    c == '[' || c == ']' || c == '{' || c == '}' || c == ',' || c == ';'
  }

  /** The letters that s begins with, and what follows. */
  function Letters(s: string): (r: (string, string))
    ensures |r.1| <= |s|
    ensures s != "" && Letter(s[0]) ==> |r.1| < |s|
  {
    if s == "" || !Letter(s[0]) then ("", s)
    else
      var (word, rest) := Letters(s[1..]);
      ([s[0]] + word, rest)
  }

  function Next(s: string): (r: Option<(Token, string)>)
    ensures r.Some? ==> |r.value.1| < |s|
  {
    if s == "" then None
    else if White(s[0]) then Next(s[1..])
    else if s[0] == '"' then
      ScanShorter(s[1..]);
      var q := Scan(s[1..]);
      if q.Some? then Some((Quoted(q.value.0), q.value.1)) else None
    else if s[0] == ':' then
      var (word, rest) := Letters(s[1..]);
      Some((Tag(word), rest))
    else if Letter(s[0]) then
      var (word, rest) := Letters(s);
      Some((Word(word), rest))
    else if IsMark(s[0]) then Some((Mark(s[0]), s[1..]))
    else None
  }

  /** The next n tokens. */
  function Tokens(s: string, n: nat): (r: Option<(seq<Token>, string)>)
    ensures r.Some? ==> |r.value.0| == n && |r.value.1| <= |s| - n
    decreases n
  {
    if n == 0 then Some(([], s))
    else
      var t := Next(s);
      if t.None? then None
      else
        var rest := Tokens(t.value.1, n - 1);
        if rest.None? then None else Some(([t.value.0] + rest.value.0, rest.value.1))
  }

  /** The eleven tokens of one "if" command. */
  function RuleOf(ts: seq<Token>): Option<Rule>
    requires |ts| == 11
  {
    if ts[0] == Word("if") && ts[1] == Word("address") && ts[2].Tag? && ts[3].Tag? && ts[4].Quoted? && ts[5].Quoted?
       && ts[6] == Mark('{') && ts[7] == Word("reject") && ts[8].Quoted? && ts[9] == Mark(';') && ts[10] == Mark('}')
    then Some(Rule(ts[2].text, ts[3].text, ts[4].text, ts[5].text, ts[8].text))
    else None
  }

  function ReadRule(s: string): (r: Option<(Rule, string)>)
    ensures r.Some? ==> |r.value.1| < |s|
  {
    var ts := Tokens(s, 11);
    if ts.None? then None
    else
      var rule := RuleOf(ts.value.0);
      if rule.None? then None else Some((rule.value, ts.value.1))
  }

  predicate AllWhite(s: string) {
    forall k :: 0 <= k < |s| ==> White(s[k])
  }

  function ReadRules(s: string): Option<seq<Rule>>
    decreases |s|
  {
    if AllWhite(s) then Some([])
    else
      var one := ReadRule(s);
      if one.None? then None
      else
        var rest := ReadRules(one.value.1);
        if rest.None? then None else Some([one.value.0] + rest.value)
  }

  /** A script without any text has no rules; any other begins with the extensions that it requires. */
  function ReadScript(s: string): Option<seq<Rule>> {
    if s == "" then Some([])
    else
      var ts := Tokens(s, 7);
      if ts.Some? && ts.value.0 == [Word("require"), Mark('['), Quoted("reject"), Mark(','), Quoted("address"), Mark(']'), Mark(';')]
      then ReadRules(ts.value.1) else None
  }

  // ----- reading text that is given piece by piece -----

  datatype Piece = Blank(c: char) | Of(token: Token)

  function Render(p: Piece): string {
    match p
    case Blank(c) => [c]
    case Of(Word(w)) => w
    case Of(Tag(w)) => ":" + w
    case Of(Quoted(t)) => "\"" + t + "\""
    case Of(Mark(c)) => [c]
  }

  function Text(ps: seq<Piece>): string {
    if ps == [] then "" else Render(ps[0]) + Text(ps[1..])
  }

  function TokensOf(ps: seq<Piece>): seq<Token> {
    if ps == [] then [] else (if ps[0].Of? then [ps[0].token] else []) + TokensOf(ps[1..])
  }

  predicate AllLetters(w: string) {
    w != "" && forall k :: 0 <= k < |w| ==> Letter(w[k])
  }

  predicate Readable(p: Piece) {
    match p
    case Blank(c) => White(c)
    case Of(Word(w)) => AllLetters(w)
    case Of(Tag(w)) => AllLetters(w)
    case Of(Quoted(t)) => Clean(t)
    case Of(Mark(c)) => IsMark(c)
  }

  predicate StartsOff(s: string) {
    s == "" || !Letter(s[0])
  }

  /** A word or a tag ends where something else than a letter follows. */
  predicate Spaced(ps: seq<Piece>, x: string) {
    ps == [] ||
    (Readable(ps[0]) && Spaced(ps[1..], x)
     && (ps[0].Of? && (ps[0].token.Word? || ps[0].token.Tag?) ==> StartsOff(Text(ps[1..]) + x)))
  }

  function Before(ts: seq<Token>, r: Option<(seq<Token>, string)>): Option<(seq<Token>, string)> {
    if r.None? then None else Some((ts + r.value.0, r.value.1))
  }

  lemma {:induction false} LettersOf(w: string, rest: string)
    requires (forall k :: 0 <= k < |w| ==> Letter(w[k])) && StartsOff(rest)
    ensures Letters(w + rest) == (w, rest)
  {
    hide Letter;
    if w == "" {
      assert w + rest == rest;
    } else {
      LettersOf(w[1..], rest);
      assert (w + rest)[0] == w[0] && (w + rest)[1..] == w[1..] + rest;
      assert w == [w[0]] + w[1..];
    }
  }

  lemma NextBlank(c: char, rest: string)
    requires White(c)
    ensures Next([c] + rest) == Next(rest)
  {
    assert ([c] + rest)[1..] == rest;
  }

  lemma NextWord(w: string, rest: string)
    requires AllLetters(w) && StartsOff(rest)
    ensures Next(w + rest) == Some((Word(w), rest))
  {
    LettersOf(w, rest);
    assert (w + rest)[0] == w[0] && Letter(w[0]);
    hide Letters;
  }

  lemma NextTag(w: string, rest: string)
    requires AllLetters(w) && StartsOff(rest)
    ensures Next(":" + w + rest) == Some((Tag(w), rest))
  {
    LettersOf(w, rest);
    assert (":" + w + rest)[1..] == w + rest;
    hide Letters;
  }

  lemma NextMark(c: char, rest: string)
    requires IsMark(c)
    ensures Next([c] + rest) == Some((Mark(c), rest))
  {
    assert ([c] + rest)[1..] == rest;
  }

  lemma NextQuoted(inside: string)
    ensures Next("\"" + inside) == if Scan(inside).Some? then Some((Quoted(Scan(inside).value.0), Scan(inside).value.1)) else None
  {
    assert ("\"" + inside)[1..] == inside;
  }

  lemma NextPiece(p: Piece, rest: string)
    requires Readable(p) && p.Of? && (p.token.Word? || p.token.Tag? ==> StartsOff(rest))
    ensures Next(Render(p) + rest) == Some((p.token, rest))
  {
    hide Next, StartsOff, Scan, AllLetters;
    match p.token {
      case Word(w) => NextWord(w, rest);
      case Tag(w) => NextTag(w, rest);
      case Mark(c) => NextMark(c, rest);
      case Quoted(t) =>
        ScanClean(t, rest);
        NextQuoted(t + "\"" + rest);
        assert "\"" + t + "\"" + rest == "\"" + (t + "\"" + rest);
    }
  }

  lemma TokenStep(s: string, t: Token, rest: string, m: nat)
    requires Next(s) == Some((t, rest))
    ensures Tokens(s, m + 1) == Before([t], Tokens(rest, m))
  {
    hide Next;
  }

  lemma BeforeTwice(a: seq<Token>, b: seq<Token>, r: Option<(seq<Token>, string)>)
    ensures Before(a, Before(b, r)) == Before(a + b, r)
  {
    if r.Some? {
      assert a + (b + r.value.0) == (a + b) + r.value.0;
    }
  }

  lemma TextFirst(ps: seq<Piece>)
    requires ps != []
    ensures Text(ps) == Render(ps[0]) + Text(ps[1..])
    ensures TokensOf(ps) == (if ps[0].Of? then [ps[0].token] else []) + TokensOf(ps[1..])
  {
    hide Render;
  }

  lemma TextNone(ps: seq<Piece>, x: string)
    requires ps == []
    ensures Text(ps) + x == x && TokensOf(ps) == []
  {
  }

  lemma SpacedFirst(ps: seq<Piece>, x: string)
    requires Spaced(ps, x) && ps != []
    ensures Readable(ps[0]) && Spaced(ps[1..], x)
    ensures ps[0].Of? && (ps[0].token.Word? || ps[0].token.Tag?) ==> StartsOff(Text(ps[1..]) + x)
  {
    hide Readable, StartsOff, Text;
  }

  /** Pieces are read as their tokens, and then what follows them is read. */
  lemma {:induction false} ReadPieces(ps: seq<Piece>, x: string, n: nat)
    requires Spaced(ps, x) && n > 0
    ensures Tokens(Text(ps) + x, |TokensOf(ps)| + n) == Before(TokensOf(ps), Tokens(x, n))
  {
    hide *;
    if ps == [] {
      TextNone(ps, x);
      NothingBefore(Tokens(x, n));
    } else {
      var (p, more) := (ps[0], ps[1..]);
      var rest := Text(more) + x;
      SpacedFirst(ps, x);
      ReadPieces(more, x, n);
      TextFirst(ps);
      Joined(Render(p), Text(more), x);
      var m := |TokensOf(more)| + n;
      if p.Of? {
        NextPiece(p, rest);
        TokenStep(Render(p) + rest, p.token, rest, m);
        BeforeTwice([p.token], TokensOf(more), Tokens(x, n));
      } else {
        BlankTokens(p, rest, m);
        assert TokensOf(ps) == TokensOf(more);
      }
    }
  }

  lemma NothingBefore(r: Option<(seq<Token>, string)>)
    ensures Before([], r) == r
  {
    if r.Some? {
      assert [] + r.value.0 == r.value.0;
    }
  }

  lemma BlankTokens(p: Piece, rest: string, m: nat)
    requires p.Blank? && Readable(p) && m > 0
    ensures Tokens(Render(p) + rest, m) == Tokens(rest, m)
  {
    NextBlank(p.c, rest);
    hide Next;
  }

  // ----- the pieces of a block -----

  /** A piece and the space after it. */
  function Then(t: Token): seq<Piece> {
    [Of(t), Blank(' ')]
  }

  lemma ThenText(t: Token)
    ensures Text(Then(t)) == Render(Of(t)) + " "
  {
    OneText(Blank(' '));
    assert Then(t)[1..] == [Blank(' ')];
    hide Render;
    assert Render(Blank(' ')) == " " by { BlankText(' '); }
  }

  lemma BlankText(c: char)
    ensures Render(Blank(c)) == [c]
  {
  }

  lemma OneText(p: Piece)
    ensures Text([p]) == Render(p)
  {
    assert [p][1..] == [];
    hide Render;
  }

  lemma {:induction false} TextAppend(a: seq<Piece>, b: seq<Piece>)
    ensures Text(a + b) == Text(a) + Text(b)
  {
    hide *;
    if a == [] {
      assert a + b == b;
      TextNone(a, Text(b));
    } else {
      TextAppend(a[1..], b);
      assert (a + b)[1..] == a[1..] + b && (a + b)[0] == a[0];
      TextFirst(a);
      TextFirst(a + b);
      Joined(Render(a[0]), Text(a[1..]), Text(b));
    }
  }

  /** if address :domain :contains "from" */
  function OpenPieces(): seq<Piece> {
    Then(Word("if")) + (Then(Word("address")) + (Then(Tag("domain")) + (Then(Tag("contains")) + Then(Quoted("from")))))
  }

  /** { and, on the next line, reject */
  function MiddlePieces(): seq<Piece> {
    [Blank(' '), Of(Mark('{'))] + ([Blank('\n'), Blank(' '), Blank(' '), Blank(' '), Blank(' ')] + Then(Word("reject")))
  }

  lemma OpenText()
    ensures OPEN == Text(OpenPieces()) + "\""
  {
    var (a, b, c, d, e) := (Then(Word("if")), Then(Word("address")), Then(Tag("domain")), Then(Tag("contains")), Then(Quoted("from")));
    ThenText(Word("if"));
    ThenText(Word("address"));
    ThenText(Tag("domain"));
    ThenText(Tag("contains"));
    ThenText(Quoted("from"));
    assert Render(Of(Word("if"))) == "if" && Render(Of(Word("address"))) == "address" && Render(Of(Tag("domain"))) == ":" + "domain";
    assert Render(Of(Tag("contains"))) == ":" + "contains" && Render(Of(Quoted("from"))) == "\"" + "from" + "\"";
    hide Render, Text, Then;
    TextAppend(d, e);
    TextAppend(c, d + e);
    TextAppend(b, c + (d + e));
    TextAppend(a, b + (c + (d + e)));
    OpenLiteral();
  }

  lemma OpenLiteral()
    ensures OPEN == ("if" + " ") + (("address" + " ") + ((":" + "domain" + " ") + ((":" + "contains" + " ") + ("\"" + "from" + "\"" + " ")))) + "\""
  {
  }

  lemma MiddleText()
    ensures MIDDLE == Text(MiddlePieces())
  {
    var (a, b) := ([Blank(' '), Of(Mark('{'))], [Blank('\n'), Blank(' '), Blank(' '), Blank(' '), Blank(' ')]);
    ThenText(Word("reject"));
    BraceText(a);
    FiveText(b);
    assert Render(Of(Word("reject"))) == "reject";
    hide Text, Then, Render;
    TextAppend(b, Then(Word("reject")));
    TextAppend(a, b + Then(Word("reject")));
    assert MIDDLE == " {" + ("\n    " + ("reject" + " "));
  }

  lemma BraceText(a: seq<Piece>)
    requires a == [Blank(' '), Of(Mark('{'))]
    ensures Text(a) == " {"
  {
    TwoText(a[0], a[1]);
    hide Text;
  }

  lemma TwoText(p: Piece, q: Piece)
    ensures Text([p, q]) == Render(p) + Render(q)
  {
    TextFirst([p, q]);
    OneText(q);
    assert [p, q][1..] == [q];
    hide Text, Render;
  }

  lemma FiveText(b: seq<Piece>)
    requires b == [Blank('\n'), Blank(' '), Blank(' '), Blank(' '), Blank(' ')]
    ensures Text(b) == "\n    "
  {
    assert b[1..][1..] == b[2..] && b[2..][1..] == b[3..] && b[3..] == [Blank(' '), Blank(' ')];
    TextFirst(b);
    TextFirst(b[1..]);
    TextFirst(b[2..]);
    TwoText(Blank(' '), Blank(' '));
    hide Text;
  }

  /** require ["reject", "address"] */
  function HeaderPieces(): seq<Piece> {
    Then(Word("require")) + ([Of(Mark('[')), Of(Quoted("reject"))] + (Then(Mark(',')) + [Of(Quoted("address")), Of(Mark(']'))]))
  }

  lemma HeaderText()
    ensures HEADER == Text(HeaderPieces()) + (";" + "\n\n")
  {
    var (a, b, c, d) := (Then(Word("require")), [Of(Mark('[')), Of(Quoted("reject"))], Then(Mark(',')), [Of(Quoted("address")), Of(Mark(']'))]);
    ThenText(Word("require"));
    ThenText(Mark(','));
    TwoText(b[0], b[1]);
    TwoText(d[0], d[1]);
    assert Render(Of(Word("require"))) == "require" && Render(Of(Mark(','))) == ",";
    assert Render(b[0]) == "[" && Render(b[1]) == "\"" + "reject" + "\"";
    assert Render(d[0]) == "\"" + "address" + "\"" && Render(d[1]) == "]";
    hide Text, Then, Render;
    TextAppend(c, d);
    TextAppend(b, c + d);
    TextAppend(a, b + (c + d));
    HeaderLiteral();
  }

  lemma HeaderLiteral()
    ensures HEADER == ("require" + " ") + (("[" + ("\"" + "reject" + "\"")) + (("," + " ") + (("\"" + "address" + "\"") + "]"))) + (";" + "\n\n")
  {
  }

  // ----- the pieces are spaced -----

  lemma ThenSpaced(t: Token, ps: seq<Piece>, x: string)
    requires Readable(Of(t)) && Spaced(ps, x)
    ensures Spaced(Then(t) + ps, x)
  {
    var q := [Blank(' ')] + ps;
    assert q[1..] == ps && (Then(t) + ps)[1..] == q;
    TextFirst(q);
    hide Readable, Text;
    assert Readable(Blank(' ')) by { BlankReadable(); }
    assert Spaced(q, x);
    assert Text(q) + x == " " + (Text(ps) + x);
  }

  lemma BlankReadable()
    ensures Readable(Blank(' ')) && Readable(Blank('\n'))
  {
  }

  lemma OtherSpaced(p: Piece, ps: seq<Piece>, x: string)
    requires Readable(p) && Spaced(ps, x) && (p.Blank? || p.token.Quoted? || p.token.Mark?)
    ensures Spaced([p] + ps, x)
  {
    assert ([p] + ps)[1..] == ps;
    hide Readable, Text;
  }

  lemma WordsReadable()
    ensures Readable(Of(Word("if"))) && Readable(Of(Word("address"))) && Readable(Of(Word("reject"))) && Readable(Of(Word("require")))
    ensures Readable(Of(Tag("domain"))) && Readable(Of(Tag("contains")))
    ensures Readable(Of(Quoted("from"))) && Readable(Of(Quoted("reject"))) && Readable(Of(Quoted("address")))
    ensures Readable(Of(Mark('{'))) && Readable(Of(Mark('['))) && Readable(Of(Mark(']'))) && Readable(Of(Mark(',')))
  {
  }

  lemma OpenSpaced(x: string)
    ensures Spaced(OpenPieces(), x)
  {
    WordsReadable();
    hide Readable;
    assert Spaced([], x);
    assert Then(Quoted("from")) + [] == Then(Quoted("from"));
    hide Then, Spaced;
    var none: seq<Piece> := [];
    ThenSpaced(Quoted("from"), none, x);
    ThenSpaced(Tag("contains"), Then(Quoted("from")), x);
    ThenSpaced(Tag("domain"), Then(Tag("contains")) + Then(Quoted("from")), x);
    ThenSpaced(Word("address"), Then(Tag("domain")) + (Then(Tag("contains")) + Then(Quoted("from"))), x);
    ThenSpaced(Word("if"), Then(Word("address")) + (Then(Tag("domain")) + (Then(Tag("contains")) + Then(Quoted("from")))), x);
  }

  lemma MiddleSpaced(x: string)
    ensures Spaced(MiddlePieces(), x)
  {
    WordsReadable();
    BlankReadable();
    var none: seq<Piece> := [];
    assert Spaced(none, x);
    var (n, b) := (Blank('\n'), Blank(' '));
    assert Then(Word("reject")) + none == Then(Word("reject"));
    var t := Then(Word("reject"));
    assert MiddlePieces() == [b] + ([Of(Mark('{'))] + ([n] + ([b] + ([b] + ([b] + ([b] + t))))));
    hide Readable, Then, Spaced, MiddlePieces;
    ThenSpaced(Word("reject"), none, x);
    OtherSpaced(b, t, x);
    OtherSpaced(b, [b] + t, x);
    OtherSpaced(b, [b] + ([b] + t), x);
    OtherSpaced(b, [b] + ([b] + ([b] + t)), x);
    OtherSpaced(n, [b] + ([b] + ([b] + ([b] + t))), x);
    OtherSpaced(Of(Mark('{')), [n] + ([b] + ([b] + ([b] + ([b] + t)))), x);
    OtherSpaced(b, [Of(Mark('{'))] + ([n] + ([b] + ([b] + ([b] + ([b] + t))))), x);
  }

  lemma HeaderSpaced(x: string)
    ensures Spaced(HeaderPieces(), x)
  {
    WordsReadable();
    var none: seq<Piece> := [];
    assert Spaced(none, x);
    var (o, r, a, c) := (Of(Mark('[')), Of(Quoted("reject")), Of(Quoted("address")), Of(Mark(']')));
    assert [c] + none == [c];
    assert HeaderPieces() == Then(Word("require")) + ([o] + ([r] + (Then(Mark(',')) + ([a] + [c]))));
    hide Readable, Then, Spaced, HeaderPieces;
    OtherSpaced(c, none, x);
    OtherSpaced(a, [c], x);
    ThenSpaced(Mark(','), [a] + [c], x);
    OtherSpaced(r, Then(Mark(',')) + ([a] + [c]), x);
    OtherSpaced(o, [r] + (Then(Mark(',')) + ([a] + [c])), x);
    ThenSpaced(Word("require"), [o] + ([r] + (Then(Mark(',')) + ([a] + [c]))), x);
  }

  lemma {:induction false} TokensAppend(a: seq<Piece>, b: seq<Piece>)
    ensures TokensOf(a + b) == TokensOf(a) + TokensOf(b)
  {
    hide *;
    if a == [] {
      assert a + b == b;
      TextNone(a, "");
      assert [] + TokensOf(b) == TokensOf(b);
    } else {
      TokensAppend(a[1..], b);
      assert (a + b)[1..] == a[1..] + b && (a + b)[0] == a[0];
      TextFirst(a);
      TextFirst(a + b);
    }
  }

  lemma ThenTokens(t: Token)
    ensures TokensOf(Then(t)) == [t]
  {
    assert Then(t)[1..] == [Blank(' ')] && [Blank(' ')][1..] == [];
  }

  lemma OpenTokens()
    ensures TokensOf(OpenPieces()) == [Word("if"), Word("address"), Tag("domain"), Tag("contains"), Quoted("from")]
  {
    var (a, b, c, d, e) := (Then(Word("if")), Then(Word("address")), Then(Tag("domain")), Then(Tag("contains")), Then(Quoted("from")));
    ThenTokens(Word("if"));
    ThenTokens(Word("address"));
    ThenTokens(Tag("domain"));
    ThenTokens(Tag("contains"));
    ThenTokens(Quoted("from"));
    hide TokensOf, Then;
    TokensAppend(d, e);
    TokensAppend(c, d + e);
    TokensAppend(b, c + (d + e));
    TokensAppend(a, b + (c + (d + e)));
  }

  lemma MiddleTokens()
    ensures TokensOf(MiddlePieces()) == [Mark('{'), Word("reject")]
  {
    var (a, b) := ([Blank(' '), Of(Mark('{'))], [Blank('\n'), Blank(' '), Blank(' '), Blank(' '), Blank(' ')]);
    ThenTokens(Word("reject"));
    assert a[1..] == [Of(Mark('{'))] && a[1..][1..] == [];
    assert TokensOf(a) == [Mark('{')];
    NoTokens(b);
    hide TokensOf, Then;
    TokensAppend(b, Then(Word("reject")));
    TokensAppend(a, b + Then(Word("reject")));
  }

  lemma {:induction false} NoTokens(b: seq<Piece>)
    requires forall k :: 0 <= k < |b| ==> b[k].Blank?
    ensures TokensOf(b) == []
  {
    if b != [] {
      NoTokens(b[1..]);
    }
  }

  lemma HeaderTokens()
    ensures TokensOf(HeaderPieces()) == [Word("require"), Mark('['), Quoted("reject"), Mark(','), Quoted("address"), Mark(']')]
  {
    var (a, b, c, d) := (Then(Word("require")), [Of(Mark('[')), Of(Quoted("reject"))], Then(Mark(',')), [Of(Quoted("address")), Of(Mark(']'))]);
    ThenTokens(Word("require"));
    ThenTokens(Mark(','));
    TwoTokens(b[0], b[1]);
    TwoTokens(d[0], d[1]);
    hide TokensOf, Then;
    TokensAppend(c, d);
    TokensAppend(b, c + d);
    TokensAppend(a, b + (c + d));
  }

  lemma TwoTokens(p: Piece, q: Piece)
    requires p.Of? && q.Of?
    ensures TokensOf([p, q]) == [p.token, q.token]
  {
    assert [p, q][1..] == [q] && [q][1..] == [];
    assert TokensOf([q]) == [q.token] + TokensOf([]);
    assert TokensOf([p, q]) == [p.token] + TokensOf([q]);
  }

  // ----- one block is one rule -----

  /** What the block of a domain is to say. */
  function RuleFor(d: string): Rule {
    Rule("domain", "contains", "from", d, "Blocked domain: " + d)
  }

  lemma ReadMessage(d: string, more: string)
    ensures Scan(MESSAGE + Quote(d) + "\"" + more) == Some(("Blocked domain: " + d, more))
  {
    ScanQuoted(MESSAGE + d, more);
    QuoteClean(MESSAGE, d);
  }

  /** Marks between white space, at the end of a block. */
  lemma CloseTokens(more: string)
    ensures Tokens(";" + ("\n" + ("}" + more)), 2) == Some(([Mark(';'), Mark('}')], more))
  {
    var (x, y) := ("}" + more, "\n" + ("}" + more));
    NextMark(';', y);
    NextMark('}', more);
    BlankReadable();
    assert y == Render(Blank('\n')) + x && x == ['}'] + more && ";" + y == [';'] + y;
    BlankTokens(Blank('\n'), x, 1);
    NoTokensLeft(more);
    hide Next, Render;
    TokenStep(x, Mark('}'), more, 0);
    TokenStep(";" + y, Mark(';'), y, 1);
    BeforeSome([Mark('}')], [], more);
    BeforeSome([Mark(';')], [Mark('}')], more);
    hide Tokens, Before;
    assert [Mark('}')] + [] == [Mark('}')] && [Mark(';')] + [Mark('}')] == [Mark(';'), Mark('}')];
  }

  lemma NoTokensLeft(s: string)
    ensures Tokens(s, 0) == Some(([], s))
  {
  }

  lemma BeforeSome(a: seq<Token>, b: seq<Token>, x: string)
    ensures Before(a, Some((b, x))) == Some((a + b, x))
  {
  }

  function AfterDomain(d: string, more: string): string {
    MIDDLE + ("\"" + (MESSAGE + Quote(d) + "\"" + (";" + ("\n" + ("}" + more)))))
  }

  lemma AfterTokens(d: string, more: string)
    ensures Tokens(AfterDomain(d, more), 5) ==
      Some(([Mark('{'), Word("reject"), Quoted("Blocked domain: " + d), Mark(';'), Mark('}')], more))
  {
    var close := ";" + ("\n" + ("}" + more));
    var inside := MESSAGE + Quote(d) + "\"" + close;
    MiddleText();
    MiddleTokens();
    MiddleSpaced("\"" + inside);
    ReadMessage(d, close);
    NextQuoted(inside);
    CloseTokens(more);
    hide Next, Scan, Text, Quote, MESSAGE, MIDDLE, MiddlePieces, TokensOf, Spaced, Tokens;
    TokenStep("\"" + inside, Quoted("Blocked domain: " + d), close, 2);
    ReadPieces(MiddlePieces(), "\"" + inside, 3);
    var q := Quoted("Blocked domain: " + d);
    BeforeSome([q], [Mark(';'), Mark('}')], more);
    BeforeSome([Mark('{'), Word("reject")], [q] + [Mark(';'), Mark('}')], more);
    hide Before;
    assert [Mark('{'), Word("reject")] + ([q] + [Mark(';'), Mark('}')]) == [Mark('{'), Word("reject"), q, Mark(';'), Mark('}')];
  }

  lemma BlockText(d: string, more: string)
    ensures Block(d) + more == Text(OpenPieces()) + ("\"" + (d + "\"" + AfterDomain(d, "\n" + more)))
  {
    OpenText();
    hide OPEN, MIDDLE, MESSAGE, Text, Quote, OpenPieces;
    assert CLOSE == ";" + ("\n" + ("}" + "\n"));
    hide CLOSE;
    var (t, q) := (Text(OpenPieces()), "\"");
    assert Block(d) + more == t + q + d + q + MIDDLE + q + MESSAGE + Quote(d) + q + CLOSE + more;
  }

  /** The first six tokens of a block: the sixth is what a reader takes for the domain. */
  lemma BlockStarts(d: string, more: string)
    ensures Tokens(Block(d) + more, 11) ==
      Before([Word("if"), Word("address"), Tag("domain"), Tag("contains"), Quoted("from")],
             Tokens("\"" + (d + "\"" + AfterDomain(d, "\n" + more)), 6))
  {
    var x := "\"" + (d + "\"" + AfterDomain(d, "\n" + more));
    BlockText(d, more);
    OpenTokens();
    OpenSpaced(x);
    hide Text, TokensOf, Spaced, Tokens, OpenPieces, Block, AfterDomain;
    ReadPieces(OpenPieces(), x, 6);
  }

  lemma ReadBlock(d: string, more: string)
    requires Clean(d)
    ensures ReadRule(Block(d) + more) == Some((RuleFor(d), "\n" + more))
  {
    var after := AfterDomain(d, "\n" + more);
    BlockStarts(d, more);
    ScanClean(d, after);
    NextQuoted(d + "\"" + after);
    AfterTokens(d, "\n" + more);
    hide Next, Scan, Tokens, AfterDomain, Block;
    TokenStep("\"" + (d + "\"" + after), Quoted(d), after, 5);
  }

  lemma ReadUncleanBlock(d: string, more: string)
    requires !Clean(d)
    ensures var r := ReadRule(Block(d) + more);
            r.Some? ==> r.value.0.key != d
  {
    var rest := "\"" + (MESSAGE + Quote(d) + "\"" + (";" + ("\n" + ("}" + ("\n" + more)))));
    var inside := d + "\"" + AfterDomain(d, "\n" + more);
    BlockStarts(d, more);
    MiddleClean();
    ScanUnclean(d, MIDDLE, rest[1..]);
    assert AfterDomain(d, "\n" + more) == MIDDLE + "\"" + rest[1..];
    NextQuoted(inside);
    hide Scan, AfterDomain, Block, MIDDLE, MESSAGE, Quote, Next;
    assert Scan(inside).Some? && Scan(inside).value.0 != d;
    TokenStep("\"" + inside, Quoted(Scan(inside).value.0), Scan(inside).value.1, 5);
    hide Tokens;
  }

  lemma MiddleClean()
    ensures Clean(MIDDLE) && MIDDLE != []
  {
  }

  // ----- the script is its rules -----

  function RulesFor(ds: seq<string>): seq<Rule> {
    seq(|ds|, k requires 0 <= k < |ds| => RuleFor(ds[k]))
  }

  lemma ReadRulesStep(s: string)
    requires !AllWhite(s)
    ensures ReadRule(s).None? ==> ReadRules(s).None?
    ensures ReadRule(s).Some? ==>
      ReadRules(s) == if ReadRules(ReadRule(s).value.1).None? then None else Some([ReadRule(s).value.0] + ReadRules(ReadRule(s).value.1).value)
  {
    hide ReadRule;
  }

  lemma NewlineSkipped(s: string)
    ensures ReadRules("\n" + s) == ReadRules(s)
  {
    var t := "\n" + s;
    assert t[0] == '\n' && t[1..] == s;
    WhiteFirst(s);
    BlankTokens(Blank('\n'), s, 11);
    BlankReadable();
    hide Tokens;
    if !AllWhite(s) {
      ReadRulesStep(s);
      ReadRulesStep(t);
      assert Render(Blank('\n')) + s == t;
      assert ReadRule(t) == ReadRule(s);
    }
  }

  lemma WhiteFirst(s: string)
    ensures AllWhite("\n" + s) <==> AllWhite(s)
  {
    var t := "\n" + s;
    assert forall k :: 0 <= k < |s| ==> t[k + 1] == s[k];
  }

  lemma BlockNotWhite(d: string, more: string)
    ensures !AllWhite(Block(d) + more)
  {
    hide Quote;
    assert (Block(d) + more)[0] == OPEN[0] == 'i';
  }

  lemma {:induction false} ReadBlocksBack(ds: seq<string>)
    ensures ReadRules(Blocks(ds)) == Some(RulesFor(ds)) <==> AllClean(ds)
  {
    if ds == [] {
      assert Blocks(ds) == "" && RulesFor(ds) == [];
      hide Block;
    } else {
      var (d, more) := (ds[0], Blocks(ds[1..]));
      assert Blocks(ds) == Block(d) + more;
      ReadBlocksBack(ds[1..]);
      AllCleanStep(ds);
      BlockNotWhite(d, more);
      RulesStep(ds);
      hide ReadRules, Blocks, Block, AllClean, Clean, RulesFor, ReadRule;
      ReadRulesStep(Block(d) + more);
      if Clean(d) {
        ReadBlock(d, more);
        NewlineSkipped(more);
        SameRest(RuleFor(d), ReadRules(more), RulesFor(ds[1..]));
      } else {
        ReadUncleanBlock(d, more);
        var r := ReadRule(Block(d) + more);
        if r.Some? && ReadRules(r.value.1).Some? {
          OtherFirst(r.value.0, ReadRules(r.value.1).value, RuleFor(d), RulesFor(ds[1..]));
        }
      }
    }
  }

  lemma OtherFirst(r: Rule, a: seq<Rule>, q: Rule, b: seq<Rule>)
    requires r != q
    ensures [r] + a != [q] + b
  {
    assert ([r] + a)[0] == r && ([q] + b)[0] == q;
  }

  lemma RulesStep(ds: seq<string>)
    requires ds != []
    ensures RulesFor(ds) == [RuleFor(ds[0])] + RulesFor(ds[1..])
  {
    hide RuleFor;
  }

  lemma SameRest(r: Rule, a: Option<seq<Rule>>, b: seq<Rule>)
    ensures a.Some? ==> ([r] + a.value == [r] + b <==> a.value == b)
  {
    if a.Some? {
      assert ([r] + a.value)[1..] == a.value && ([r] + b)[1..] == b;
    }
  }

  lemma HeaderRead(body: string)
    ensures ReadScript(HEADER + body) == ReadRules(body)
  {
    var x := ";" + ("\n" + ("\n" + body));
    HeaderText();
    HeaderTokens();
    HeaderSpaced(x);
    NextMark(';', "\n" + ("\n" + body));
    assert |HEADER| > 0;
    hide Next, Text, HeaderPieces, Spaced, TokensOf, HEADER, ReadRules;
    assert HEADER + body == Text(HeaderPieces()) + x;
    assert Tokens("\n" + ("\n" + body), 0) == Some(([], "\n" + ("\n" + body)));
    TokenStep(x, Mark(';'), "\n" + ("\n" + body), 0);
    hide Tokens;
    ReadPieces(HeaderPieces(), x, 1);
    NewlineSkipped(body);
    NewlineSkipped("\n" + body);
  }

  /**
   Read by the standard, the script is one rule for each of the sorted distinct domains, saying
   what it is to say, exactly when no domain contains a quote or a backslash: only the message
   is escaped, not the tested domain.
   */
  lemma ReadBack(domains: seq<string>)
    ensures ReadScript(Script(domains)) == Some(RulesFor(SortedSet(domains))) <==> AllClean(domains)
  {
    var ds := SortedSet(domains);
    SortedSetFacts(domains);
    if domains == [] {
      assert RulesFor(ds) == [];
    } else {
      HeaderRead(Blocks(ds));
      ReadBlocksBack(ds);
      CleanSets(domains, ds);
      hide ReadScript, ReadRules, Blocks, SortedSet, AllClean, RulesFor, HEADER;
    }
  }

  // ----- what the rules reject -----

  predicate Contains(s: string, part: string) {
    exists i :: 0 <= i <= |s| && part <= s[i..]
  }

  /** A rule rejects a message whose From domain contains its key. */
  predicate RejectedBy(r: Rule, domain: string) {
    r.part == "domain" && r.match_ == "contains" && r.header == "from" && Contains(domain, r.key)
  }

  /** A message is rejected exactly when its domain contains a blocked one anywhere. */
  lemma RejectsExactly(ds: seq<string>, domain: string)
    ensures (exists k :: 0 <= k < |RulesFor(ds)| && RejectedBy(RulesFor(ds)[k], domain)) <==>
      (exists k :: 0 <= k < |ds| && Contains(domain, ds[k]))
  {
    hide Contains;
    assert forall k :: 0 <= k < |ds| ==> (RejectedBy(RulesFor(ds)[k], domain) <==> Contains(domain, ds[k]));
  }

  /** So a block of "b.c" rejects "ab.cd" as well. */
  lemma OtherDomainRejected(ds: seq<string>)
    requires ds == ["b.c"]
    ensures exists k :: 0 <= k < |RulesFor(ds)| && RejectedBy(RulesFor(ds)[k], "ab.cd")
  {
    assert "ab.cd"[1..][..3] == "b.c";
    assert "b.c" <= "ab.cd"[1..];
    assert Contains("ab.cd", ds[0]);
    RejectsExactly(ds, "ab.cd");
  }
}
