/**
 Modified UTF-7 folder names.  Names are sequences of code points.  The base64 and the
 UTF-16 codecs that the decoder calls are written out as their documentation gives them:
 strict base64 with padding, UTF-16BE with U+FFFD in place of malformed input.
 */
module Utf7 {
  import opened Options

  type Code = c: nat | c < 0x11_0000

  type Byte = b: nat | b < 256

  type Digit = d: nat | d < 64

  const AMP: Code := 38
  const PLUS: Code := 43
  const COMMA: Code := 44
  const DASH: Code := 45
  const SLASH: Code := 47
  const PAD: Code := 61
  const REPLACEMENT: Code := 0xFFFD

  // ----- base64 -----

  /** The value of a character of the standard base64 alphabet. */
  function Value(c: Code): Option<Digit> {
    if 65 <= c <= 90 then Some(c - 65)
    else if 97 <= c <= 122 then Some(c - 71)
    else if 48 <= c <= 57 then Some(c + 4)
    else if c == PLUS then Some(62)
    else if c == SLASH then Some(63)
    else None
  }

  /** The characters of modified base64 (section 5.1.3 of RFC 3501): "," stands for 63. */
  function Letter(d: Digit): Code {
    if d < 26 then d + 65
    else if d < 52 then d + 71
    else if d < 62 then d - 4
    else if d == 62 then PLUS
    else COMMA
  }

  function FromDigits(d0: Digit, d1: Digit, d2: Digit, d3: Digit): (r: seq<Byte>)
    ensures |r| == 3
  {
    [d0 * 4 + d1 / 16, d1 % 16 * 16 + d2 / 4, d2 % 4 * 64 + d3]
  }

  /** Strict base64: whole quads, padding only at the very end. */
  function FromBase64(s: seq<Code>): Option<seq<Byte>> {
    if s == [] then Some([])
    else if |s| < 4 then None
    else
      match (Value(s[0]), Value(s[1]), Value(s[2]), Value(s[3]))
      case (Some(d0), Some(d1), Some(d2), Some(d3)) =>
        var rest := FromBase64(s[4..]);
        if rest.Some? then Some(FromDigits(d0, d1, d2, d3) + rest.value) else None
      case (Some(d0), Some(d1), Some(d2), None) =>
        if |s| == 4 && s[3] == PAD then Some(FromDigits(d0, d1, d2, 0)[..2]) else None
      case (Some(d0), Some(d1), None, None) =>
        if |s| == 4 && s[2] == PAD && s[3] == PAD then Some(FromDigits(d0, d1, 0, 0)[..1]) else None
      case _ => None
  }

  /** The digits of the encoding, without padding. */
  function Digits(b: seq<Byte>): seq<Digit> {
    if b == [] then []
    else if |b| == 1 then Quad(b[0], 0, 0)[..2]
    else if |b| == 2 then Quad(b[0], b[1], 0)[..3]
    else Quad(b[0], b[1], b[2]) + Digits(b[3..])
  }

  function Quad(b0: Byte, b1: Byte, b2: Byte): (r: seq<Digit>)
    ensures |r| == 4
    ensures FromDigits(r[0], r[1], r[2], r[3]) == [b0, b1, b2]
  {
    [b0 / 4, b0 % 4 * 16 + b1 / 16, b1 % 16 * 4 + b2 / 64, b2 % 64]
  }

  function Letters(ds: seq<Digit>): (r: seq<Code>)
    ensures |r| == |ds|
    ensures forall k :: 0 <= k < |r| ==> r[k] == Letter(ds[k])
  {
    seq(|ds|, k requires 0 <= k < |ds| => Letter(ds[k]))
  }

  // ----- UTF-16BE -----

  function Units(u: nat): seq<Byte>
    requires u < 0x1_0000
  {
    [u / 256, u % 256]
  }

  function Unit(high: nat, low: nat): nat {
    high * 256 + low
  }

  predicate Surrogate(c: nat) {
    0xD800 <= c < 0xE000
  }

  function ToUtf16(name: seq<Code>): seq<Byte> {
    if name == [] then []
    else if name[0] < 0x1_0000 then Units(name[0]) + ToUtf16(name[1..])
    else
      var v := name[0] - 0x1_0000;
      Units(0xD800 + v / 1024) + Units(0xDC00 + v % 1024) + ToUtf16(name[1..])
  }

  /** Decoding with errors="replace". */
  function FromUtf16(b: seq<Byte>): seq<Code> {
    if b == [] then []
    else if |b| == 1 then [REPLACEMENT]
    else
      var u := Unit(b[0], b[1]);
      if !Surrogate(u) then [u] + FromUtf16(b[2..])
      else if u >= 0xDC00 then [REPLACEMENT] + FromUtf16(b[2..])
      else if |b| < 4 then [REPLACEMENT]
      else
        var w := Unit(b[2], b[3]);
        if 0xDC00 <= w < 0xE000 then [0x1_0000 + (u - 0xD800) * 1024 + (w - 0xDC00)] + FromUtf16(b[4..])
        else [REPLACEMENT] + FromUtf16(b[2..])
  }

  // ----- the decoder -----

  /** str.find: the first position of c at or after from, or None. */
  function Find(s: seq<Code>, c: Code, from: nat): (r: Option<nat>)
    requires from <= |s|
    ensures r.Some? ==> from <= r.value < |s| && s[r.value] == c && c !in s[from..r.value]
    ensures r.None? ==> c !in s[from..]
    decreases |s| - from
  {
    if from == |s| then None
    else if s[from] == c then Some(from)
    else
      var r := Find(s, c, from + 1);
      assert s[from..] == [s[from]] + s[from + 1..];
      assert r.Some? ==> s[from..r.value] == [s[from]] + s[from + 1..r.value];
      r
  }

  /** "=" * n */
  function Pads(n: nat): (r: seq<Code>)
    ensures |r| == n && forall k :: 0 <= k < n ==> r[k] == PAD
  {
    seq(n, _ => PAD)
  }

  function Padded(run: seq<Code>): seq<Code> {
    var pad := 4 - |run| % 4;
    if pad != 4 then run + Pads(pad) else run
  }

  /** The text of a run "&...-", given what stands between; the run itself when it is garbled. */
  function RunText(run: seq<Code>): seq<Code> {
    var raw := FromBase64(Padded(run));
    if raw.Some? then FromUtf16(raw.value) else [AMP] + run + [DASH]
  }

  function Decoded(name: seq<Code>): seq<Code>
    decreases |name|
  {
    if name == [] then []
    else if name[0] != AMP then [name[0]] + Decoded(name[1..])
    else
      match Find(name, DASH, 1)
      case None => [AMP] + Decoded(name[1..])
      case Some(j) =>
        if j == 1 then [AMP] + Decoded(name[2..])
        else RunText(name[1..j]) + Decoded(name[j + 1..])
  }

  /** The text of what stands from position i on. */
  function Rest(name: seq<Code>, i: nat): seq<Code>
    requires i <= |name|
  {
    Decoded(name[i..])
  }

  lemma RestAt(name: seq<Code>, i: nat)
    requires i < |name|
    ensures var j := Find(name, DASH, i + 1);
            Rest(name, i) ==
            if name[i] != AMP then [name[i]] + Rest(name, i + 1)
            else if j.None? then [AMP] + Rest(name, i + 1)
            else (if j.value == i + 1 then [AMP] else RunText(name[i + 1..j.value])) + Rest(name, j.value + 1)
  {
    hide RunText, FromBase64, FromUtf16, Find, Padded;
    var tail := name[i..];
    FindShift(name, DASH, i, i + 1);
    assert tail[1..] == name[i + 1..];
    if tail[0] == AMP && Find(name, DASH, i + 1).Some? {
      var j := Find(name, DASH, i + 1).value;
      assert tail[1..j - i] == name[i + 1..j];
      assert tail[j - i + 1..] == name[j + 1..];
    }
  }

  lemma RestEnds(name: seq<Code>)
    ensures Rest(name, 0) == Decoded(name) && Rest(name, |name|) == []
  {
    assert name[0..] == name && name[|name|..] == [];
  }

  lemma Append(whole: seq<Code>, parts: seq<Code>, piece: seq<Code>, rest: seq<Code>)
    requires whole == parts + (piece + rest)
    ensures whole == parts + piece + rest
  {
  }

  /** decode_imap_utf7: one index moves over the name, and parts collects the text. */
  method DecodeImapUtf7(name: seq<Code>) returns (text: seq<Code>)
    ensures text == Decoded(name)
  {
    hide *;
    var parts: seq<Code> := [];
    var i := 0;
    RestEnds(name);
    while i < |name|
      invariant 0 <= i <= |name|
      invariant Decoded(name) == parts + Rest(name, i)
    {
      RestAt(name, i);
      var piece := [AMP];
      var next := i + 1;
      if name[i] != AMP {
        piece := [name[i]];
      } else {
        var j := Find(name, DASH, i + 1);
        if j.Some? {
          next := j.value + 1;
          if j.value != i + 1 {
            piece := DecodeRun(name, i, j.value);
          }
        }
      }
      Append(Decoded(name), parts, piece, Rest(name, next));
      parts := parts + piece;
      i := next;
    }
    text := parts;
  }

  /** The branch for "&<base64>-", between positions i and j. */
  method DecodeRun(name: seq<Code>, i: nat, j: nat) returns (piece: seq<Code>)
    requires i < j < |name| && name[i] == AMP && name[j] == DASH
    ensures piece == RunText(name[i + 1..j])
  {
    hide *;
    var encoded := name[i + 1..j];
    RunTextMeans(encoded);
    RunAt(name, i, j);
    var pad := 4 - |encoded| % 4;
    var raw := FromBase64(if pad != 4 then encoded + Pads(pad) else encoded);
    if raw.Some? {
      piece := FromUtf16(raw.value);
    } else {
      piece := name[i..j + 1];
    }
  }

  lemma RunTextMeans(run: seq<Code>)
    ensures var pad := 4 - |run| % 4;
            var raw := FromBase64(if pad != 4 then run + Pads(pad) else run);
            RunText(run) == if raw.Some? then FromUtf16(raw.value) else [AMP] + run + [DASH]
  {
  }

  lemma RunAt(name: seq<Code>, i: nat, j: nat)
    requires i < j < |name| && name[i] == AMP && name[j] == DASH
    ensures name[i..j + 1] == [AMP] + name[i + 1..j] + [DASH]
  {
  }

  lemma {:induction false} FindShift(s: seq<Code>, c: Code, i: nat, from: nat)
    requires i <= from <= |s|
    ensures Find(s[i..], c, from - i) == if Find(s, c, from).None? then None else Some(Find(s, c, from).value - i)
    decreases |s| - from
  {
    if from < |s| {
      FindShift(s, c, i, from + 1);
    }
  }

  // ----- the encoder of section 5.1.3 of RFC 3501 -----

  predicate Printable(c: Code) {
    0x20 <= c <= 0x7E
  }

  /** The length of the longest prefix that needs encoding. */
  function RunLength(name: seq<Code>): (n: nat)
    ensures n <= |name|
    ensures forall k :: 0 <= k < n ==> !Printable(name[k])
    ensures n == |name| || Printable(name[n])
  {
    if name == [] || Printable(name[0]) then 0 else 1 + RunLength(name[1..])
  }

  function Encoded(name: seq<Code>): seq<Code>
    decreases |name|
  {
    if name == [] then []
    else if name[0] == AMP then [AMP, DASH] + Encoded(name[1..])
    else if Printable(name[0]) then [name[0]] + Encoded(name[1..])
    else
      var n := RunLength(name);
      [AMP] + Letters(Digits(ToUtf16(name[..n]))) + [DASH] + Encoded(name[n..])
  }

  /** A name of Unicode scalar values: no surrogate code points. */
  predicate Scalars(name: seq<Code>) {
    forall k :: 0 <= k < |name| ==> !Surrogate(name[k])
  }

  /** No run of the encoding spells the digit 63, whose letter is ",". */
  predicate CommaFree(name: seq<Code>)
    decreases |name|
  {
    if name == [] then true
    else if Printable(name[0]) then CommaFree(name[1..])
    else
      var n := RunLength(name);
      63 !in Digits(ToUtf16(name[..n])) && CommaFree(name[n..])
  }

  // ----- round trip -----

  lemma LetterValue(d: Digit)
    ensures Value(Letter(d)) == if d == 63 then None else Some(d)
    ensures Letter(d) != PAD && Letter(d) != DASH
  {
  }

  lemma PaddedQuad(q: seq<Code>, s: seq<Code>)
    requires |q| == 4
    ensures Padded(q + s) == q + Padded(s)
  {
    assert (q + s) + Pads(4 - |s| % 4) == q + (s + Pads(4 - |s| % 4));
  }

  lemma InQuad(q: seq<Digit>)
    requires |q| == 4
    ensures 63 in q <==> q[0] == 63 || q[1] == 63 || q[2] == 63 || q[3] == 63
  {
  }

  lemma QuadValues(q: seq<Digit>, s: seq<Code>)
    requires |q| == 4 && |s| >= 4 && s[..4] == Letters(q)
    ensures FromBase64(s) ==
      if 63 in q then None
      else if FromBase64(s[4..]).None? then None
      else Some(FromDigits(q[0], q[1], q[2], q[3]) + FromBase64(s[4..]).value)
  {
    assert s[0] == s[..4][0] && s[1] == s[..4][1] && s[2] == s[..4][2] && s[3] == s[..4][3];
    hide FromDigits, Letter, Value, Letters;
    InQuad(q);
    LetterValue(q[0]);
    LetterValue(q[1]);
    LetterValue(q[2]);
    LetterValue(q[3]);
  }

  lemma LastDigits(q: seq<Digit>, n: nat)
    requires |q| == 4 && 2 <= n <= 3 && (forall k :: n <= k < 4 ==> q[k] == 0)
    ensures FromBase64(Padded(Letters(q[..n]))) == if 63 in q[..n] then None else Some(FromDigits(q[0], q[1], q[2], q[3])[..n - 1])
  {
    var s := Padded(Letters(q[..n]));
    LetterValue(q[0]);
    LetterValue(q[1]);
    LetterValue(q[2]);
    assert |s| == 4 && s[0] == Letter(q[0]) && s[1] == Letter(q[1]);
    assert s[3] == PAD && s[2] == if n == 3 then Letter(q[2]) else PAD;
    hide FromDigits, Letter;
  }

  /** Decoding the padded letters gives the bytes back, unless some letter is the comma. */
  lemma {:induction false} Base64RoundTrip(b: seq<Byte>)
    ensures FromBase64(Padded(Letters(Digits(b)))) == if 63 in Digits(b) then None else Some(b)
  {
    if |b| >= 3 {
      Base64RoundTrip(b[3..]);
      LongRoundTrip(b);
    } else if b == [] {
      EmptyRoundTrip(b);
    } else {
      ShortRoundTrip(b, 0, |b| + 1);
    }
  }

  lemma DigitsUnfold(b: seq<Byte>)
    ensures |b| >= 3 ==> Digits(b) == Quad(b[0], b[1], b[2]) + Digits(b[3..])
    ensures |b| == 2 ==> Digits(b) == Quad(b[0], b[1], 0)[..3]
    ensures |b| == 1 ==> Digits(b) == Quad(b[0], 0, 0)[..2]
    ensures |b| == 0 ==> Digits(b) == []
  {
    hide Quad;
  }

  lemma LettersAppend(a: seq<Digit>, b: seq<Digit>)
    ensures Letters(a + b) == Letters(a) + Letters(b)
  {
    hide Letter;
  }

  lemma QuadEnds(b0: Byte, b1: Byte, b2: Byte)
    ensures b2 == 0 ==> Quad(b0, b1, b2)[3] == 0
    ensures b1 == 0 && b2 == 0 ==> Quad(b0, b1, b2)[2] == 0
  {
  }

  lemma LongRoundTrip(b: seq<Byte>)
    requires |b| >= 3
    requires FromBase64(Padded(Letters(Digits(b[3..])))) == if 63 in Digits(b[3..]) then None else Some(b[3..])
    ensures FromBase64(Padded(Letters(Digits(b)))) == if 63 in Digits(b) then None else Some(b)
  {
    hide *;
    var q := Quad(b[0], b[1], b[2]);
    var rest := Digits(b[3..]);
    DigitsUnfold(b);
    LettersAppend(q, rest);
    PaddedQuad(Letters(q), Letters(rest));
    var s := Letters(q) + Padded(Letters(rest));
    assert s[..4] == Letters(q) && s[4..] == Padded(Letters(rest));
    QuadValues(q, s);
    assert 63 in q + rest <==> 63 in q || 63 in rest;
    assert b == [b[0], b[1], b[2]] + b[3..];
  }

  lemma EmptyRoundTrip(b: seq<Byte>)
    requires |b| == 0
    ensures FromBase64(Padded(Letters(Digits(b)))) == Some(b) && 63 !in Digits(b)
  {
    DigitsUnfold(b);
    var s := Padded(Letters(Digits(b)));
    assert |s| == 0;
  }

  lemma ShortRoundTrip(b: seq<Byte>, zero: Byte, n: nat)
    requires 0 < |b| < 3 && zero == 0 && n == |b| + 1
    ensures FromBase64(Padded(Letters(Digits(b)))) == if 63 in Digits(b) then None else Some(b)
  {
    hide *;
    var b1 := if |b| == 2 then b[1] else zero;
    var q := Quad(b[0], b1, zero);
    DigitsUnfold(b);
    QuadEnds(b[0], b1, zero);
    LastDigits(q, n);
    assert Digits(b) == q[..n];
    assert b == [b[0], b1, zero][..n - 1];
  }

  lemma {:induction false} Utf16RoundTrip(name: seq<Code>)
    requires Scalars(name)
    ensures FromUtf16(ToUtf16(name)) == name
  {
    if name != [] {
      Utf16RoundTrip(name[1..]);
      var b := ToUtf16(name);
      if name[0] < 0x1_0000 {
        assert b[2..] == ToUtf16(name[1..]);
      } else {
        var v := name[0] - 0x1_0000;
        var (u, w) := (0xD800 + v / 1024, 0xDC00 + v % 1024);
        assert Unit(b[0], b[1]) == u && Unit(b[2], b[3]) == w;
        assert b[4..] == ToUtf16(name[1..]);
      }
    }
  }

  lemma {:induction false} FindAfter(run: seq<Code>, rest: seq<Code>, k: nat)
    requires DASH !in run && 1 <= k <= |run| + 1
    ensures Find([AMP] + run + [DASH] + rest, DASH, k) == Some(|run| + 1)
    decreases |run| - k + 1
  {
    var s := [AMP] + run + [DASH] + rest;
    if k <= |run| {
      assert s[k] == run[k - 1];
      FindAfter(run, rest, k + 1);
    }
  }

  /** One encoded run, decoded: its text, or itself when a comma occurs in it. */
  lemma EncodedRun(text: seq<Code>, rest: seq<Code>)
    requires text != [] && Scalars(text)
    ensures var ds := Digits(ToUtf16(text));
            Decoded([AMP] + Letters(ds) + [DASH] + rest)
            == (if 63 in ds then [AMP] + Letters(ds) + [DASH] else text) + Decoded(rest)
  {
    var ds := Digits(ToUtf16(text));
    var run := Letters(ds);
    var s := [AMP] + run + [DASH] + rest;
    assert DASH !in run by {
      forall k | 0 <= k < |run| ensures run[k] != DASH {
        LetterValue(ds[k]);
      }
    }
    FindAfter(run, rest, 1);
    assert s[1..|run| + 1] == run;
    assert s[|run| + 2..] == rest;
    Base64RoundTrip(ToUtf16(text));
    Utf16RoundTrip(text);
  }

  /**
   The decoder undoes the standard's encoder on exactly the names none of whose encoded
   runs contains a comma: it hands such a run, comma and all, to the standard alphabet.
   */
  lemma {:induction false} RoundTrip(name: seq<Code>)
    requires Scalars(name)
    ensures Decoded(Encoded(name)) == name <==> CommaFree(name)
    decreases |name|
  {
    if name == [] {
    } else if Printable(name[0]) {
      RoundTrip(name[1..]);
      DecodePrintable(name[0], Encoded(name[1..]));
      hide Decoded, FromBase64;
      assert name == [name[0]] + name[1..];
      SameTail([name[0]], Decoded(Encoded(name[1..])), name[1..]);
    } else {
      var n := RunLength(name);
      var text := name[..n];
      var rest := name[n..];
      RoundTrip(rest);
      hide Decoded, FromBase64;
      EncodedRun(text, Encoded(rest));
      assert name == text + rest;
      if 63 in Digits(ToUtf16(text)) {
        assert Decoded(Encoded(name))[0] == AMP;
      } else {
        SameTail(text, Decoded(Encoded(rest)), rest);
      }
    }
  }

  lemma SameTail(a: seq<Code>, b: seq<Code>, c: seq<Code>)
    ensures a + b == a + c <==> b == c
  {
    assert (a + b)[|a|..] == b && (a + c)[|a|..] == c;
  }

  lemma DecodePrintable(c: Code, rest: seq<Code>)
    requires Printable(c)
    ensures Decoded((if c == AMP then [AMP, DASH] else [c]) + rest) == [c] + Decoded(rest)
  {
    var code := (if c == AMP then [AMP, DASH] else [c]) + rest;
    hide FromBase64, FromUtf16;
    if c == AMP {
      assert code[2..] == rest;
      assert Find(code, DASH, 1) == Some(1);
    } else {
      assert code[1..] == rest;
    }
  }

  /** The name U+03FF is one that does not survive: its encoding is "&A,8-". */
  lemma CommaIsKept(name: seq<Code>)
    requires name == [0x3FF]
    ensures !CommaFree(name) && Decoded(Encoded(name)) != name
  {
    hide Decoded, Encoded, CommaFree, Digits, ToUtf16;
    CommaDigit(name);
    OneRun(name);
    RoundTrip(name);
  }

  lemma OneRun(name: seq<Code>)
    requires |name| == 1 && !Printable(name[0]) && !Surrogate(name[0])
    ensures Scalars(name)
    ensures 63 in Digits(ToUtf16(name)) ==> !CommaFree(name)
  {
    hide Digits, ToUtf16;
    assert name[..RunLength(name)] == name;
  }

  lemma OneUnit(name: seq<Code>)
    requires |name| == 1 && name[0] < 0x1_0000
    ensures ToUtf16(name) == Units(name[0])
  {
    hide Units;
    assert |name[1..]| == 0;
  }

  lemma CommaDigit(name: seq<Code>)
    requires |name| == 1 && name[0] == 0x3FF
    ensures 63 in Digits(ToUtf16(name))
  {
    hide ToUtf16, Digits, Quad;
    OneUnit(name);
    var b := Units(name[0]);
    assert b[0] == 3 && b[1] == 255;
    SecondDigit(b[0], b[1], 0);
    DigitsUnfold(b);
    assert Digits(b)[1] == 63;
  }

  lemma SecondDigit(b0: Byte, b1: Byte, b2: Byte)
    ensures Quad(b0, b1, b2)[1] == b0 % 4 * 16 + b1 / 16
  {
  }

  /** A run one character longer than a multiple of four is never base64: the padding "===" is refused. */
  lemma {:induction false} OddRunRejected(run: seq<Code>)
    requires |run| % 4 == 1
    ensures FromBase64(Padded(run)).None?
  {
    hide FromBase64;
    PaddedTail(run);
    hide Padded;
    LastQuadRejected(Padded(run));
  }

  lemma PaddedTail(run: seq<Code>)
    requires |run| % 4 == 1
    ensures var s := Padded(run);
            |s| % 4 == 0 && |s| > 0 && s[|s| - 3] == s[|s| - 2] == s[|s| - 1] == PAD
  {
  }

  lemma {:induction false} LastQuadRejected(s: seq<Code>)
    requires |s| % 4 == 0 && |s| > 0 && s[|s| - 3] == s[|s| - 2] == s[|s| - 1] == PAD
    ensures FromBase64(s) == None
  {
    assert Value(PAD) == None;
    hide Value, FromDigits;
    if |s| > 4 {
      LastQuadRejected(s[4..]);
    }
  }

  /** Names without "&" are shown as they are. */
  lemma {:induction false} PlainNames(name: seq<Code>)
    requires AMP !in name
    ensures Decoded(name) == name
  {
    if name != [] {
      PlainNames(name[1..]);
    }
  }

  // ----- what the decoder accepts -----

  /** A character of the standard alphabet: A to Z, a to z, 0 to 9, "+" and "/". */
  predicate InAlphabet(c: Code) {
    65 <= c <= 90 || 97 <= c <= 122 || 48 <= c <= 57 || c == 43 || c == 47
  }

  lemma ValueOfAlphabet(c: Code)
    ensures Value(c).Some? <==> InAlphabet(c)
    ensures Value(PAD).None?
  {
  }

  /** Alphabet characters and then at most two "=", in whole quads. */
  ghost predicate Base64Form(s: seq<Code>) {
    |s| % 4 == 0 && exists p :: 0 <= p <= 2 && FormWith(s, p)
  }

  predicate FormWith(s: seq<Code>, p: nat) {
    && p <= |s|
    && (forall k :: 0 <= k < |s| - p ==> InAlphabet(s[k]))
    && (forall k :: |s| - p <= k < |s| ==> s[k] == 61)
  }

  lemma FormTail(s: seq<Code>, p: nat)
    requires |s| >= 8 && p <= 2
    ensures FormWith(s, p) <==> InAlphabet(s[0]) && InAlphabet(s[1]) && InAlphabet(s[2]) && InAlphabet(s[3]) && FormWith(s[4..], p)
  {
    hide InAlphabet;
    var t := s[4..];
    assert forall k :: 4 <= k < |s| ==> s[k] == t[k - 4];
    if FormWith(t, p) && InAlphabet(s[0]) && InAlphabet(s[1]) && InAlphabet(s[2]) && InAlphabet(s[3]) {
      forall k | 0 <= k < |s| - p ensures InAlphabet(s[k]) {
        assert k >= 4 ==> s[k] == t[k - 4];
      }
    }
    if FormWith(s, p) {
      forall k | 0 <= k < |t| - p ensures InAlphabet(t[k]) {
        assert t[k] == s[k + 4];
      }
    }
  }

  lemma FirstQuad(s: seq<Code>)
    requires |s| > 4 && !(InAlphabet(s[0]) && InAlphabet(s[1]) && InAlphabet(s[2]) && InAlphabet(s[3]))
    ensures FromBase64(s).None?
  {
    ValueOfAlphabet(s[0]);
    ValueOfAlphabet(s[1]);
    ValueOfAlphabet(s[2]);
    ValueOfAlphabet(s[3]);
    hide Value, InAlphabet, FromDigits;
  }

  lemma NextQuad(s: seq<Code>)
    requires |s| >= 4 && InAlphabet(s[0]) && InAlphabet(s[1]) && InAlphabet(s[2]) && InAlphabet(s[3])
    ensures FromBase64(s).Some? <==> FromBase64(s[4..]).Some?
  {
    ValueOfAlphabet(s[0]);
    ValueOfAlphabet(s[1]);
    ValueOfAlphabet(s[2]);
    ValueOfAlphabet(s[3]);
    hide Value, InAlphabet, FromDigits;
  }

  lemma LastQuad(s: seq<Code>)
    requires |s| == 4
    ensures FromBase64(s).Some? <==> Base64Form(s)
  {
    ValueOfAlphabet(s[0]);
    ValueOfAlphabet(s[1]);
    ValueOfAlphabet(s[2]);
    ValueOfAlphabet(s[3]);
    assert s[4..] == [];
    hide Value, FromDigits;
    assert !InAlphabet(PAD);
    hide InAlphabet;
    assert FormWith(s, 0) <==> InAlphabet(s[0]) && InAlphabet(s[1]) && InAlphabet(s[2]) && InAlphabet(s[3]);
    assert FormWith(s, 1) <==> InAlphabet(s[0]) && InAlphabet(s[1]) && InAlphabet(s[2]) && s[3] == PAD;
    assert FormWith(s, 2) <==> InAlphabet(s[0]) && InAlphabet(s[1]) && s[2] == PAD && s[3] == PAD;
  }

  lemma FormOfTail(s: seq<Code>)
    requires |s| > 4
    ensures Base64Form(s) <==> InAlphabet(s[0]) && InAlphabet(s[1]) && InAlphabet(s[2]) && InAlphabet(s[3]) && Base64Form(s[4..])
  {
    if |s| >= 8 {
      FormTail(s, 0);
      FormTail(s, 1);
      FormTail(s, 2);
      hide FormWith, InAlphabet;
      if p :| 0 <= p <= 2 && FormWith(s[4..], p) {
        assert FormWith(s, p) <==> InAlphabet(s[0]) && InAlphabet(s[1]) && InAlphabet(s[2]) && InAlphabet(s[3]);
      }
    }
  }

  lemma ShortForm(s: seq<Code>)
    requires |s| < 4
    ensures FromBase64(s).Some? <==> Base64Form(s)
  {
    if |s| == 0 {
      assert FormWith(s, 0);
    }
  }

  /** Exactly well-formed base64 is accepted. */
  lemma {:induction false} AcceptsExactly(s: seq<Code>)
    ensures FromBase64(s).Some? <==> Base64Form(s)
  {
    hide *;
    if |s| < 4 {
      ShortForm(s);
    } else if |s| == 4 {
      LastQuad(s);
    } else {
      AcceptsExactly(s[4..]);
      FormOfTail(s);
      if InAlphabet(s[0]) && InAlphabet(s[1]) && InAlphabet(s[2]) && InAlphabet(s[3]) {
        NextQuad(s);
      } else {
        FirstQuad(s);
      }
    }
  }

  /** A run that is not base64 once padded is kept as it stands, with its "&" and "-". */
  lemma GarbledIsKept(run: seq<Code>, rest: seq<Code>)
    requires run != [] && DASH !in run && !Base64Form(Padded(run))
    ensures Decoded([AMP] + run + [DASH] + rest) == [AMP] + run + [DASH] + Decoded(rest)
  {
    AcceptsExactly(Padded(run));
    FindAfter(run, rest, 1);
    var s := [AMP] + run + [DASH] + rest;
    assert s[1..|run| + 1] == run;
    assert s[|run| + 2..] == rest;
    hide FromBase64, Padded, Base64Form;
  }

  /** A name without "-" is shown as it is: every "&" in it stands alone. */
  lemma {:induction false} UnclosedIsKept(name: seq<Code>)
    requires DASH !in name
    ensures Decoded(name) == name
  {
    hide FromBase64, FromUtf16;
    if name != [] {
      UnclosedIsKept(name[1..]);
      assert Find(name, DASH, 1).None?;
      assert name == [name[0]] + name[1..];
    }
  }

  // ----- malformed UTF-16 -----

  /** What is decoded holds no surrogates and no more characters than units, and where nothing was replaced it encodes back to the same bytes. */
  lemma {:induction false} Utf16Faithful(b: seq<Byte>)
    ensures Scalars(FromUtf16(b)) && |FromUtf16(b)| <= (|b| + 1) / 2
    ensures REPLACEMENT !in FromUtf16(b) ==> ToUtf16(FromUtf16(b)) == b
  {
    if |b| >= 2 {
      var u := Unit(b[0], b[1]);
      if !Surrogate(u) {
        Utf16Faithful(b[2..]);
        UnitsOfUnit(b[0], b[1]);
        FaithfulStep(b, [u], 2);
      } else if u < 0xDC00 && |b| >= 4 && 0xDC00 <= Unit(b[2], b[3]) < 0xE000 {
        var w := Unit(b[2], b[3]);
        Utf16Faithful(b[4..]);
        UnitsOfUnit(b[0], b[1]);
        UnitsOfUnit(b[2], b[3]);
        FaithfulStep(b, [0x1_0000 + (u - 0xD800) * 1024 + (w - 0xDC00)], 4);
      } else if u >= 0xDC00 || |b| >= 4 {
        Utf16Faithful(b[2..]);
      }
    }
  }

  lemma UnitsOfUnit(high: Byte, low: Byte)
    ensures Unit(high, low) < 0x1_0000 && Units(Unit(high, low)) == [high, low]
  {
  }

  lemma EncodeFirst(c: Code, rest: seq<Code>)
    ensures ToUtf16([c] + rest) == ToUtf16([c]) + ToUtf16(rest)
  {
    assert ([c] + rest)[1..] == rest && [c][1..] == [];
    hide Units;
  }

  lemma FaithfulStep(b: seq<Byte>, first: seq<Code>, n: nat)
    requires |first| == 1 && n <= |b| && ToUtf16(first) == b[..n] && FromUtf16(b) == first + FromUtf16(b[n..])
    requires REPLACEMENT !in FromUtf16(b[n..]) ==> ToUtf16(FromUtf16(b[n..])) == b[n..]
    ensures REPLACEMENT !in FromUtf16(b) ==> ToUtf16(FromUtf16(b)) == b
  {
    hide *;
    EncodeFirst(first[0], FromUtf16(b[n..]));
    assert first == [first[0]];
    assert b == b[..n] + b[n..];
  }
}
