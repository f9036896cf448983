/**
 MinHash signatures.  A shingle is given by the 32 bits that its MD5 digest
 contributes; everything after the digest is modelled bit by bit.
 */
module MinHash {

  const NUM_PERM := 128
  const TWO32 := 0x1_0000_0000

  type Word = w: nat | w < TWO32

  type Byte = b: nat | b < 256

  // ----- xor on numbers -----

  function Xor(a: nat, b: nat): nat {
    if a == 0 && b == 0 then 0 else (a % 2 + b % 2) % 2 + 2 * Xor(a / 2, b / 2)
  }

  function Pow2(n: nat): nat {
    if n == 0 then 1 else 2 * Pow2(n - 1)
  }

  /** The low n bits of a: what a mask of n ones keeps. */
  function Low(a: nat, n: nat): nat {
    if n == 0 then 0 else a % 2 + 2 * Low(a / 2, n - 1)
  }

  lemma XorHalves(a: nat, b: nat)
    ensures Xor(a, b) % 2 == (a % 2 + b % 2) % 2 && Xor(a, b) / 2 == Xor(a / 2, b / 2)
  {
  }

  lemma LowHalves(a: nat, n: nat)
    requires n > 0
    ensures Low(a, n) % 2 == a % 2 && Low(a, n) / 2 == Low(a / 2, n - 1)
  {
  }

  lemma SameHalves(a: nat, b: nat)
    requires a % 2 == b % 2 && a / 2 == b / 2
    ensures a == b
  {
  }

  lemma BitTwice(x: nat, y: nat)
    requires x < 2 && y < 2
    ensures ((x + y) % 2 + y) % 2 == x
  {
  }

  lemma {:induction false} XorTwice(a: nat, b: nat)
    ensures Xor(Xor(a, b), b) == a
  {
    if a != 0 || b != 0 {
      XorTwice(a / 2, b / 2);
      XorHalves(a, b);
      XorHalves(Xor(a, b), b);
      BitTwice(a % 2, b % 2);
      hide Xor;
      SameHalves(Xor(Xor(a, b), b), a);
    }
  }

  lemma {:induction false} LowBound(a: nat, n: nat)
    ensures Low(a, n) < Pow2(n)
    ensures a < Pow2(n) ==> Low(a, n) == a
  {
    if n > 0 {
      LowBound(a / 2, n - 1);
    }
  }

  /** Masking after an xor is the xor of the masked operands. */
  lemma {:induction false} XorMasked(a: nat, b: nat, n: nat)
    ensures Low(Xor(a, b), n) == Xor(Low(a, n), Low(b, n))
  {
    if n > 0 {
      XorMasked(a / 2, b / 2, n - 1);
      XorHalves(a, b);
      XorHalves(Low(a, n), Low(b, n));
      LowHalves(a, n);
      LowHalves(b, n);
      LowHalves(Xor(a, b), n);
      hide Xor, Low;
      SameHalves(Low(Xor(a, b), n), Xor(Low(a, n), Low(b, n)));
    }
  }

  lemma Pow32()
    ensures Pow2(32) == TWO32
  {
    assert Pow2(8) == 256;
    assert Pow2(16) == 65536;
    assert Pow2(24) == 16777216;
  }

  // ----- the permutations -----

  /** (h ^ ((i + 1) * 0x9E3779B9)) & 0xFFFFFFFF */
  function Mix(h: Word, i: nat): Word {
    LowBound(Xor(h, (i + 1) * 0x9E3779B9), 32);
    Pow32();
    Low(Xor(h, (i + 1) * 0x9E3779B9), 32)
  }

  /** Each permutation is one: it maps different hashes to different values. */
  lemma MixInjective(g: Word, h: Word, i: nat)
    ensures Mix(g, i) == Mix(h, i) <==> g == h
  {
    var k := (i + 1) * 0x9E3779B9;
    Pow32();
    XorMasked(g, k, 32);
    XorMasked(h, k, 32);
    LowBound(g, 32);
    LowBound(h, 32);
    hide Xor, Low, Pow2;
    XorTwice(g, Low(k, 32));
    XorTwice(h, Low(k, 32));
  }

  // ----- what the permutations are -----

  function Bit(a: nat, n: nat): nat {
    if n == 0 then a % 2 else Bit(a / 2, n - 1)
  }

  /** Xor adds the bits without carry. */
  lemma {:induction false} BitOfXor(a: nat, b: nat, n: nat)
    ensures Bit(Xor(a, b), n) == if Bit(a, n) == Bit(b, n) then 0 else 1
  {
    XorHalves(a, b);
    if n > 0 {
      BitOfXor(a / 2, b / 2, n - 1);
    }
    hide Xor;
  }

  lemma {:induction false} XorCommutes(a: nat, b: nat)
    ensures Xor(a, b) == Xor(b, a)
  {
    if a != 0 || b != 0 {
      XorCommutes(a / 2, b / 2);
      XorHalves(a, b);
      XorHalves(b, a);
      hide Xor;
      SameHalves(Xor(a, b), Xor(b, a));
    }
  }

  /** Keeping the low bits is taking the remainder. */
  lemma {:induction false} LowIsRemainder(a: nat, n: nat) returns (q: nat)
    ensures a == Low(a, n) + Pow2(n) * q
  {
    if n == 0 {
      q := a;
    } else {
      q := LowIsRemainder(a / 2, n - 1);
      assert 2 * (Pow2(n - 1) * q) == Pow2(n) * q;
    }
  }

  /** The i-th permutation is xor with the low 32 bits of (i + 1) * 0x9E3779B9. */
  lemma MixIsXor(h: Word, i: nat)
    ensures Xor(Mix(h, i), h) == (i + 1) * 0x9E3779B9 % 0x1_0000_0000
  {
    var k := (i + 1) * 0x9E3779B9;
    Pow32();
    var q := LowIsRemainder(k, 32);
    LowBound(k, 32);
    LowBound(h, 32);
    XorMasked(h, k, 32);
    hide Xor, Low, Pow2;
    RemainderIs(k, Low(k, 32), q);
    XorCommutes(h, Low(k, 32));
    XorTwice(Low(k, 32), h);
  }

  lemma RemainderIs(k: nat, r: nat, q: nat)
    requires k == r + 0x1_0000_0000 * q && r < 0x1_0000_0000
    ensures k % 0x1_0000_0000 == r
  {
  }

  /** Two of the 128 multiples differ in their low 32 bits. */
  lemma MultiplesDiffer(i: nat, j: nat)
    requires i < j < 128
    ensures (i + 1) * 0x9E3779B9 % 0x1_0000_0000 != (j + 1) * 0x9E3779B9 % 0x1_0000_0000
  {
    var (x, y) := ((i + 1) * 0x9E3779B9, (j + 1) * 0x9E3779B9);
    var (p, q, d) := (x / 0x1_0000_0000, y / 0x1_0000_0000, j - i);
    if x % 0x1_0000_0000 == y % 0x1_0000_0000 {
      SameRemainder(x, y, p, q);
      assert y - x == d * 0x9E3779B9;
      Stripped(d, q - p);
      Multiple(d, 33554432 * (q - p) - 20737779 * d);
    }
  }

  lemma SameRemainder(x: nat, y: nat, p: nat, q: nat)
    requires p == x / 0x1_0000_0000 && q == y / 0x1_0000_0000 && x % 0x1_0000_0000 == y % 0x1_0000_0000
    ensures y - x == 0x1_0000_0000 * (q - p)
  {
  }

  /** The constant is 57 more than 128 times 20737779. */
  lemma Stripped(d: int, m: int)
    requires d * 0x9E3779B9 == 0x1_0000_0000 * m
    ensures 57 * d == 128 * (33554432 * m - 20737779 * d)
  {
  }

  /** 9 times 57 is 1 more than a multiple of 128. */
  lemma Multiple(d: int, t: int)
    requires 57 * d == 128 * t
    ensures d % 128 == 0
  {
    assert d == 128 * (9 * t - 4 * d);
  }

  /** Some bit tells two different words apart. */
  lemma {:induction false} BitApart(a: nat, b: nat, n: nat) returns (k: nat)
    requires a != b && a < Pow2(n) && b < Pow2(n)
    ensures k < n && Bit(a, k) != Bit(b, k)
  {
    if a % 2 != b % 2 {
      k := 0;
    } else {
      k := BitApart(a / 2, b / 2, n - 1);
      k := k + 1;
    }
  }

  /** Xor with a single bit adds it where it is missing and takes it away where it is. */
  lemma {:induction false} XorBit(a: nat, n: nat)
    ensures Xor(Pow2(n), a) == if Bit(a, n) == 0 then a + Pow2(n) else a - Pow2(n)
  {
    XorHalves(Pow2(n), a);
    if n == 0 {
      XorZero(a / 2);
      hide Xor;
    } else {
      XorBit(a / 2, n - 1);
      hide Xor;
      assert Pow2(n) / 2 == Pow2(n - 1) && Pow2(n) % 2 == 0;
    }
  }

  lemma {:induction false} XorZero(a: nat)
    ensures Xor(0, a) == a
  {
    if a != 0 {
      XorZero(a / 2);
    }
  }

  /** The 128 permutations order the hashes in 128 different ways. */
  lemma OrdersDiffer(i: nat, j: nat) returns (g: Word, h: Word)
    requires i < j < 128
    ensures Mix(g, i) < Mix(h, i) && Mix(g, j) > Mix(h, j)
  {
    var (a, b) := ((i + 1) * 0x9E3779B9 % 0x1_0000_0000, (j + 1) * 0x9E3779B9 % 0x1_0000_0000);
    MultiplesDiffer(i, j);
    Pow32();
    var n := BitApart(a, b, 32);
    PowLess(n, 32);
    MixOf(0, i);
    MixOf(0, j);
    MixOf(Pow2(n), i);
    MixOf(Pow2(n), j);
    XorZero(a);
    XorZero(b);
    XorBit(a, n);
    XorBit(b, n);
    BitIsBit(a, n);
    BitIsBit(b, n);
    hide Xor, Mix, Bit, Low;
    if Bit(a, n) == 0 {
      g, h := 0, Pow2(n);
    } else {
      g, h := Pow2(n), 0;
    }
  }

  lemma {:induction false} PowLess(m: nat, n: nat)
    requires m < n
    ensures 0 < Pow2(m) < Pow2(n)
  {
    if m > 0 {
      PowLess(m - 1, n - 1);
    } else if n > 1 {
      PowLess(0, n - 1);
    }
  }

  lemma {:induction false} BitIsBit(a: nat, n: nat)
    ensures Bit(a, n) == 0 || Bit(a, n) == 1
  {
    if n > 0 {
      BitIsBit(a / 2, n - 1);
    }
  }

  lemma MixOf(h: Word, i: nat)
    ensures Mix(h, i) == Xor(h, (i + 1) * 0x9E3779B9 % 0x1_0000_0000)
  {
    MixIsXor(h, i);
    var k := Xor(Mix(h, i), h);
    hide Mix;
    XorTwice(Mix(h, i), h);
    XorCommutes(k, h);
  }

  /** The least mixed hash seen among the first n. */
  function Least(hs: seq<Word>, i: nat, n: nat): Word
    requires n <= |hs|
  {
    if n == 0 then 0xFFFFFFFF
    else
      var m := Least(hs, i, n - 1);
      if Mix(hs[n - 1], i) < m then Mix(hs[n - 1], i) else m
  }

  function Signature(hs: seq<Word>): (r: seq<Word>)
    ensures |r| == NUM_PERM
  {
    seq(NUM_PERM, i requires 0 <= i < NUM_PERM => if hs == [] then 0 else Least(hs, i, |hs|))
  }

  // ----- struct.pack("<128I") -----

  function Pack1(v: Word): seq<Byte> {
    [v % 256, v / 256 % 256, v / 256 / 256 % 256, v / 256 / 256 / 256]
  }

  function Join(b0: nat, b1: nat, b2: nat, b3: nat): Word
    requires b0 < 256 && b1 < 256 && b2 < 256 && b3 < 256
  {
    b0 + 256 * (b1 + 256 * (b2 + 256 * b3))
  }

  function Unpack1(b: seq<Byte>): Word
    requires |b| == 4
  {
    Join(b[0] as nat, b[1] as nat, b[2] as nat, b[3] as nat)
  }

  function Pack(vs: seq<Word>): (r: seq<Byte>)
    ensures |r| == 4 * |vs|
  {
    if vs == [] then [] else Pack1(vs[0]) + Pack(vs[1..])
  }

  function Unpack(b: seq<Byte>): (r: seq<Word>)
    requires |b| % 4 == 0
    ensures |r| == |b| / 4
  {
    if b == [] then [] else [Unpack1(b[..4])] + Unpack(b[4..])
  }

  /** The least significant byte comes first. */
  lemma LittleEndian(v: Word)
    ensures var b := Pack1(v);
            |b| == 4 && v == b[0] as int + 256 * b[1] as int + 65536 * b[2] as int + 16777216 * b[3] as int
  {
    var (q, r) := (v / 256, v / 256 / 256);
    assert v == v % 256 + 256 * q && q == q % 256 + 256 * r && r == r % 256 + 256 * (r / 256);
  }

  lemma Unpack1Packed(v: Word)
    ensures Unpack1(Pack1(v)) == v
  {
  }

  /** Little-endian packing loses nothing. */
  lemma {:induction false} UnpackPacked(vs: seq<Word>)
    ensures Unpack(Pack(vs)) == vs
  {
    if vs != [] {
      UnpackPacked(vs[1..]);
      Unpack1Packed(vs[0]);
      assert Pack(vs)[..4] == Pack1(vs[0]) && Pack(vs)[4..] == Pack(vs[1..]);
    }
  }

  /** _minhash_signature: the list sig is lowered in place, shingle by shingle. */
  method MinhashSignature(hs: seq<Word>) returns (r: seq<Byte>)
    ensures r == Pack(Signature(hs))
  {
    if hs == [] {
      var zeros := seq(NUM_PERM, i => 0);
      assert zeros == Signature(hs);
      return Pack(zeros);
    }
    var sig := new Word[NUM_PERM](i => 0xFFFFFFFF);
    var n := 0;
    while n < |hs|
      invariant 0 <= n <= |hs|
      invariant forall i :: 0 <= i < NUM_PERM ==> sig[i] == Least(hs, i, n)
    {
      var i := 0;
      while i < NUM_PERM
        invariant 0 <= i <= NUM_PERM
        invariant forall k :: 0 <= k < i ==> sig[k] == Least(hs, k, n + 1)
        invariant forall k :: i <= k < NUM_PERM ==> sig[k] == Least(hs, k, n)
      {
        var mixed := Mix(hs[n], i);
        if mixed < sig[i] {
          sig[i] := mixed;
        }
        i := i + 1;
      }
      n := n + 1;
    }
    assert sig[..] == Signature(hs);
    return Pack(sig[..]);
  }

  // ----- what a signature is -----

  lemma {:induction false} LeastMeans(hs: seq<Word>, i: nat, n: nat)
    requires 0 < n <= |hs|
    ensures forall k :: 0 <= k < n ==> Least(hs, i, n) <= Mix(hs[k], i)
    ensures exists k :: 0 <= k < n && Least(hs, i, n) == Mix(hs[k], i)
  {
    hide Mix;
    if n == 1 {
      assert Least(hs, i, 0) == 0xFFFFFFFF;
      assert Least(hs, i, 1) == Mix(hs[0], i);
    } else {
      LeastMeans(hs, i, n - 1);
      var k :| 0 <= k < n - 1 && Least(hs, i, n - 1) == Mix(hs[k], i);
      assert Least(hs, i, n) == Mix(hs[if Mix(hs[n - 1], i) < Least(hs, i, n - 1) then n - 1 else k], i);
    }
  }

  /** h comes first, in the i-th order, among the hashes of a and b together. */
  ghost predicate FirstOfUnion(h: Word, a: seq<Word>, b: seq<Word>, i: nat) {
    && (h in a || h in b)
    && (forall g :: g in a ==> Mix(h, i) <= Mix(g, i))
    && (forall g :: g in b ==> Mix(h, i) <= Mix(g, i))
  }

  /**
   Signatures agree at position i exactly when the i-th order's first element of the
   union of the two hash sets lies in their intersection.
   */
  lemma AgreeAtExactly(a: seq<Word>, b: seq<Word>, i: nat, h: Word)
    requires a != [] && b != [] && i < NUM_PERM && FirstOfUnion(h, a, b, i)
    ensures Signature(a)[i] == Signature(b)[i] <==> h in a && h in b
  {
    LeastMeans(a, i, |a|);
    LeastMeans(b, i, |b|);
    var j :| 0 <= j < |a| && Least(a, i, |a|) == Mix(a[j], i);
    var k :| 0 <= k < |b| && Least(b, i, |b|) == Mix(b[k], i);
    MixInjective(a[j], h, i);
    MixInjective(b[k], h, i);
    hide Mix, Least;
    assert Mix(h, i) <= Mix(a[j], i) && Mix(h, i) <= Mix(b[k], i);
    if h in a {
      assert Mix(a[j], i) <= Mix(h, i);
    }
    if h in b {
      assert Mix(b[k], i) <= Mix(h, i);
    }
  }

  /** Such a first element exists. */
  lemma FirstOfUnionExists(a: seq<Word>, b: seq<Word>, i: nat) returns (h: Word)
    requires a != []
    ensures FirstOfUnion(h, a, b, i)
  {
    var u := a + b;
    LeastMeans(u, i, |u|);
    var k :| 0 <= k < |u| && Least(u, i, |u|) == Mix(u[k], i);
    h := u[k];
    hide Mix, Least;
    forall g | g in a || g in b ensures Mix(h, i) <= Mix(g, i) {
      assert g in u;
    }
  }

  // ----- the estimated Jaccard similarity -----

  function Matches(a: seq<Word>, b: seq<Word>, n: nat): nat
    requires n <= |a| == |b|
  {
    if n == 0 then 0 else Matches(a, b, n - 1) + if a[n - 1] == b[n - 1] then 1 else 0
  }

  function Jaccard(a: seq<Word>, b: seq<Word>): (r: real)
    requires |a| == |b| == NUM_PERM
    ensures 0.0 <= r <= 1.0
  {
    MatchesBound(a, b, NUM_PERM);
    Matches(a, b, NUM_PERM) as real / NUM_PERM as real
  }

  lemma {:induction false} MatchesBound(a: seq<Word>, b: seq<Word>, n: nat)
    requires n <= |a| == |b|
    ensures Matches(a, b, n) <= n
    ensures Matches(a, b, n) == n <==> forall i :: 0 <= i < n ==> a[i] == b[i]
    ensures Matches(a, b, n) == 0 <==> forall i :: 0 <= i < n ==> a[i] != b[i]
  {
    if n > 0 {
      MatchesBound(a, b, n - 1);
    }
  }

  /** _jaccard_from_bytes: unpack both signatures and count the equal positions. */
  method JaccardFromBytes(sig1: seq<Byte>, sig2: seq<Byte>) returns (r: real)
    requires |sig1| == |sig2| == 4 * NUM_PERM
    ensures r == Jaccard(Unpack(sig1), Unpack(sig2))
  {
    var a, b := Unpack(sig1), Unpack(sig2);
    var matches, k := 0, 0;
    while k < NUM_PERM
      invariant 0 <= k <= NUM_PERM
      invariant matches == Matches(a, b, k)
    {
      if a[k] == b[k] {
        matches := matches + 1;
      }
      k := k + 1;
    }
    r := matches as real / NUM_PERM as real;
  }

  lemma {:induction false} MatchesAre(a: seq<Word>, b: seq<Word>, n: nat)
    requires n <= |a| == |b|
    ensures Matches(a, b, n) == |set i: nat | i < n && a[i] == b[i]|
  {
    var s := set i: nat | i < n && a[i] == b[i];
    if n == 0 {
      assert s == {};
    } else {
      MatchesAre(a, b, n - 1);
      var t := set i: nat | i < n - 1 && a[i] == b[i];
      assert s == if a[n - 1] == b[n - 1] then t + {n - 1} else t;
    }
  }

  /** In the i-th order the first hash of the union is common to both. */
  ghost predicate CommonFirst(a: seq<Word>, b: seq<Word>, i: nat) {
    exists h :: FirstOfUnion(h, a, b, i) && h in a && h in b
  }

  ghost function CommonFirsts(a: seq<Word>, b: seq<Word>): set<nat> {
    set i: nat | i < 128 && CommonFirst(a, b, i)
  }

  /** The score is the share of the 128 orders whose first hash of the union is common to both texts. */
  lemma JaccardIsShare(a: seq<Word>, b: seq<Word>)
    requires a != [] && b != []
    ensures Jaccard(Signature(a), Signature(b)) == |CommonFirsts(a, b)| as real / 128.0
  {
    var (s, t) := (Signature(a), Signature(b));
    MatchesAre(s, t, 128);
    forall i: nat | i < 128
      ensures s[i] == t[i] <==> CommonFirst(a, b, i)
    {
      var h := FirstOfUnionExists(a, b, i);
      AgreeAtExactly(a, b, i, h);
      forall g | FirstOfUnion(g, a, b, i) ensures s[i] == t[i] <==> g in a && g in b {
        AgreeAtExactly(a, b, i, g);
      }
    }
    hide CommonFirst, Signature, Least;
    assert CommonFirsts(a, b) == set i: nat | i < 128 && s[i] == t[i];
  }

  ghost predicate SameHashes(a: seq<Word>, b: seq<Word>) {
    forall h :: h in a <==> h in b
  }

  lemma SameEmptiness(a: seq<Word>, b: seq<Word>)
    requires SameHashes(a, b)
    ensures a == [] ==> b == []
  {
    if b != [] {
      var h := b[0];
      assert h in a;
    }
  }

  /** Order and repetition of the shingles do not matter. */
  lemma SignatureOfSet(a: seq<Word>, b: seq<Word>)
    requires SameHashes(a, b)
    ensures Signature(a) == Signature(b)
  {
    SameEmptiness(a, b);
    SameEmptiness(b, a);
    if a != [] {
      forall i | 0 <= i < NUM_PERM ensures Signature(a)[i] == Signature(b)[i] {
        var h := FirstOfUnionExists(a, b, i);
        AgreeAtExactly(a, b, i, h);
      }
    }
  }

  /** Equal hash sets score 1, two non-empty disjoint ones score 0. */
  lemma JaccardExtremes(a: seq<Word>, b: seq<Word>)
    ensures SameHashes(a, b) ==> Jaccard(Signature(a), Signature(b)) == 1.0
    ensures a != [] && b != [] && (forall h :: h in a ==> h !in b) ==> Jaccard(Signature(a), Signature(b)) == 0.0
  {
    var s, t := Signature(a), Signature(b);
    MatchesBound(s, t, NUM_PERM);
    if SameHashes(a, b) {
      SignatureOfSet(a, b);
    }
    if a != [] && b != [] && (forall h :: h in a ==> h !in b) {
      forall i | 0 <= i < NUM_PERM ensures s[i] != t[i] {
        var h := FirstOfUnionExists(a, b, i);
        AgreeAtExactly(a, b, i, h);
      }
    }
  }

  /** Texts without any token are all alike: their signatures are zero and score 1 against each other. */
  lemma TokenlessTextsMatch()
    ensures forall i :: 0 <= i < |Signature([])| ==> Signature([])[i] == 0
    ensures Jaccard(Signature([]), Signature([])) == 1.0
  {
    JaccardExtremes([], []);
  }
}
