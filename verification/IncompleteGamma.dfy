/**
 The regularised lower incomplete gamma function of the chi-squared spam score,
 at the integer shapes it is called with: a power series below x = a + 1 and a
 continued fraction, evaluated by the modified Lentz method, above.  Floats are
 modelled as reals.
 */
module IncompleteGamma {
  import opened RealFacts

  const EPS: real := 1.0 / 1000000000000000.0
  const TINY: real := 1.0 / 1000000000000000000000000000000.0
  const LOOP_END := 200

  // ----- the exponential series -----

  function Fact(n: nat): (r: real)
    ensures r >= 1.0
  {
    if n == 0 then 1.0 else n as real * Fact(n - 1)
  }

  function Pow(x: real, n: nat): (r: real)
    ensures x > 0.0 ==> r > 0.0
    ensures x >= 0.0 ==> r >= 0.0
  {
    if n == 0 then 1.0 else x * Pow(x, n - 1)
  }

  function Term(x: real, j: nat): real {
    Pow(x, j) / Fact(j)
  }

  /** The first n terms of the exponential series at x. */
  function Partial(x: real, n: nat): real {
    if n == 0 then 0.0 else Partial(x, n - 1) + Term(x, n - 1)
  }

  /** What exp(-x) multiplies in both branches: x^a / (a-1)!. */
  function Weight(a: int, x: real): real
    requires a >= 1
  {
    Pow(x, a) / Fact(a - 1)
  }

  lemma TermStep(x: real, j: nat)
    ensures Term(x, j + 1) == Term(x, j) * (x / (j + 1) as real)
  {
    var p, f, n := Pow(x, j), Fact(j), (j + 1) as real;
    assert Term(x, j + 1) == (x * p) / (n * f);
    assert (x * p) / (n * f) == (p / f) * (x / n) by { QuotientOfProducts(x, p, n, f); }
  }

  lemma TermPositive(x: real, j: nat)
    requires x > 0.0
    ensures Term(x, j) > 0.0
  {
  }

  lemma {:induction false} PartialGrows(x: real, m: nat, n: nat)
    requires x > 0.0 && m <= n
    ensures Partial(x, m) <= Partial(x, n)
    decreases n
  {
    if m < n {
      PartialGrows(x, m, n - 1);
      TermPositive(x, n - 1);
    }
  }

  // ----- math.exp, math.log and math.lgamma -----

  /** The library functions the code calls; lgamma is only called at integers. */
  datatype Elementary = Elementary(exp: real -> real, log: real -> real, lgamma: int -> real)
  {
    function Exp(u: real): real { exp(u) }

    function Log(u: real): real { log(u) }

    function LGamma(n: int): real { lgamma(n) }

    ghost predicate Adds(u: real, v: real) { Exp(u + v) == Exp(u) * Exp(v) }
    ghost predicate Inverts(x: real) { x > 0.0 ==> Exp(Log(x)) == x }
    ghost predicate Factorial(n: nat) { n >= 1 ==> Exp(LGamma(n)) == Fact(n - 1) }
    ghost predicate Dominates(x: real, n: nat) { x >= 0.0 ==> Exp(-x) * Partial(x, n) <= 1.0 }

    /** The facts about the three functions that the results below rest on. */
    ghost predicate Lawful() {
      && Exp(0.0) == 1.0
      && (forall u: real :: Exp(u) > 0.0)
      && (forall u: real, v: real :: Adds(u, v))
      && (forall x: real :: Inverts(x))
      && (forall n: nat :: Factorial(n))
      && (forall x: real, n: nat :: Dominates(x, n))
    }

    function Prefactor(a: int, x: real): real {
      Exp(-x + Scaled(a, Log(x)) - LGamma(a))
    }
  }

  function Scaled(n: int, l: real): real { n as real * l }

  lemma ScaledStep(a: nat, l: real)
    requires a > 0
    ensures Scaled(a, l) == l + Scaled(a - 1, l)
  {
    assert a as real == 1.0 + (a - 1) as real;
  }

  lemma {:induction false} ExpOfMultiple(f: Elementary, a: nat, x: real)
    requires f.Lawful() && x > 0.0
    ensures f.Exp(Scaled(a, f.Log(x))) == Pow(x, a)
  {
    var l := f.Log(x);
    if a == 0 {
      assert Scaled(a, l) == 0.0;
    } else {
      ExpOfMultiple(f, a - 1, x);
      ScaledStep(a, l);
      assert f.Adds(l, Scaled(a - 1, l)) && f.Inverts(x);
    }
  }

  lemma ProductOverQuotient(e: real, p: real, n: real, w: real)
    requires n > 0.0 && n * w == 1.0
    ensures (e * p) * w == e * (p / n)
  {
    var q := p / n;
    assert p == q * n;
    assert (e * p) * w == e * (q * (n * w));
  }

  lemma PrefactorIsWeight(f: Elementary, a: int, x: real)
    requires f.Lawful() && x > 0.0 && a >= 1
    ensures f.Prefactor(a, x) == f.Exp(-x) * Weight(a, x)
  {
    var al, lg := Scaled(a, f.Log(x)), f.LGamma(a);
    var w, n := f.Exp(-lg), Fact(a - 1);
    assert f.Exp(al) == Pow(x, a) by { ExpOfMultiple(f, a, x); }
    assert n * w == 1.0 by {
      assert f.Adds(lg, -lg) && f.Factorial(a);
      assert lg + -lg == 0.0;
    }
    assert f.Adds(-x, al) && f.Adds(-x + al, -lg);
    assert (-x + al) + -lg == -x + al - lg;
    assert f.Prefactor(a, x) == f.Exp((-x + al) + -lg);
    ProductOverQuotient(f.Exp(-x), Pow(x, a), n, w);
  }

  // ----- the two loops -----

  function Abs(r: real): real { if r < 0.0 then -r else r }

  function Clamp(r: real): real { if Abs(r) < TINY then TINY else r }

  function NextTerm(a: int, x: real, k: nat, t: real): real
    requires a >= 1
  {
    t * (x / (a + k) as real)
  }

  /** The test on the new term that ends the loop. */
  predicate Settled(t: real, s: real) { Abs(t) < EPS * Abs(s) }

  /** The rest of the series loop: the last k that ran, and the sum. */
  function SeriesLoop(a: int, x: real, k: nat, t: real, s: real): (nat, real)
    requires a >= 1 && 1 <= k <= LOOP_END
    decreases LOOP_END - k
  {
    if k == LOOP_END then (k - 1, s)
    else
      var t' := NextTerm(a, x, k, t);
      var s' := s + t';
      if Settled(t', s') then (k, s') else SeriesLoop(a, x, k + 1, t', s')
  }

  function Series(a: int, x: real): (nat, real)
    requires a >= 1
  {
    SeriesLoop(a, x, 1, 1.0 / a as real, 1.0 / a as real)
  }

  function Numer(a: int, i: int): real { -i as real * (i - a) as real }

  /** The state of the Lentz loop. */
  datatype Lentz = Lentz(b: real, c: real, d: real, h: real)

  function DenRatio(an: real, b: real, d: real): real { an * d + b }

  function NumRatio(an: real, b: real, c: real): real
    requires c != 0.0
  {
    b + an / c
  }

  function Grow(h: real, d: real, c: real): real { h * (d * c) }

  function LentzStep(a: int, i: int, v: Lentz): (r: Lentz)
    requires v.c != 0.0
    ensures r.c != 0.0
  {
    var an := Numer(a, i);
    var b := v.b + 2.0;
    var d := 1.0 / Clamp(DenRatio(an, b, v.d));
    var c := Clamp(NumRatio(an, b, v.c));
    Lentz(b, c, d, Grow(v.h, d, c))
  }

  /** The test on the correction factor that ends the loop. */
  predicate Stops(v: Lentz) { Abs(v.d * v.c - 1.0) < EPS }

  /** The rest of the Lentz loop: the last i that ran, and h. */
  function LentzLoop(a: int, i: nat, v: Lentz): (int, real)
    requires 1 <= i <= LOOP_END && v.c != 0.0
    decreases LOOP_END - i
  {
    if i == LOOP_END then (i - 1, v.h)
    else
      var w := LentzStep(a, i, v);
      if Stops(w) then (i, w.h) else LentzLoop(a, i + 1, w)
  }

  function LentzStart(a: int, x: real): (v: Lentz)
    requires x + 1.0 - a as real != 0.0
    ensures v.c != 0.0
  {
    var b := x + 1.0 - a as real;
    Lentz(b, 1.0 / TINY, 1.0 / b, 1.0 / b)
  }

  function Fraction(a: int, x: real): (int, real)
    requires x + 1.0 - a as real != 0.0
  {
    LentzLoop(a, 1, LentzStart(a, x))
  }

  function Lower(f: Elementary, a: int, x: real, s: real): real {
    s * f.Prefactor(a, x)
  }

  function Upper(f: Elementary, a: int, x: real, h: real): real {
    f.Prefactor(a, x) * h
  }

  /** What _gammainc returns at an integer shape. */
  function P(f: Elementary, a: int, x: real): real {
    if x <= 0.0 || a <= 0 then 0.0
    else if x < a as real + 1.0 then Lower(f, a, x, Series(a, x).1)
    else 1.0 - Upper(f, a, x, Fraction(a, x).1)
  }

  lemma RatiosAre(an: real, b: real, c: real, d: real)
    requires c != 0.0
    ensures DenRatio(an, b, d) == an * d + b && NumRatio(an, b, c) == b + an / c
  {
  }

  lemma ClampNonZero(r: real)
    ensures Clamp(r) != 0.0
  {
  }

  method LentzRound(a: int, i: nat, b0: real, c0: real, d0: real, h0: real)
    returns (b: real, c: real, d: real, h: real)
    requires c0 != 0.0
    ensures Lentz(b, c, d, h) == LentzStep(a, i, Lentz(b0, c0, d0, h0))
  {
    hide Clamp, Numer;
    var an := Numer(a, i);
    b := b0 + 2.0;
    ClampNonZero(an * d0 + b);
    ClampNonZero(b + an / c0);
    RatiosAre(an, b, c0, d0);
    d := Clamp(an * d0 + b);
    c := Clamp(b + an / c0);
    d := 1.0 / d;
    var delta := d * c;
    h := h0 * delta;
    assert h == Grow(h0, d, c);
  }

  /** _gammainc, with its two loops. */
  method GammaInc(f: Elementary, a: int, x: real) returns (r: real)
    ensures r == P(f, a, x)
  {
    hide NextTerm, Settled, LentzStep, Stops, Lower, Upper;
    if x <= 0.0 || a <= 0 {
      return 0.0;
    }
    if x < a as real + 1.0 {
      var t := 1.0 / a as real;
      var s := t;
      var k := 1;
      while k < LOOP_END
        invariant 1 <= k <= LOOP_END
        invariant Series(a, x) == SeriesLoop(a, x, k, t, s)
      {
        t := NextTerm(a, x, k, t);
        s := s + t;
        if Settled(t, s) {
          break;
        }
        k := k + 1;
      }
      return Lower(f, a, x, s);
    }
    var b := x + 1.0 - a as real;
    var c := 1.0 / TINY;
    var d := 1.0 / b;
    var h := d;
    var i := 1;
    while i < LOOP_END
      invariant 1 <= i <= LOOP_END && c != 0.0
      invariant Fraction(a, x) == LentzLoop(a, i, Lentz(b, c, d, h))
    {
      b, c, d, h := LentzRound(a, i, b, c, d, h);
      if Stops(Lentz(b, c, d, h)) {
        break;
      }
      i := i + 1;
    }
    return 1.0 - Upper(f, a, x, h);
  }

  // ----- the series branch -----

  /** t is the term that round k of the series loop adds, scaled. */
  ghost predicate AtTerm(a: int, x: real, k: nat, t: real)
    requires a >= 1
  {
    t > 0.0 && t * Weight(a, x) == Term(x, a + k)
  }

  /** s is, scaled, the slice a .. a+k of the exponential series. */
  ghost predicate AtSum(a: int, x: real, k: nat, s: real)
    requires a >= 1
  {
    s > 0.0 && s * Weight(a, x) == Partial(x, a + k + 1) - Partial(x, a)
  }

  ghost predicate Insignificant(t: real, s: real) { t < EPS * s }

  /** Term a+k is less than EPS times the slice that ends in it. */
  ghost predicate Negligible(a: int, x: real, k: nat, s: real)
    requires a >= 1
  {
    Insignificant(Term(x, a + k), s * Weight(a, x))
  }

  lemma SeriesRound(a: int, x: real, k: nat, t: real, s: real)
    requires a >= 1 && x > 0.0 && k >= 1
    requires AtTerm(a, x, k - 1, t) && AtSum(a, x, k - 1, s)
    ensures AtTerm(a, x, k, NextTerm(a, x, k, t)) && AtSum(a, x, k, s + NextTerm(a, x, k, t))
  {
    var q, w := x / (a + k) as real, Weight(a, x);
    TermStep(x, a + k - 1);
    assert q > 0.0;
    assert Partial(x, a + k + 1) == Partial(x, a + k) + Term(x, a + k);
    hide Weight, Term, Partial;
    Regroup(t, q, w, s);
  }

  lemma Regroup(t: real, q: real, w: real, s: real)
    ensures (t * q) * w == (t * w) * q
    ensures (s + t * q) * w == s * w + (t * q) * w
    ensures t > 0.0 && q > 0.0 ==> t * q > 0.0
  {
  }

  lemma BreakIsNegligible(a: int, x: real, k: nat, t: real, s: real)
    requires a >= 1 && x > 0.0 && AtTerm(a, x, k, t) && t < EPS * s
    ensures Negligible(a, x, k, s)
  {
    var w := Weight(a, x);
    hide Weight, Term;
    assert w > 0.0;
    assert t * w < (EPS * s) * w;
    assert (EPS * s) * w == EPS * (s * w);
  }

  /** After n rounds the sum is the slice a .. a+n of the exponential series. */
  lemma {:induction false} SeriesLoopClosed(a: int, x: real, k: nat, t: real, s: real)
    requires a >= 1 && x > 0.0 && 1 <= k <= LOOP_END
    requires AtTerm(a, x, k - 1, t) && AtSum(a, x, k - 1, s)
    ensures var (n, sum) := SeriesLoop(a, x, k, t, s);
      && 1 <= n < LOOP_END && k - 1 <= n && sum >= s && AtSum(a, x, n, sum)
      && (n < LOOP_END - 1 ==> Negligible(a, x, n, sum))
    decreases LOOP_END - k
  {
    if k < LOOP_END {
      var t' := NextTerm(a, x, k, t);
      var s' := s + t';
      SeriesRound(a, x, k, t, s);
      assert t > 0.0 && s > 0.0 && t' > 0.0;
      hide AtTerm, AtSum, Negligible, NextTerm, Weight;
      if Abs(t') < EPS * Abs(s') {
        BreakIsNegligible(a, x, k, t', s');
      } else {
        SeriesLoopClosed(a, x, k + 1, t', s');
      }
    }
  }

  lemma SeriesStart(a: int, x: real)
    requires a >= 1 && x > 0.0
    ensures AtTerm(a, x, 0, 1.0 / a as real) && AtSum(a, x, 0, 1.0 / a as real)
  {
    var r, p, g := a as real, Pow(x, a), Fact(a - 1);
    QuotientOfProducts(1.0, p, r, g);
    assert Term(x, a) == (1.0 * p) / (r * g);
    assert Partial(x, a + 1) == Partial(x, a) + Term(x, a);
  }

  lemma SeriesClosed(a: int, x: real)
    requires a >= 1 && x > 0.0
    ensures var (n, sum) := Series(a, x);
      && 1 <= n < LOOP_END && sum >= 1.0 / a as real && AtSum(a, x, n, sum)
      && (n < LOOP_END - 1 ==> Negligible(a, x, n, sum))
  {
    SeriesStart(a, x);
    hide AtTerm, AtSum, Negligible, SeriesLoop;
    SeriesLoopClosed(a, x, 1, 1.0 / a as real, 1.0 / a as real);
  }

  // ----- truncation of the series branch -----

  /** The quotient v / u is at most x / n. */
  predicate Falls(v: real, n: real, u: real, x: real) { v * n <= u * x }

  lemma TermRatio(x: real, n: nat, j: nat)
    requires 0.0 < x < (n + 1) as real && j >= n
    ensures Falls(Term(x, j + 1), (n + 1) as real, Term(x, j), x)
  {
    TermStep(x, j);
    TermPositive(x, j);
    var t, m := Term(x, j), (j + 1) as real;
    hide Term;
    assert (t * (x / m)) * m == t * x;
    assert t * (x / m) > 0.0;
    assert (t * (x / m)) * (n + 1) as real <= (t * (x / m)) * m;
  }

  ghost predicate Telescopes(sum: real, n: real, t: real, u: real, x: real) { sum * (n - x) <= (t - u) * x }

  /** Whatever the series adds after term n stays below a geometric bound. */
  lemma {:induction false} TailBound(x: real, n: nat, m: nat)
    requires 0.0 < x < (n + 1) as real && m > n
    ensures Telescopes(Partial(x, m) - Partial(x, n + 1), (n + 1) as real, Term(x, n), Term(x, m - 1), x)
    decreases m
  {
    if m > n + 1 {
      TailBound(x, n, m - 1);
      TermRatio(x, n, m - 2);
      hide Falls, Telescopes, Term;
      assert Partial(x, m) == Partial(x, m - 1) + Term(x, m - 1);
      TailStep(x, (n + 1) as real, Partial(x, m - 1) - Partial(x, n + 1), Term(x, n), Term(x, m - 2), Term(x, m - 1));
    }
  }

  lemma TailStep(x: real, n: real, sum: real, t: real, u: real, v: real)
    requires Telescopes(sum, n, t, u, x) && Falls(v, n, u, x)
    ensures Telescopes(sum + v, n, t, v, x)
  {
    assert (sum + v) * (n - x) == sum * (n - x) + v * n - v * x;
    assert (t - v) * x == (t - u) * x + u * x - v * x;
  }

  // ----- the series loop ends by its test -----

  lemma {:induction false} PowAdds(x: real, m: nat, n: nat)
    ensures Pow(x, m + n) == Pow(x, m) * Pow(x, n)
  {
    if m > 0 {
      PowAdds(x, m - 1, n);
      assert (x * Pow(x, m - 1)) * Pow(x, n) == x * (Pow(x, m - 1) * Pow(x, n));
    }
  }

  lemma FiftyHalvings()
    ensures Pow(0.5, 50) < EPS
  {
    assert Pow(0.5, 5) == 1.0 / 32.0;
    PowAdds(0.5, 5, 5);
    PowAdds(0.5, 10, 10);
    PowAdds(0.5, 20, 20);
    PowAdds(0.5, 40, 10);
  }

  /** A bound on a times the term after k rounds, for x < a + 1. */
  function Decay(a: nat, k: nat): real {
    if k <= a + 1 then 1.0 else Pow(0.5, k - a - 1)
  }

  lemma DecayStep(a: nat, x: real, k: nat, t: real)
    requires a >= 1 && 0.0 < x < a as real + 1.0 && k >= 1
    requires 0.0 < t && t * a as real <= Decay(a, k - 1)
    ensures 0.0 < NextTerm(a, x, k, t) && NextTerm(a, x, k, t) * a as real <= Decay(a, k)
  {
    var q := x / (a + k) as real;
    assert Decay(a, k - 1) > 0.0;
    var c := if k >= a + 2 then 0.5 else 1.0;
    assert Decay(a, k) == Decay(a, k - 1) * c;
    QuotientAtMost(x, (a + k) as real, c);
    QuotientPositive(x, (a + k) as real);
    assert (t * q) * a as real == (t * a as real) * q;
    ProductAtMost(t * a as real, Decay(a, k - 1), q, c);
    ProductPositive(t, q);
  }

  lemma ScaledLess(t: real, s: real, r: real, e: real, d: real)
    requires r > 0.0 && e > 0.0 && t * r <= d < e && s * r >= 1.0
    ensures t < e * s
  {
    assert (e * s) * r == e * (s * r) >= e * 1.0;
  }

  lemma DecayEnds(a: nat, t: real, s: real)
    requires a >= 1 && t * a as real <= Decay(a, a + 51) && s >= 1.0 / a as real
    ensures t < EPS * s
  {
    FiftyHalvings();
    var r := a as real;
    assert s * r >= (1.0 / r) * r == 1.0;
    ScaledLess(t, s, r, EPS, Decay(a, a + 51));
  }

  lemma {:induction false} SeriesLoopStops(a: int, x: real, k: nat, t: real, s: real)
    requires 1 <= a < LOOP_END - 52 && 0.0 < x < a as real + 1.0 && 1 <= k <= a + 51
    requires 0.0 < t && t * a as real <= Decay(a, k - 1) && s >= 1.0 / a as real
    ensures SeriesLoop(a, x, k, t, s).0 <= a + 51
    decreases LOOP_END - k
  {
    var t' := NextTerm(a, x, k, t);
    DecayStep(a, x, k, t);
    assert s > 0.0;
    if k == a + 51 {
      DecayEnds(a, t', s + t');
    }
    hide NextTerm, Decay;
    if Abs(t') >= EPS * Abs(s + t') {
      SeriesLoopStops(a, x, k + 1, t', s + t');
    }
  }

  /** Up to shape 147 the series loop never runs out of its 199 rounds. */
  lemma SeriesStops(a: int, x: real)
    requires 1 <= a < LOOP_END - 52 && 0.0 < x < a as real + 1.0
    ensures Series(a, x).0 <= a + 51 < LOOP_END - 1
  {
    var r := a as real;
    assert (1.0 / r) * r == 1.0;
    SeriesLoopStops(a, x, 1, 1.0 / r, 1.0 / r);
  }

  // ----- the continued fraction: its three-term recurrence -----

  function Beta(a: int, x: real, i: int): real { x + (1 - a + 2 * i) as real }

  function Alpha(a: int, i: int): real { (i * (a - i)) as real }

  /** u(m+1) = Beta(m) u(m) + Alpha(m) u(m-1), from u(0) and u(1). */
  function Rec(a: int, x: real, u0: real, u1: real, m: nat): real {
    if m == 0 then u0
    else if m == 1 then u1
    else Beta(a, x, m - 1) * Rec(a, x, u0, u1, m - 1) + Alpha(a, m - 1) * Rec(a, x, u0, u1, m - 2)
  }

  ghost predicate ThreeTerm(b: real, an: real, u0: real, u1: real, u2: real) { u2 == b * u1 + an * u0 }

  /** Denominators, shifted by one: Den(m) is the m-th with Den(0) = 1. */
  function Den(a: int, x: real, m: nat): real {
    Rec(a, x, 1.0, Beta(a, x, 0), m)
  }

  /** Numerators; the seed 1/c of the code stands where the fraction has 0. */
  function Num(a: int, x: real, seed: real, m: nat): real {
    Rec(a, x, seed, 1.0, m)
  }

  /** Two neighbours of a solution at shape a give a solution at shape a - 1. */
  function Shifted(a: int, x: real, u0: real, u1: real, m: nat): real {
    Rec(a, x, u0, u1, m + 1) + (a - 1 - m) as real * Rec(a, x, u0, u1, m)
  }

  lemma ShiftIdentity(x: real, a: real, m: real, q: real, r: real, p: real, s: real)
    requires p == (x + 1.0 - a + 2.0 * m) * q + m * (a - m) * r
    requires s == (x + 3.0 - a + 2.0 * m) * p + (m + 1.0) * (a - m - 1.0) * q
    ensures s + (a - 2.0 - m) * p
      == (x + 2.0 - a + 2.0 * m) * (p + (a - 1.0 - m) * q) + m * (a - 1.0 - m) * (q + (a - m) * r)
  {
    var e := a - 1.0 - m;
    assert m * e * (q + (a - m) * r) == e * (m * q + m * (a - m) * r);
    assert m * (a - m) * r == p - (x + 1.0 - a + 2.0 * m) * q;
    assert e * (m * q + (p - (x + 1.0 - a + 2.0 * m) * q)) == e * p - (x + 1.0 - a + m) * (e * q);
    assert (x + 2.0 - a + 2.0 * m) * (p + e * q) == (x + 2.0 - a + 2.0 * m) * p + (x + 2.0 - a + 2.0 * m) * (e * q);
    assert (m + 1.0) * (a - m - 1.0) * q == (m + 1.0) * (e * q);
  }

  lemma RecStep(a: int, x: real, u0: real, u1: real, m: nat)
    requires m >= 1
    ensures ThreeTerm(Beta(a, x, m), Alpha(a, m),
      Rec(a, x, u0, u1, m - 1), Rec(a, x, u0, u1, m), Rec(a, x, u0, u1, m + 1))
  {
  }

  lemma ShiftStep(a: int, x: real, u0: real, u1: real, m: nat)
    requires m >= 1
    ensures Shifted(a, x, u0, u1, m + 1)
      == Beta(a - 1, x, m) * Shifted(a, x, u0, u1, m) + Alpha(a - 1, m) * Shifted(a, x, u0, u1, m - 1)
  {
    hide Rec, Alpha, Beta;
    var q, r := Rec(a, x, u0, u1, m), Rec(a, x, u0, u1, m - 1);
    var p, s := Rec(a, x, u0, u1, m + 1), Rec(a, x, u0, u1, m + 2);
    Coefficients(a, x, m);
    RecStep(a, x, u0, u1, m);
    RecStep(a, x, u0, u1, m + 1);
    assert Shifted(a, x, u0, u1, m + 1) == s + (a as real - 2.0 - m as real) * p;
    assert Shifted(a, x, u0, u1, m) == p + (a as real - 1.0 - m as real) * q;
    assert Shifted(a, x, u0, u1, m - 1) == q + (a as real - m as real) * r;
    hide Shifted;
    ShiftIdentity(x, a as real, m as real, q, r, p, s);
  }

  lemma Coefficients(a: int, x: real, m: nat)
    ensures var ar, mr := a as real, m as real;
      && Beta(a, x, m) == x + 1.0 - ar + 2.0 * mr
      && Alpha(a, m) == mr * (ar - mr)
      && Beta(a, x, m + 1) == x + 3.0 - ar + 2.0 * mr
      && Alpha(a, m + 1) == (mr + 1.0) * (ar - mr - 1.0)
      && Beta(a - 1, x, m) == x + 2.0 - ar + 2.0 * mr
      && Alpha(a - 1, m) == mr * (ar - 1.0 - mr)
  {
    ProductAsReal(m, a - m);
    ProductAsReal(m + 1, a - (m + 1));
    ProductAsReal(m, a - 1 - m);
  }

  lemma ProductAsReal(i: int, j: int)
    ensures (i * j) as real == i as real * j as real
  {
  }

  /** x times the denominators at shape a - 1. */
  function Raised(a: int, x: real, m: nat): real {
    x * Den(a - 1, x, m)
  }

  lemma RaisedStep(a: int, x: real, m: nat)
    requires m >= 1
    ensures Raised(a, x, m + 1) == Beta(a - 1, x, m) * Raised(a, x, m) + Alpha(a - 1, m) * Raised(a, x, m - 1)
  {
    hide Rec, Alpha, Beta;
    RecStep(a - 1, x, 1.0, Beta(a - 1, x, 0), m);
    var b, c := Beta(a - 1, x, m), Alpha(a - 1, m);
    Distribute(x, b, Den(a - 1, x, m), c, Den(a - 1, x, m - 1), Den(a - 1, x, m + 1));
  }

  lemma Distribute(x: real, b: real, u: real, c: real, v: real, w: real)
    requires w == b * u + c * v
    ensures x * w == b * (x * u) + c * (x * v)
  {
  }

  lemma DenShiftBase(a: int, x: real)
    ensures Raised(a, x, 0) == Shifted(a, x, 1.0, Beta(a, x, 0), 0)
    ensures Raised(a, x, 1) == Shifted(a, x, 1.0, Beta(a, x, 0), 1)
  {
    assert Shifted(a, x, 1.0, Beta(a, x, 0), 0) == x;
    assert Den(a - 1, x, 0) == 1.0;
    var ar, u1 := a as real, Beta(a, x, 0);
    RecStep(a, x, 1.0, u1, 1);
    Coefficients(a, x, 1);
    assert Rec(a, x, 1.0, u1, 1) == u1 == x + 1.0 - ar && Rec(a, x, 1.0, u1, 0) == 1.0;
    assert Den(a - 1, x, 1) == Beta(a - 1, x, 0) == x + 2.0 - ar;
    var p := Rec(a, x, 1.0, u1, 2);
    assert Shifted(a, x, 1.0, u1, 1) == p + (ar - 2.0) * u1;
    hide Rec, Shifted, Beta, Den;
    DenShiftBaseIdentity(x, ar, p);
  }

  lemma DenShiftBaseIdentity(x: real, a: real, p: real)
    requires p == (x + 1.0 - a + 2.0) * (x + 1.0 - a) + (1.0 * (a - 1.0)) * 1.0
    ensures p + (a - 2.0) * (x + 1.0 - a) == x * (x + 2.0 - a)
  {
  }

  /** Raised solves the recurrence of shape a - 1, as the shifted denominators of shape a do. */
  lemma {:induction false} DenShift(a: int, x: real, m: nat)
    ensures Raised(a, x, m) == Shifted(a, x, 1.0, Beta(a, x, 0), m)
  {
    hide Rec, Alpha, Beta, Shifted, Raised;
    if m <= 1 {
      DenShiftBase(a, x);
    } else {
      DenShift(a, x, m - 1);
      DenShift(a, x, m - 2);
      RaisedStep(a, x, m - 1);
      ShiftStep(a, x, 1.0, Beta(a, x, 0), m - 1);
    }
  }

  lemma ShiftEnd(a: int, x: real, u0: real, u1: real)
    requires a >= 1
    ensures Shifted(a, x, u0, u1, a - 1) == Rec(a, x, u0, u1, a)
  {
  }

  lemma DenOne(x: real)
    ensures Den(1, x, 1) == Pow(x, 1)
  {
    assert Den(1, x, 1) == Beta(1, x, 0) == x;
    assert Pow(x, 1) == x * Pow(x, 0);
  }

  lemma DenStep(a: int, x: real)
    requires a >= 2
    ensures Den(a, x, a) == Raised(a, x, a - 1)
  {
    hide Rec, Shifted, Raised, Beta;
    DenShift(a, x, a - 1);
    ShiftEnd(a, x, 1.0, Beta(a, x, 0));
  }

  /** The last denominator is a power of x. */
  lemma {:induction false} DenIsPower(a: int, x: real)
    requires a >= 1
    ensures Den(a, x, a) == Pow(x, a)
  {
    if a == 1 {
      DenOne(x);
    } else {
      DenIsPower(a - 1, x);
      DenStep(a, x);
      hide Den;
      assert Pow(x, a) == x * Pow(x, a - 1);
    }
  }

  // ----- numerators -----

  /** (a-1) times the numerators at shape a - 1, plus the denominators there. */
  function Mixed(a: int, x: real, m: nat): real {
    (a - 1) as real * Num(a - 1, x, 0.0, m) + Den(a - 1, x, m)
  }

  lemma MixedStep(a: int, x: real, m: nat)
    requires m >= 1
    ensures Mixed(a, x, m + 1) == Beta(a - 1, x, m) * Mixed(a, x, m) + Alpha(a - 1, m) * Mixed(a, x, m - 1)
  {
    hide Rec, Alpha, Beta;
    RecStep(a - 1, x, 0.0, 1.0, m);
    RecStep(a - 1, x, 1.0, Beta(a - 1, x, 0), m);
    var b, c := Beta(a - 1, x, m), Alpha(a - 1, m);
    Distribute((a - 1) as real, b, Num(a - 1, x, 0.0, m), c, Num(a - 1, x, 0.0, m - 1), Num(a - 1, x, 0.0, m + 1));
    assert Den(a - 1, x, m + 1) == b * Den(a - 1, x, m) + c * Den(a - 1, x, m - 1);
  }

  lemma {:induction false} NumShift(a: int, x: real, m: nat)
    ensures Mixed(a, x, m) == Shifted(a, x, 0.0, 1.0, m)
  {
    hide Rec, Alpha, Beta, Shifted, Mixed;
    if m <= 1 {
      NumShiftBase(a, x);
    } else {
      NumShift(a, x, m - 1);
      NumShift(a, x, m - 2);
      MixedStep(a, x, m - 1);
      ShiftStep(a, x, 0.0, 1.0, m - 1);
    }
  }

  lemma NumShiftBase(a: int, x: real)
    ensures Mixed(a, x, 0) == Shifted(a, x, 0.0, 1.0, 0)
    ensures Mixed(a, x, 1) == Shifted(a, x, 0.0, 1.0, 1)
  {
    RecStep(a, x, 0.0, 1.0, 1);
    Coefficients(a, x, 1);
    assert Rec(a, x, 0.0, 1.0, 1) == 1.0 && Rec(a, x, 0.0, 1.0, 0) == 0.0;
    assert Den(a - 1, x, 1) == Beta(a - 1, x, 0);
    assert Num(a - 1, x, 0.0, 1) == 1.0;
  }

  /** (a-1)! times the first a terms of the exponential series. */
  function Head(a: int, x: real): real
    requires a >= 1
  {
    Fact(a - 1) * Partial(x, a)
  }

  lemma HeadStep(a: int, x: real)
    requires a >= 2
    ensures Head(a, x) == (a - 1) as real * Head(a - 1, x) + Pow(x, a - 1)
  {
    var f, g, n := Fact(a - 1), Fact(a - 2), (a - 1) as real;
    var p := Partial(x, a - 1);
    QuotientTimes(Pow(x, a - 1), f);
    assert Partial(x, a) == p + Term(x, a - 1);
    assert f == n * g;
    var t := Term(x, a - 1);
    assert t * f == Pow(x, a - 1);
    hide Fact, Partial, Term, Pow;
    HeadIdentity(f, n, g, p, t);
  }

  lemma HeadIdentity(f: real, n: real, g: real, p: real, t: real)
    requires f == n * g
    ensures f * (p + t) == n * (g * p) + t * f
  {
    assert f * p == n * (g * p);
  }

  /** The last numerator, without the seed, is the head of the series. */
  lemma {:induction false} NumIsHead(a: int, x: real)
    requires a >= 1
    ensures Num(a, x, 0.0, a) == Head(a, x)
  {
    if a == 1 {
      assert Num(1, x, 0.0, 1) == 1.0;
      assert Partial(x, 1) == Partial(x, 0) + Term(x, 0);
    } else {
      hide Rec, Shifted, Head, Partial, Fact;
      NumIsHead(a - 1, x);
      NumShift(a, x, a - 1);
      DenIsPower(a - 1, x);
      HeadStep(a, x);
      ShiftEnd(a, x, 0.0, 1.0);
    }
  }

  // ----- the Lentz loop computes the convergents -----

  function Convergent(a: int, x: real, seed: real, m: nat): real
    requires Den(a, x, m) != 0.0
  {
    Num(a, x, seed, m) / Den(a, x, m)
  }

  lemma CoefficientsPositive(a: int, x: real, i: nat)
    requires x >= a as real + 1.0
    ensures Beta(a, x, i) >= 2.0
    ensures i <= a ==> Alpha(a, i) >= 0.0
  {
    if i <= a {
      assert i * (a - i) >= 0;
    }
  }

  lemma {:induction false} RecPositive(a: int, x: real, u0: real, u1: real, m: nat)
    requires x >= a as real + 1.0 && u0 >= 0.0 && u1 > 0.0 && 1 <= m <= a + 1
    ensures Rec(a, x, u0, u1, m) > 0.0
  {
    if m == 1 {
      assert Rec(a, x, u0, u1, 1) == u1;
    } else {
      assert m == 2 ==> Rec(a, x, u0, u1, 0) == u0;
      RecStep(a, x, u0, u1, m - 1);
      CoefficientsPositive(a, x, m - 1);
      hide Rec, Alpha, Beta;
      RecPositive(a, x, u0, u1, m - 1);
      if m > 2 {
        RecPositive(a, x, u0, u1, m - 2);
      }
      ProductPositive(Beta(a, x, m - 1), Rec(a, x, u0, u1, m - 1));
      ProductNonNegative(Alpha(a, m - 1), Rec(a, x, u0, u1, m - 2));
    }
  }

  lemma DenPositive(a: int, x: real, m: nat)
    requires a >= 1 && x >= a as real + 1.0 && m <= a + 1
    ensures Den(a, x, m) > 0.0
  {
    CoefficientsPositive(a, x, 0);
    if m > 0 {
      RecPositive(a, x, 1.0, Beta(a, x, 0), m);
    }
  }

  lemma NumPositive(a: int, x: real, seed: real, m: nat)
    requires a >= 1 && x >= a as real + 1.0 && m <= a + 1 && seed >= 0.0
    ensures Num(a, x, seed, m) >= 0.0 && (m >= 1 || seed > 0.0 ==> Num(a, x, seed, m) > 0.0)
  {
    if m > 0 {
      RecPositive(a, x, seed, 1.0, m);
    }
  }

  /** The factor q takes u to v. */
  ghost predicate Takes(q: real, u: real, v: real) { q * u == v }

  /** v holds the i-th convergent as h, and the ratios of its parts as c and d. */
  ghost predicate AtRound(a: int, x: real, i: nat, v: Lentz)
    requires i >= 1
  {
    && v.b == Beta(a, x, i - 1)
    && Takes(v.d, Den(a, x, i), Den(a, x, i - 1))
    && Takes(v.c, Num(a, x, TINY, i - 1), Num(a, x, TINY, i))
    && Takes(v.h, Den(a, x, i), Num(a, x, TINY, i))
  }

  lemma RatioPositive(c: real, n0: real, n1: real)
    requires Takes(c, n0, n1) && n0 > 0.0 && n1 > 0.0
    ensures c > 0.0
  {
    if c <= 0.0 {
      ScaleAtMost(c, 0.0, n0);
    }
  }

  lemma LentzDenominators(an: real, b: real, d: real, d0: real, d1: real, d2: real)
    requires Takes(d, d1, d0) && ThreeTerm(b, an, d0, d1, d2)
    requires an >= 0.0 && b >= 2.0 && d0 > 0.0 && d1 > 0.0
    ensures var e := DenRatio(an, b, d); e >= 2.0 && Takes(1.0 / e, d2, d1)
  {
    RatioPositive(d, d1, d0);
    ProductNonNegative(an, d);
    var e := an * d + b;
    assert e * d1 == an * (d * d1) + b * d1;
    assert (1.0 / e) * (e * d1) == ((1.0 / e) * e) * d1;
    QuotientTimes(1.0, e);
  }

  lemma LentzNumerators(an: real, b: real, c: real, n0: real, n1: real, n2: real)
    requires Takes(c, n0, n1) && ThreeTerm(b, an, n0, n1, n2)
    requires an >= 0.0 && b >= 2.0 && n0 > 0.0 && n1 > 0.0
    ensures c > 0.0 && NumRatio(an, b, c) >= 2.0 && Takes(NumRatio(an, b, c), n1, n2)
  {
    RatioPositive(c, n0, n1);
    QuotientAtLeast(an, c, 0.0);
    QuotientTimes(an, c);
    assert (an / c) * (c * n0) == ((an / c) * c) * n0;
  }

  lemma LentzHeight(h: real, d: real, c: real, d1: real, d2: real, n1: real, n2: real)
    requires Takes(d, d2, d1) && Takes(c, n1, n2) && Takes(h, d1, n1)
    ensures Takes(Grow(h, d, c), d2, n2)
  {
    assert (h * (d * c)) * d2 == c * (h * (d * d2));
  }

  lemma NumerIsAlpha(a: int, i: nat)
    ensures Numer(a, i) == Alpha(a, i)
  {
    ProductAsReal(i, a - i);
    assert (i - a) as real == -((a - i) as real);
    assert -(i as real) * (i - a) as real == i as real * (a - i) as real;
  }

  lemma ConvergentStep(a: int, x: real, seed: real, i: nat)
    requires i >= 1
    ensures ThreeTerm(Beta(a, x, i), Alpha(a, i), Den(a, x, i - 1), Den(a, x, i), Den(a, x, i + 1))
    ensures ThreeTerm(Beta(a, x, i), Alpha(a, i), Num(a, x, seed, i - 1), Num(a, x, seed, i), Num(a, x, seed, i + 1))
  {
    hide Rec, Alpha, Beta, ThreeTerm;
    RecStep(a, x, 1.0, Beta(a, x, 0), i);
    RecStep(a, x, seed, 1.0, i);
  }

  lemma PartsPositive(a: int, x: real, seed: real, i: nat)
    requires 1 <= i <= a && x >= a as real + 1.0 && seed > 0.0
    ensures Den(a, x, i - 1) > 0.0 && Den(a, x, i) > 0.0 && Den(a, x, i + 1) > 0.0
    ensures Num(a, x, seed, i - 1) > 0.0 && Num(a, x, seed, i) > 0.0 && Num(a, x, seed, i + 1) > 0.0
  {
    DenPositive(a, x, i - 1);
    DenPositive(a, x, i);
    DenPositive(a, x, i + 1);
    NumPositive(a, x, seed, i - 1);
    NumPositive(a, x, seed, i);
    NumPositive(a, x, seed, i + 1);
  }

  /** One round keeps AtRound, and neither clamp acts. */
  lemma LentzRoundKeeps(a: int, x: real, i: nat, v: Lentz)
    requires 1 <= i <= a && x >= a as real + 1.0 && v.c != 0.0 && AtRound(a, x, i, v)
    ensures AtRound(a, x, i + 1, LentzStep(a, i, v)) && LentzStep(a, i, v).h > 0.0
    ensures v.c > 0.0
    ensures DenRatio(Numer(a, i), v.b + 2.0, v.d) >= 2.0 && NumRatio(Numer(a, i), v.b + 2.0, v.c) >= 2.0
  {
    var an, b := Numer(a, i), v.b + 2.0;
    assert b == Beta(a, x, i);
    NumerIsAlpha(a, i);
    CoefficientsPositive(a, x, i);
    hide Rec, Alpha, Beta, Numer, Num, Den, DenRatio, NumRatio, Grow, Takes, ThreeTerm;
    ConvergentStep(a, x, TINY, i);
    PartsPositive(a, x, TINY, i);
    var d1, d2 := Den(a, x, i), Den(a, x, i + 1);
    var n1, n2 := Num(a, x, TINY, i), Num(a, x, TINY, i + 1);
    LentzDenominators(an, b, v.d, Den(a, x, i - 1), d1, d2);
    LentzNumerators(an, b, v.c, Num(a, x, TINY, i - 1), n1, n2);
    var d, c := 1.0 / DenRatio(an, b, v.d), NumRatio(an, b, v.c);
    LentzHeight(v.h, d, c, d1, d2, n1, n2);
    RatioPositive(Grow(v.h, d, c), d2, n2);
    assert LentzStep(a, i, v) == Lentz(b, c, d, Grow(v.h, d, c));
  }

  /** At i = a the correction factor is exactly 1. */
  lemma LastRoundStops(a: int, v: Lentz)
    requires a >= 1 && v.c != 0.0 && v.b + 2.0 >= 2.0
    ensures LentzStep(a, a, v).d * LentzStep(a, a, v).c == 1.0
  {
    var b := v.b + 2.0;
    NumerIsAlpha(a, a);
    assert Numer(a, a) == 0.0;
    assert DenRatio(0.0, b, v.d) == b && NumRatio(0.0, b, v.c) == b;
    assert LentzStep(a, a, v).d == 1.0 / b && LentzStep(a, a, v).c == b;
    QuotientTimes(1.0, b);
  }

  /** The value h as the m-th convergent of the fraction whose seed is the code's. */
  ghost predicate IsConvergent(a: int, x: real, m: nat, h: real) {
    Takes(h, Den(a, x, m), Num(a, x, TINY, m))
  }

  ghost predicate Near(h: real, g: real) { Abs(h - g) < EPS * g }

  /** Where the loop ends: with a convergent, which unless the rounds ran out is near the one before it. */
  ghost predicate LentzResult(a: int, x: real, n: int, h: real) {
    && 1 <= n <= a && n < LOOP_END && h > 0.0 && IsConvergent(a, x, n + 1, h)
    && (n < LOOP_END - 1 && n < a ==> exists g :: g > 0.0 && IsConvergent(a, x, n, g) && Near(h, g))
  }

  lemma StopIsNear(g: real, w: Lentz)
    requires g > 0.0 && Stops(w) && w.h == Grow(g, w.d, w.c)
    ensures Near(w.h, g)
  {
    var e := w.d * w.c;
    NearByFactor(g, e, g * e);
  }

  lemma NearByFactor(g: real, e: real, h: real)
    requires g > 0.0 && Abs(e - 1.0) < EPS && h == g * e
    ensures Near(h, g)
  {
    hide Abs;
    assert h - g == (e - 1.0) * g;
    AbsProduct(e - 1.0, g, h - g);
    ScaleLess(Abs(e - 1.0), EPS, g);
  }

  lemma AbsProduct(u: real, g: real, p: real)
    requires g > 0.0 && p == u * g
    ensures Abs(p) == Abs(u) * g
  {
    if u >= 0.0 {
      ProductNonNegative(u, g);
    } else {
      ProductPositive(-u, g);
      assert (-u) * g == -(u * g);
    }
  }

  lemma {:induction false} LentzLoopClosed(a: int, x: real, i: nat, v: Lentz)
    requires 1 <= i <= a && i < LOOP_END && x >= a as real + 1.0
    requires v.c != 0.0 && v.h > 0.0 && AtRound(a, x, i, v)
    ensures var (n, h) := LentzLoop(a, i, v); i <= n && LentzResult(a, x, n, h)
    decreases LOOP_END - i
  {
    var w := LentzStep(a, i, v);
    LentzRoundKeeps(a, x, i, v);
    assert IsConvergent(a, x, i, v.h) && IsConvergent(a, x, i + 1, w.h);
    CoefficientsPositive(a, x, i - 1);
    if i == a {
      LastRoundStops(a, v);
      assert Stops(w);
    }
    assert w.h == Grow(v.h, w.d, w.c);
    hide LentzStep, AtRound, Beta, IsConvergent, Near, Grow, Stops;
    if Stops(w) {
      StopIsNear(v.h, w);
    } else if i + 1 < LOOP_END {
      LentzLoopClosed(a, x, i + 1, w);
    }
  }

  lemma LentzStarts(a: int, x: real)
    requires a >= 1 && x >= a as real + 1.0
    ensures LentzStart(a, x).h > 0.0 && AtRound(a, x, 1, LentzStart(a, x))
  {
    var b := x + 1.0 - a as real;
    assert b == Beta(a, x, 0);
    QuotientTimes(1.0, b);
    QuotientTimes(1.0, TINY);
    QuotientPositive(1.0, b);
    assert Den(a, x, 1) == b && Den(a, x, 0) == 1.0;
    assert Num(a, x, TINY, 1) == 1.0 && Num(a, x, TINY, 0) == TINY;
  }

  /** From x = a + 1 on the loop runs at most a rounds and ends with a convergent. */
  lemma FractionIsConvergent(a: int, x: real)
    requires a >= 1 && x >= a as real + 1.0
    ensures LentzResult(a, x, Fraction(a, x).0, Fraction(a, x).1)
  {
    LentzStarts(a, x);
    hide LentzStart, AtRound, LentzLoop;
    LentzLoopClosed(a, x, 1, LentzStart(a, x));
  }

  // ----- the convergents close in on the head of the series -----

  ghost predicate Within(lo: real, hi: real, n: real, d: real) { lo * d <= n <= hi * d }

  lemma Mediant(lo: real, hi: real, b: real, c: real, n0: real, n1: real, n2: real, d0: real, d1: real, d2: real)
    requires Within(lo, hi, n0, d0) && Within(lo, hi, n1, d1)
    requires b >= 0.0 && c >= 0.0 && ThreeTerm(b, c, n0, n1, n2) && ThreeTerm(b, c, d0, d1, d2)
    ensures Within(lo, hi, n2, d2)
  {
    ScaleAtMost(lo * d1, n1, b);
    ScaleAtMost(lo * d0, n0, c);
    ScaleAtMost(n1, hi * d1, b);
    ScaleAtMost(n0, hi * d0, c);
    assert lo * d2 == (lo * d1) * b + (lo * d0) * c;
    assert hi * d2 == (hi * d1) * b + (hi * d0) * c;
  }

  /** Two neighbouring convergents enclose every later one. */
  lemma {:induction false} LaterWithin(a: int, x: real, seed: real, n: nat, lo: real, hi: real, m: nat)
    requires a >= 1 && x >= a as real + 1.0 && n <= m <= a + 1 && n <= a
    requires Within(lo, hi, Num(a, x, seed, n), Den(a, x, n))
    requires Within(lo, hi, Num(a, x, seed, n + 1), Den(a, x, n + 1))
    ensures Within(lo, hi, Num(a, x, seed, m), Den(a, x, m))
    decreases m
  {
    if m > n + 1 {
      hide Num, Den, Within;
      LaterWithin(a, x, seed, n, lo, hi, m - 1);
      LaterWithin(a, x, seed, n, lo, hi, m - 2);
      ConvergentStep(a, x, seed, m - 1);
      CoefficientsPositive(a, x, m - 1);
      hide Alpha, Beta, ThreeTerm;
      Mediant(lo, hi, Beta(a, x, m - 1), Alpha(a, m - 1),
        Num(a, x, seed, m - 2), Num(a, x, seed, m - 1), Num(a, x, seed, m),
        Den(a, x, m - 2), Den(a, x, m - 1), Den(a, x, m));
    }
  }

  /** What the seed adds to a numerator. */
  function Seeded(a: int, x: real, seed: real, m: nat): real {
    WithSeed(seed, Beta(a, x, 0), Num(a, x, 0.0, m), Den(a, x, m))
  }

  function WithSeed(e: real, z: real, n: real, d: real): real { n + e * (d - z * n) }

  lemma SeededStep(a: int, x: real, seed: real, m: nat)
    requires m >= 1
    ensures ThreeTerm(Beta(a, x, m), Alpha(a, m), Seeded(a, x, seed, m - 1), Seeded(a, x, seed, m), Seeded(a, x, seed, m + 1))
  {
    hide Rec, Alpha, Beta;
    ConvergentStep(a, x, 0.0, m);
    SeedIdentity(seed, Beta(a, x, 0), Beta(a, x, m), Alpha(a, m),
      Num(a, x, 0.0, m - 1), Num(a, x, 0.0, m), Num(a, x, 0.0, m + 1),
      Den(a, x, m - 1), Den(a, x, m), Den(a, x, m + 1));
  }

  lemma SeedIdentity(e: real, z: real, b: real, c: real, n0: real, n1: real, n2: real, d0: real, d1: real, d2: real)
    requires ThreeTerm(b, c, n0, n1, n2) && ThreeTerm(b, c, d0, d1, d2)
    ensures ThreeTerm(b, c, WithSeed(e, z, n0, d0), WithSeed(e, z, n1, d1), WithSeed(e, z, n2, d2))
  {
    var y0, y1, y2 := d0 - z * n0, d1 - z * n1, d2 - z * n2;
    assert z * n2 == b * (z * n1) + c * (z * n0);
    assert y2 == b * y1 + c * y0;
    assert e * y2 == b * (e * y1) + c * (e * y0);
  }

  lemma ThreeTermUnique(b: real, c: real, u0: real, u1: real, u2: real, v2: real)
    requires ThreeTerm(b, c, u0, u1, u2) && ThreeTerm(b, c, u0, u1, v2)
    ensures u2 == v2
  {
  }

  lemma {:induction false} SeedSplit(a: int, x: real, seed: real, m: nat)
    ensures Num(a, x, seed, m) == Seeded(a, x, seed, m)
  {
    if m <= 1 {
      SeedSplitBase(a, x, seed);
    } else {
      hide Rec, Num, Seeded, Alpha, Beta;
      SeedSplit(a, x, seed, m - 1);
      SeedSplit(a, x, seed, m - 2);
      SeededStep(a, x, seed, m - 1);
      ConvergentStep(a, x, seed, m - 1);
      hide ThreeTerm;
      ThreeTermUnique(Beta(a, x, m - 1), Alpha(a, m - 1), Num(a, x, seed, m - 2), Num(a, x, seed, m - 1),
        Num(a, x, seed, m), Seeded(a, x, seed, m));
    }
  }

  lemma SeedSplitBase(a: int, x: real, seed: real)
    ensures Num(a, x, seed, 0) == Seeded(a, x, seed, 0) && Num(a, x, seed, 1) == Seeded(a, x, seed, 1)
  {
    var b := Beta(a, x, 0);
    assert Den(a, x, 0) == 1.0 && Den(a, x, 1) == b;
    assert Num(a, x, 0.0, 0) == 0.0 && Num(a, x, 0.0, 1) == 1.0;
    assert Num(a, x, seed, 0) == seed && Num(a, x, seed, 1) == 1.0;
    hide Rec, Beta;
    assert b * 1.0 == b && seed * (b - b * 1.0) == 0.0 && seed * (1.0 - b * 0.0) == seed;
  }

  const SLACK: real := TINY + EPS / 2.0

  /** With its seed the last numerator exceeds the head of the series by at most TINY times the denominator. */
  lemma LastNumerator(a: int, x: real)
    requires a >= 1 && x >= a as real + 1.0
    ensures var n, d := Num(a, x, TINY, a), Pow(x, a);
      Head(a, x) <= n <= Head(a, x) + TINY * d && 0.0 <= n <= 0.5 * d
  {
    var b, d, n := Beta(a, x, 0), Den(a, x, a), Num(a, x, 0.0, a);
    DenIsPower(a, x);
    NumIsHead(a, x);
    SeedSplit(a, x, TINY, a);
    StartsWithin(a, x);
    LaterWithin(a, x, TINY, 0, 0.0, 0.5, a);
    LaterWithin(a, x, 0.0, 0, 0.0, 1.0 / b, a);
    assert 0.0 <= Num(a, x, TINY, a) <= 0.5 * d;
    hide Rec, Beta, Pow, Head, Num, Den, Within, Takes, WithSeed;
    SeedGap(n, b, d, 1.0 / b, Num(a, x, TINY, a));
  }

  lemma SeedGap(n: real, b: real, d: real, r: real, s: real)
    requires Within(0.0, r, n, d) && b > 0.0 && Takes(r, b, 1.0) && s == WithSeed(TINY, b, n, d)
    ensures n <= s <= n + TINY * d
  {
    ScaleAtMost(n, r * d, b);
    assert (r * d) * b == (r * b) * d;
    ProductNonNegative(b, n);
    var gap := d - b * n;
    ScaleAtMost(0.0, gap, TINY);
    ScaleAtMost(gap, d, TINY);
  }

  lemma StartsWithin(a: int, x: real)
    requires a >= 1 && x >= a as real + 1.0
    ensures Beta(a, x, 0) >= 2.0 && Takes(1.0 / Beta(a, x, 0), Beta(a, x, 0), 1.0)
    ensures Within(0.0, 1.0 / Beta(a, x, 0), Num(a, x, 0.0, 0), Den(a, x, 0))
    ensures Within(0.0, 1.0 / Beta(a, x, 0), Num(a, x, 0.0, 1), Den(a, x, 1))
    ensures Within(0.0, 0.5, Num(a, x, TINY, 0), Den(a, x, 0)) && Within(0.0, 0.5, Num(a, x, TINY, 1), Den(a, x, 1))
  {
    var b := Beta(a, x, 0);
    QuotientTimes(1.0, b);
    QuotientPositive(1.0, b);
    assert Den(a, x, 0) == 1.0 && Den(a, x, 1) == b;
    assert Num(a, x, 0.0, 0) == 0.0 && Num(a, x, 0.0, 1) == 1.0;
    assert Num(a, x, TINY, 0) == TINY && Num(a, x, TINY, 1) == 1.0;
  }

  /** h is n / d up to e. */
  ghost predicate Approx(h: real, d: real, n: real, e: real) { Abs(h * d - n) <= e * d }

  lemma Half(a: int, x: real, m: nat, h: real)
    requires 1 <= a && x >= a as real + 1.0 && m <= a + 1 && IsConvergent(a, x, m, h)
    ensures h <= 0.5
  {
    var d, n := Den(a, x, m), Num(a, x, TINY, m);
    StartsWithin(a, x);
    LaterWithin(a, x, TINY, 0, 0.0, 0.5, m);
    DenPositive(a, x, m);
    hide Den, Num;
    CancelAtMost(h, 0.5, d);
  }

  /** After the round i = a the convergent is the last one. */
  lemma LastConvergent(a: int, x: real, h: real)
    requires 1 <= a && x >= a as real + 1.0 && IsConvergent(a, x, a + 1, h)
    ensures Takes(h, Den(a, x, a), Num(a, x, TINY, a))
  {
    var b, d, n := Beta(a, x, a), Den(a, x, a), Num(a, x, TINY, a);
    ConvergentStep(a, x, TINY, a);
    CoefficientsPositive(a, x, a);
    assert Alpha(a, a) == 0.0;
    hide Rec, Beta, Num, Den, Alpha;
    CancelFactor(h, b, d, n, Den(a, x, a - 1), Num(a, x, TINY, a - 1), Den(a, x, a + 1), Num(a, x, TINY, a + 1));
  }

  lemma CancelFactor(h: real, b: real, d: real, n: real, d0: real, n0: real, d2: real, n2: real)
    requires ThreeTerm(b, 0.0, d0, d, d2) && ThreeTerm(b, 0.0, n0, n, n2) && b > 0.0 && Takes(h, d2, n2)
    ensures Takes(h, d, n)
  {
    assert d2 == b * d && n2 == b * n;
    assert (h * d) * b == n * b;
    CancelAtMost(h * d, n, b);
    CancelAtMost(n, h * d, b);
  }

  lemma FractionSettles(a: int, x: real, n: int, h: real)
    requires 1 <= a < LOOP_END - 1 && x >= a as real + 1.0 && LentzResult(a, x, n, h)
    ensures Approx(h, Den(a, x, a), Num(a, x, TINY, a), EPS / 2.0)
  {
    var d, y := Den(a, x, a), Num(a, x, TINY, a);
    DenPositive(a, x, a);
    if n == a {
      LastConvergent(a, x, h);
      hide Den, Num;
      ProductNonNegative(EPS / 2.0, d);
    } else {
      var g :| g > 0.0 && IsConvergent(a, x, n, g) && Near(h, g);
      Half(a, x, n, g);
      var lo, hi := if g <= h then g else h, if g <= h then h else g;
      EnclosedBy(a, x, n, g, h, lo, hi);
      hide Num, Den, IsConvergent, Rec, Within, Near, Approx;
      SettledBetween(g, h, y, d, lo, hi);
    }
  }

  lemma EnclosedBy(a: int, x: real, n: nat, g: real, h: real, lo: real, hi: real)
    requires 1 <= n < a && x >= a as real + 1.0
    requires IsConvergent(a, x, n, g) && IsConvergent(a, x, n + 1, h) && lo <= g <= hi && lo <= h <= hi
    ensures Within(lo, hi, Num(a, x, TINY, a), Den(a, x, a))
  {
    DenPositive(a, x, n);
    DenPositive(a, x, n + 1);
    hide Num, Den, Takes, Within;
    WithinRatio(lo, hi, g, Den(a, x, n), Num(a, x, TINY, n));
    WithinRatio(lo, hi, h, Den(a, x, n + 1), Num(a, x, TINY, n + 1));
    LaterWithin(a, x, TINY, n, lo, hi, a);
  }

  lemma WithinRatio(lo: real, hi: real, g: real, d: real, n: real)
    requires lo <= g <= hi && d > 0.0 && Takes(g, d, n)
    ensures Within(lo, hi, n, d)
  {
    ScaleAtMost(lo, g, d);
    ScaleAtMost(g, hi, d);
  }

  lemma SettledBetween(g: real, h: real, y: real, d: real, lo: real, hi: real)
    requires 0.0 < g <= 0.5 && Near(h, g) && d > 0.0 && Within(lo, hi, y, d)
    requires lo == if g <= h then g else h
    requires hi == if g <= h then h else g
    ensures Approx(h, d, y, EPS / 2.0)
  {
    ScaleAtMost(g, 0.5, EPS);
    ApproxInside(h, d, y, lo, hi, EPS / 2.0);
  }

  lemma ApproxInside(h: real, d: real, y: real, lo: real, hi: real, e: real)
    requires lo <= h <= hi && hi - lo <= e && d > 0.0 && Within(lo, hi, y, d)
    ensures Approx(h, d, y, e)
  {
    WithinRatio(lo, hi, h, d, h * d);
    ScaleAtMost(hi - lo, e, d);
    assert (hi - lo) * d == hi * d - lo * d;
  }

  /**
   The continued fraction gives the head of the exponential series: for integer a
   and x >= a + 1 the loop ends within a rounds, and h times x^a/(a-1)! is the sum
   of the first a terms up to SLACK times x^a/(a-1)!.
   */
  lemma FractionIsHead(a: int, x: real)
    requires 1 <= a < LOOP_END - 1 && x >= a as real + 1.0
    ensures 1 <= Fraction(a, x).0 <= a && 0.0 < Fraction(a, x).1 <= 0.5
    ensures Approx(Fraction(a, x).1, Weight(a, x), Partial(x, a), SLACK)
  {
    hide Fraction, Approx, Partial, Pow, Num, Den, IsConvergent, Fact;
    var h := Fraction(a, x).1;
    FractionIsConvergent(a, x);
    Half(a, x, Fraction(a, x).0 + 1, h);
    FractionSettles(a, x, Fraction(a, x).0, h);
    LastNumerator(a, x);
    DenIsPower(a, x);
    assert Pow(x, a) > 0.0;
    ScaleDown(h, Pow(x, a), Fact(a - 1), Partial(x, a), Num(a, x, TINY, a), TINY, EPS / 2.0);
  }

  lemma ScaleDown(h: real, d: real, f: real, s: real, y: real, t: real, e: real)
    requires f >= 1.0 && f * s <= y <= f * s + t * d && t * d >= 0.0 && Approx(h, d, y, e)
    ensures Approx(h, d / f, s, t + e)
  {
    var w := d / f;
    QuotientTimes(d, f);
    assert h * d == (h * w) * f;
    assert (t + e) * d == ((t + e) * w) * f;
    assert (t + e) * d == t * d + e * d;
    AbsCancel(h * w - s, (t + e) * w, f, h * d - f * s, (t + e) * d);
  }

  lemma AbsCancel(z: real, k: real, f: real, zf: real, kf: real)
    requires f > 0.0 && z * f == zf && k * f == kf && Abs(zf) <= kf
    ensures Abs(z) <= k
  {
    CancelAtMost(z, k, f);
    assert (-z) * f == -zf;
    CancelAtMost(-z, k, f);
  }

  // ----- what the function returns -----

  function SumBelow(e: real, w: real, s: real): real { s * (e * w) }

  function SumAbove(e: real, w: real, h: real): real { 1.0 - (e * w) * h }

  lemma PBelow(f: Elementary, a: int, x: real)
    requires f.Lawful() && a >= 1 && 0.0 < x < a as real + 1.0
    ensures P(f, a, x) == SumBelow(f.Exp(-x), Weight(a, x), Series(a, x).1)
  {
    hide Series, Weight, Fraction;
    PrefactorIsWeight(f, a, x);
  }

  lemma PAbove(f: Elementary, a: int, x: real)
    requires f.Lawful() && a >= 1 && x >= a as real + 1.0
    ensures P(f, a, x) == SumAbove(f.Exp(-x), Weight(a, x), Fraction(a, x).1)
  {
    hide Series, Weight, Fraction;
    PrefactorIsWeight(f, a, x);
  }

  lemma ExpPositive(f: Elementary, u: real)
    requires f.Lawful()
    ensures f.Exp(u) > 0.0
  {
  }

  /** The slice of the series that the loop sums. */
  function Slice(a: int, x: real): real
    requires a >= 1
  {
    Partial(x, a + Series(a, x).0 + 1) - Partial(x, a)
  }

  /** Below a + 1 the result is exp(-x) times a slice of the series that starts at term a. */
  lemma SeriesIsSlice(f: Elementary, a: int, x: real)
    requires f.Lawful() && a >= 1 && 0.0 < x < a as real + 1.0
    ensures P(f, a, x) == f.Exp(-x) * Slice(a, x)
  {
    hide Series, Weight, Partial, P;
    SeriesClosed(a, x);
    PBelow(f, a, x);
    Reassociate(Series(a, x).1, f.Exp(-x), Weight(a, x), Slice(a, x));
  }

  lemma Reassociate(s: real, e: real, w: real, slice: real)
    requires s * w == slice
    ensures SumBelow(e, w, s) == e * slice
  {
  }

  /** A sum exceeds the slice by at most EPS (a + 1) times the slice. */
  ghost predicate BarelyExceeds(sum: real, slice: real, c: real) { sum - slice <= EPS * c * slice }

  lemma SliceEnds(a: int, x: real)
    requires 1 <= a < LOOP_END - 52 && 0.0 < x < a as real + 1.0
    ensures 1 <= Series(a, x).0 <= a + 51 && Slice(a, x) > 0.0
    ensures 0.0 < Term(x, a + Series(a, x).0) && Insignificant(Term(x, a + Series(a, x).0), Slice(a, x))
  {
    hide Series, Weight, Partial, Term;
    var (n, s) := Series(a, x);
    SeriesClosed(a, x);
    SeriesStops(a, x);
    TermPositive(x, a + n);
    SliceAboveTerm(Slice(a, x), Term(x, a + n));
  }

  /** All that the truncated series leaves out is negligible beside what it keeps. */
  lemma SliceIsLong(a: int, x: real, m: nat)
    requires 1 <= a < LOOP_END - 52 && 0.0 < x < a as real + 1.0
    ensures BarelyExceeds(Partial(x, m) - Partial(x, a), Slice(a, x), a as real + 1.0)
  {
    hide *;
    var n := Series(a, x).0;
    var sum, slice := Partial(x, m) - Partial(x, a), Slice(a, x);
    SliceEnds(a, x);
    SliceRest(a, x, m);
    if m > a + n {
      TailBound(x, a + n, m);
      TermPositive(x, m - 1);
      TailNegligible(sum, slice, (a + n + 1) as real, Term(x, a + n), Term(x, m - 1), x, a as real + 1.0);
    } else {
      ShortSum(sum, slice, a as real + 1.0);
    }
  }

  lemma SliceRest(a: int, x: real, m: nat)
    requires a >= 1 && x > 0.0
    ensures var n, sum := Series(a, x).0, Partial(x, m) - Partial(x, a);
      && sum - Slice(a, x) == Partial(x, m) - Partial(x, a + n + 1)
      && (m > a + n ==> sum >= Slice(a, x)) && (m <= a + n ==> sum <= Slice(a, x))
  {
    hide Partial, Series;
    var n := Series(a, x).0;
    if m > a + n {
      PartialGrows(x, a + n + 1, m);
    } else {
      PartialGrows(x, m, a + n + 1);
    }
  }

  lemma ShortSum(sum: real, slice: real, c: real)
    requires sum <= slice && c > 0.0 && slice > 0.0
    ensures BarelyExceeds(sum, slice, c)
  {
    ProductPositive(c, slice);
    assert EPS * c * slice == EPS * (c * slice);
  }

  lemma SliceAboveTerm(slice: real, t: real)
    requires 0.0 < t && Insignificant(t, slice)
    ensures slice > 0.0
  {
  }

  lemma TailNegligible(sum: real, slice: real, n: real, t: real, u: real, x: real, c: real)
    requires sum >= slice > 0.0 && n >= c + 1.0 && u > 0.0 && 0.0 < x < c && Insignificant(t, slice)
    requires Telescopes(sum - slice, n, t, u, x)
    ensures BarelyExceeds(sum, slice, c)
  {
    var tail := sum - slice;
    ScaleAtMost(1.0, n - x, tail);
    ScaleAtMost(t - u, EPS * slice, x);
    ScaleAtMost(x, c, EPS * slice);
    assert c * (EPS * slice) == EPS * c * slice;
  }

  /** r is 1 - e p up to SLACK e w. */
  ghost predicate Comes(r: real, e: real, p: real, w: real) {
    Abs(r - (1.0 - e * p)) <= SLACK * (e * w)
  }

  /** From a + 1 on the result is one minus exp(-x) times the first a terms, up to SLACK. */
  lemma FractionAccurate(f: Elementary, a: int, x: real)
    requires f.Lawful() && 1 <= a < LOOP_END - 1 && x >= a as real + 1.0
    ensures P(f, a, x) < 1.0 && Comes(P(f, a, x), f.Exp(-x), Partial(x, a), Weight(a, x))
  {
    assert Weight(a, x) > 0.0;
    hide Fraction, Weight, Partial, P, Approx, SumAbove, Comes;
    ExpPositive(f, -x);
    FractionIsHead(a, x);
    PAbove(f, a, x);
    ErrorScaled(Fraction(a, x).1, f.Exp(-x), Weight(a, x), Partial(x, a), P(f, a, x));
  }

  lemma ErrorScaled(h: real, e: real, w: real, p: real, r: real)
    requires h > 0.0 && e > 0.0 && w > 0.0 && Approx(h, w, p, SLACK) && r == SumAbove(e, w, h)
    ensures r < 1.0 && Comes(r, e, p, w)
  {
    ProductPositive(e, w);
    ProductPositive(e * w, h);
    var y := h * w - p;
    assert r - (1.0 - e * p) == -(y * e);
    ScaleAtMost(y, SLACK * w, e);
    ScaleAtMost(-(SLACK * w), y, e);
    assert (SLACK * w) * e == SLACK * (e * w);
  }

  /** The documented range: the value is a probability. */
  lemma PIsProbability(f: Elementary, a: int, x: real)
    requires f.Lawful() && a < LOOP_END - 52
    ensures 0.0 <= P(f, a, x) <= 1.0
  {
    if 0.0 < x && 0 < a {
      if x < a as real + 1.0 {
        SeriesInRange(f, a, x);
      } else {
        FractionInRange(f, a, x);
      }
    }
  }

  lemma SeriesInRange(f: Elementary, a: int, x: real)
    requires f.Lawful() && 1 <= a && 0.0 < x < a as real + 1.0
    ensures 0.0 <= P(f, a, x) <= 1.0
  {
    hide P, Partial, Series;
    ExpPositive(f, -x);
    SeriesIsSlice(f, a, x);
    SeriesClosed(a, x);
    var n := Series(a, x).0;
    PartialGrows(x, a, a + n + 1);
    PartialGrows(x, 0, a);
    PartialEmpty(x);
    Dominated(f, x, a + n + 1);
    SliceBound(f.Exp(-x), Partial(x, a), Partial(x, a + n + 1));
  }

  lemma Dominated(f: Elementary, x: real, n: nat)
    requires f.Lawful() && x >= 0.0
    ensures ProductAtMostOne(f.Exp(-x), Partial(x, n))
  {
    hide Partial;
    assert f.Dominates(x, n);
  }

  ghost predicate ProductAtMostOne(e: real, q: real) { e * q <= 1.0 }

  lemma PartialStep(x: real, n: nat)
    ensures Partial(x, n + 1) == Partial(x, n) + Term(x, n)
  {
    hide Term;
  }

  lemma PartialEmpty(x: real)
    ensures Partial(x, 0) == 0.0
  {
  }

  lemma SliceBound(e: real, p: real, q: real)
    requires e > 0.0 && 0.0 <= p <= q && ProductAtMostOne(e, q)
    ensures 0.0 <= e * (q - p) <= 1.0
  {
    ProductNonNegative(e, q - p);
    ProductNonNegative(e, p);
    assert e * (q - p) == e * q - e * p;
  }

  lemma FractionInRange(f: Elementary, a: int, x: real)
    requires f.Lawful() && 1 <= a < LOOP_END - 1 && x >= a as real + 1.0
    ensures 0.0 <= P(f, a, x) <= 1.0
  {
    hide *;
    PartialStep(x, a);
    FractionAccurate(f, a, x);
    WeightBound(a, x);
    ExpPositive(f, -x);
    Dominated(f, x, a + 1);
    HeadBound(f.Exp(-x), Partial(x, a), Term(x, a), Partial(x, a + 1), Weight(a, x), P(f, a, x));
  }

  lemma HeadBound(e: real, p: real, t: real, q: real, w: real, r: real)
    requires e > 0.0 && q == p + t && ProductAtMostOne(e, q) && SLACK * w <= t
    requires Comes(r, e, p, w)
    ensures r >= 0.0
  {
    ScaleAtMost(SLACK * w, t, e);
    assert e * (p + t) == e * p + t * e && (SLACK * w) * e == SLACK * (e * w);
  }

  lemma WeightBound(a: int, x: real)
    requires 1 <= a < LOOP_END && x > 0.0
    ensures SLACK * Weight(a, x) <= Term(x, a)
  {
    SeriesStart(a, x);
    assert Weight(a, x) > 0.0;
    SlackBelowReciprocal(a as real);
    hide Weight, Term, Pow;
    ScaleAtMost(SLACK, 1.0 / a as real, Weight(a, x));
  }

  lemma SlackBelowReciprocal(r: real)
    requires 1.0 <= r <= LOOP_END as real
    ensures SLACK <= 1.0 / r
  {
    ScaleAtMost(r, 200.0, SLACK);
    QuotientAtLeast(1.0, r, SLACK);
  }
}
