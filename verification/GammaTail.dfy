/**
 Both branches of the incomplete gamma function against one reference: the tail
 1 - exp(-x) (1 + x + ... + x^(a-1)/(a-1)!), and that this tail rises with x.
 */
module GammaTail {
  import opened RealFacts
  import opened IncompleteGamma

  /** exp(x) is below every bound of the partial sums of its series. */
  ghost predicate LeastBound(f: Elementary, x: real, c: real) {
    x >= 0.0 && (forall n: nat :: Partial(x, n) <= c) ==> f.Exp(x) <= c
  }

  /** With Lawful: exp(x) is the least upper bound of its partial sums for x >= 0. */
  ghost predicate Complete(f: Elementary) {
    forall x: real, c: real :: LeastBound(f, x, c)
  }

  function Scale(u: real, v: real): real {
    u * v
  }

  /** The reference: the chance that a Poisson variable of mean x stays below a. */
  function Below(f: Elementary, a: nat, x: real): real {
    Scale(f.Exp(-x), Partial(x, a))
  }

  /** The error allowed: 1e-15 times a + 1. */
  function Slip(a: int): real {
    (a as real + 1.0) / 1000000000000000.0
  }

  ghost predicate Close(r: real, s: real, e: real) {
    s - e <= r <= s + e
  }

  lemma ExpInverse(f: Elementary, x: real)
    requires f.Lawful()
    ensures f.Exp(-x) * f.Exp(x) == 1.0
  {
    assert f.Adds(-x, x);
    assert -x + x == 0.0;
  }

  // ----- the series branch -----

  lemma PartialBounded(a: int, x: real, m: nat)
    requires 1 <= a < LOOP_END - 52 && 0.0 < x < a as real + 1.0
    ensures Partial(x, m) <= Partial(x, a) + Slice(a, x) + Scale(Slip(a), Slice(a, x))
  {
    hide Partial, Slice;
    SliceIsLong(a, x, m);
    SlipIs(a);
    assert EPS * (a as real + 1.0) * Slice(a, x) == (EPS * (a as real + 1.0)) * Slice(a, x);
  }

  lemma SeriesIsTail(f: Elementary, a: int, x: real)
    requires f.Lawful() && Complete(f) && 1 <= a < LOOP_END - 52 && 0.0 < x < a as real + 1.0
    ensures Close(P(f, a, x), 1.0 - Below(f, a, x), Slip(a))
  {
    hide *;
    var p, slice := Partial(x, a), Slice(a, x);
    var c := p + slice + Scale(Slip(a), slice);
    forall m: nat ensures Partial(x, m) <= c {
      PartialBounded(a, x, m);
    }
    ExpAtMost(f, x, c);
    ExpInverse(f, x);
    ExpPositive(f, -x);
    SeriesIsSlice(f, a, x);
    PIsProbability(f, a, x);
    SliceSum(a, x);
    Dominated(f, x, a + Series(a, x).0 + 1);
    BelowIs(f, a, x);
    SlipPositive(a);
    TailArithmetic(f.Exp(-x), f.Exp(x), p, slice, Partial(x, a + Series(a, x).0 + 1), Slip(a), P(f, a, x), Below(f, a, x));
  }

  lemma ExpAtMost(f: Elementary, x: real, c: real)
    requires Complete(f) && x >= 0.0 && forall n: nat :: Partial(x, n) <= c
    ensures f.Exp(x) <= c
  {
    assert LeastBound(f, x, c);
  }

  lemma SliceSum(a: int, x: real)
    requires a >= 1
    ensures Partial(x, a + Series(a, x).0 + 1) == Partial(x, a) + Slice(a, x)
  {
    hide Partial, Series;
  }

  lemma BelowIs(f: Elementary, a: nat, x: real)
    ensures Below(f, a, x) == f.Exp(-x) * Partial(x, a)
  {
    hide Partial;
  }

  lemma SlipPositive(a: int)
    requires a >= 1
    ensures Slip(a) >= 0.0
  {
  }

  lemma TailArithmetic(e: real, g: real, p: real, slice: real, q: real, slip: real, r: real, b: real)
    requires b == e * p && e > 0.0 && e * g == 1.0 && g <= p + slice + Scale(slip, slice) && q == p + slice
    requires r == e * slice && 0.0 <= r <= 1.0 && ProductAtMostOne(e, q) && slip >= 0.0
    ensures Close(r, 1.0 - b, slip)
  {
    var k := Scale(slip, slice);
    ScaleAtMost(g, p + slice + k, e);
    assert 1.0 <= b + r + e * k && b + r == e * q by {
      Distributes(e, p, slice, k);
    }
    assert e * k == slip * r;
    ScaleAtMost(r, 1.0, slip);
    hide Scale;
    assert b + r <= 1.0 && 1.0 <= b + r + slip;
  }

  lemma Distributes(e: real, p: real, s: real, k: real)
    ensures (p + s + k) * e == e * p + e * s + e * k
    ensures e * (p + s) == e * p + e * s
  {
  }

  // ----- the continued fraction -----

  lemma FractionIsTail(f: Elementary, a: int, x: real)
    requires f.Lawful() && 1 <= a < LOOP_END - 1 && x >= a as real + 1.0
    ensures Close(P(f, a, x), 1.0 - Below(f, a, x), Slip(a))
  {
    hide *;
    FractionAccurate(f, a, x);
    BelowIs(f, a, x);
    ExpPositive(f, -x);
    WeightIsTerms(a, x);
    PartialStep(x, a);
    PartialNonNegative(x, a);
    Dominated(f, x, a + 1);
    SlipIs(a);
    SlackArithmetic(f.Exp(-x), Partial(x, a), Term(x, a), Weight(a, x), a as real, P(f, a, x), Below(f, a, x), Slip(a));
  }

  lemma SlipIs(a: int)
    ensures Slip(a) == EPS * (a as real + 1.0)
  {
    assert EPS == 1.0 / 1000000000000000.0;
  }

  lemma WeightIsTerms(a: int, x: real)
    requires a >= 1 && x > 0.0
    ensures Weight(a, x) == a as real * Term(x, a) && Term(x, a) > 0.0
  {
    SeriesStart(a, x);
    TermPositive(x, a);
    hide Weight, Term;
    var r := a as real;
    assert (1.0 / r) * Weight(a, x) == Term(x, a);
    assert r * ((1.0 / r) * Weight(a, x)) == Weight(a, x);
  }

  lemma PartialNonNegative(x: real, n: nat)
    requires x > 0.0
    ensures Partial(x, n) >= 0.0
  {
    hide Partial;
    PartialGrows(x, 0, n);
    PartialEmpty(x);
  }

  lemma SlackArithmetic(e: real, p: real, t: real, w: real, a: real, r: real, b: real, slip: real)
    requires b == e * p && slip == EPS * (a + 1.0)
    requires e > 0.0 && p >= 0.0 && t > 0.0 && a >= 1.0 && w == a * t && ProductAtMostOne(e, p + t) && Comes(r, e, p, w)
    ensures Close(r, 1.0 - b, slip)
  {
    ProductNonNegative(e, p);
    assert e * (p + t) == e * p + e * t;
    ProductPositive(e, t);
    assert e * w == a * (e * t);
    ScaleAtMost(e * t, 1.0, a);
    ScaleAtMost(e * w, a, SLACK);
    ScaleAtMost(SLACK, EPS, a);
  }

  // ----- at zero -----

  lemma {:induction false} PartialAtZero(n: nat)
    requires n >= 1
    ensures Partial(0.0, n) == 1.0
  {
    if n > 1 {
      PartialAtZero(n - 1);
      PowZero(n - 1);
    }
  }

  lemma PowZero(n: nat)
    requires n >= 1
    ensures Pow(0.0, n) == 0.0
  {
  }

  /**
   Whichever branch runs, the value is the tail of the exponential series up to
   1e-15 (a + 1): one reference for the series, the continued fraction and zero.
   */
  lemma GammaIsTail(f: Elementary, a: int, x: real)
    requires f.Lawful() && Complete(f) && 1 <= a <= 147 && x >= 0.0
    ensures Close(P(f, a, x), 1.0 - Below(f, a, x), (a as real + 1.0) / 1000000000000000.0)
  {
    assert Slip(a) == (a as real + 1.0) / 1000000000000000.0;
    hide Complete, Below, Slip, Partial, Series, Fraction, Lower, Upper;
    if x == 0.0 {
      PartialAtZero(a);
      BelowIs(f, a, x);
      assert -x == 0.0 && f.Exp(-x) == 1.0;
      SlipPositive(a);
    } else if x < a as real + 1.0 {
      SeriesIsTail(f, a, x);
    } else {
      FractionIsTail(f, a, x);
    }
  }

  /** At the shapes that a score uses the error is at most 16e-15. */
  lemma GammaAccurate(f: Elementary, a: int, x: real)
    requires f.Lawful() && Complete(f) && 1 <= a <= 15 && x >= 0.0
    ensures Abs(P(f, a, x) - (1.0 - f.Exp(-x) * Partial(x, a))) <= 0.000000000000016
  {
    hide *;
    GammaIsTail(f, a, x);
    BelowIs(f, a, x);
    assert (a as real + 1.0) / 1000000000000000.0 <= 0.000000000000016;
    Within(P(f, a, x), 1.0 - Below(f, a, x), (a as real + 1.0) / 1000000000000000.0, 0.000000000000016);
  }

  lemma Within(r: real, s: real, d: real, e: real)
    requires Close(r, s, d) && d <= e
    ensures Abs(r - s) <= e
  {
  }

  // ----- the tail rises -----

  function Product(x: real, i: nat, h: real, j: nat): real {
    Term(x, i) * Term(h, j)
  }

  /** The first k terms of the binomial sum of degree n. */
  function Binomial(x: real, h: real, n: nat, k: nat): real
    requires k <= n + 1
  {
    if k == 0 then 0.0 else Binomial(x, h, n, k - 1) + Product(x, k - 1, h, n - k + 1)
  }

  lemma TermDown(x: real, j: nat)
    requires j >= 1
    ensures j as real * Term(x, j) == x * Term(x, j - 1)
  {
    TermStep(x, j - 1);
    var t, r := Term(x, j - 1), j as real;
    hide Term;
    assert r * (t * (x / r)) == x * t;
  }

  ghost predicate Splits(r: real, s: real, x: real, u: real, h: real, v: real) {
    r * s == x * u + h * v
  }

  /** One summand of n times the binomial sum, taken apart. */
  lemma ProductDown(x: real, h: real, n: nat, k: nat)
    requires 1 <= k < n
    ensures Splits(n as real, Product(x, k, h, n - k), x, Product(x, k - 1, h, n - k), h, Product(x, k, h, n - k - 1))
  {
    TermDown(x, k);
    TermDown(h, n - k);
    var (t, t', u, u') := (Term(x, k), Term(x, k - 1), Term(h, n - k), Term(h, n - k - 1));
    assert n as real == k as real + (n - k) as real;
    hide Term;
    TakenApart(n as real, k as real, (n - k) as real, x, h, t, t', u, u');
  }

  lemma TakenApart(n: real, k: real, m: real, x: real, h: real, t: real, t': real, u: real, u': real)
    requires n == k + m && k * t == x * t' && m * u == h * u'
    ensures Splits(n, t * u, x, t' * u, h, t * u')
  {
    assert n * (t * u) == (k * t) * u + t * (m * u);
    assert (x * t') * u == x * (t' * u) && t * (h * u') == h * (t * u');
  }

  lemma {:induction false} BinomialDown(x: real, h: real, n: nat, k: nat)
    requires 1 <= k <= n
    ensures Splits(n as real, Binomial(x, h, n, k), x, Binomial(x, h, n - 1, k - 1), h, Binomial(x, h, n - 1, k))
  {
    hide *;
    var r := n as real;
    if k == 1 {
      FirstColumn(x, h, n);
    } else {
      BinomialDown(x, h, n, k - 1);
      ProductDown(x, h, n, k - 1);
      BinomialStep(x, h, n, k);
      BinomialStep(x, h, n - 1, k - 1);
      BinomialStep(x, h, n - 1, k);
      Added(r, x, h, Binomial(x, h, n, k - 1), Binomial(x, h, n - 1, k - 2), Binomial(x, h, n - 1, k - 1),
            Product(x, k - 1, h, n - k + 1), Product(x, k - 2, h, n - k + 1), Product(x, k - 1, h, n - k));
    }
  }

  lemma BinomialStep(x: real, h: real, n: nat, k: nat)
    requires 1 <= k <= n + 1
    ensures Binomial(x, h, n, k) == Binomial(x, h, n, k - 1) + Product(x, k - 1, h, n - k + 1)
  {
    hide Product;
  }

  lemma ProductOne(x: real, h: real, j: nat)
    ensures Product(x, 0, h, j) == Term(h, j)
  {
    TermZero(x);
    hide Term;
  }

  lemma FirstColumn(x: real, h: real, n: nat)
    requires n >= 1
    ensures Splits(n as real, Binomial(x, h, n, 1), x, Binomial(x, h, n - 1, 0), h, Binomial(x, h, n - 1, 1))
  {
    TermDown(h, n);
    ProductOne(x, h, n);
    ProductOne(x, h, n - 1);
    BinomialStep(x, h, n, 1);
    BinomialStep(x, h, n - 1, 1);
    hide Term, Product;
    assert Binomial(x, h, n, 0) == 0.0 && Binomial(x, h, n - 1, 0) == 0.0;
  }

  lemma TermZero(x: real)
    ensures Term(x, 0) == 1.0
  {
  }

  lemma Added(r: real, x: real, h: real, s: real, s': real, s'': real, p: real, p': real, p'': real)
    requires Splits(r, s, x, s', h, s'') && Splits(r, p, x, p', h, p'')
    ensures Splits(r, s + p, x, s' + p', h, s'' + p'')
  {
  }

  lemma BinomialNone(x: real, h: real, n: nat)
    requires n == 0
    ensures Binomial(x, h, n, n + 1) == Term(x + h, n)
  {
    TermZero(x);
    TermZero(h);
    TermZero(x + h);
  }

  /** The binomial theorem, for terms of the exponential series. */
  lemma {:induction false} BinomialTheorem(x: real, h: real, n: nat)
    ensures Binomial(x, h, n, n + 1) == Term(x + h, n)
  {
    hide *;
    if n == 0 {
      BinomialNone(x, h, n);
    } else {
      BinomialTheorem(x, h, n - 1);
      BinomialDown(x, h, n, n);
      LastSummand(x, h, n);
      SumDown(x, h, n);
      BinomialStep(x, h, n, n + 1);
      BinomialStep(x, h, n - 1, n);
      CancelFirst(n as real, Binomial(x, h, n, n), Product(x, n, h, 0), x, h, Binomial(x, h, n - 1, n - 1),
                  Product(x, n - 1, h, 0), Binomial(x, h, n - 1, n), Term(x + h, n));
    }
  }

  lemma SumDown(x: real, h: real, n: nat)
    requires n >= 1
    ensures var t := Term(x + h, n - 1); Splits(n as real, Term(x + h, n), x, t, h, t)
  {
    TermDown(x + h, n);
    hide Term;
    var t := Term(x + h, n - 1);
    assert (x + h) * t == x * t + h * t;
  }

  lemma LastSummand(x: real, h: real, n: nat)
    requires n >= 1
    ensures Splits(n as real, Product(x, n, h, 0), x, Product(x, n - 1, h, 0), h, 0.0)
  {
    TermDown(x, n);
    TermZero(h);
    hide Term;
  }

  lemma CancelFirst(r: real, s: real, last: real, x: real, h: real, s': real, p': real, b: real, t: real)
    requires r >= 1.0 && Splits(r, s, x, s', h, b) && Splits(r, last, x, p', h, 0.0) && b == s' + p' && Splits(r, t, x, b, h, b)
    ensures s + last == t
  {
    assert r * (s + last) == x * (s' + p') + h * b;
    assert r * (s + last - t) == 0.0;
  }

  /** The first k columns of the triangle of products below degree n. */
  function Triangle(x: real, h: real, n: nat, k: nat): real
    requires k <= n
  {
    if k == 0 then 0.0 else Triangle(x, h, n, k - 1) + Scale(Term(x, k - 1), Partial(h, n - k + 1))
  }

  lemma {:induction false} TriangleStep(x: real, h: real, n: nat, k: nat)
    requires k <= n
    ensures Triangle(x, h, n + 1, k) == Triangle(x, h, n, k) + Binomial(x, h, n, k)
  {
    if k > 0 {
      TriangleStep(x, h, n, k - 1);
      PartialStep(h, n - k + 1);
      BinomialStep(x, h, n, k);
      hide Term, Partial, Binomial;
      ColumnGrows(x, k - 1, h, n - k + 1);
    }
  }

  lemma ColumnGrows(x: real, i: nat, h: real, j: nat)
    ensures Scale(Term(x, i), Partial(h, j + 1)) == Scale(Term(x, i), Partial(h, j)) + Product(x, i, h, j)
  {
    PartialStep(h, j);
    hide Term, Partial;
    var (t, p, u) := (Term(x, i), Partial(h, j), Term(h, j));
    assert t * (p + u) == t * p + t * u;
  }

  lemma {:induction false} PartialIsTriangle(x: real, h: real, n: nat)
    ensures Partial(x + h, n) == Triangle(x, h, n, n)
  {
    if n > 0 {
      PartialIsTriangle(x, h, n - 1);
      TriangleStep(x, h, n - 1, n - 1);
      BinomialTheorem(x, h, n - 1);
      PartialStep(x + h, n - 1);
      TermZero(h);
      LastColumn(x, h, n);
      hide Term, Partial, Product, Scale;
    }
  }

  lemma LastColumn(x: real, h: real, n: nat)
    requires n >= 1
    ensures Scale(Term(x, n - 1), Partial(h, 1)) == Product(x, n - 1, h, 0)
  {
    PartialStep(h, 0);
    PartialEmpty(h);
    hide Term;
  }

  lemma {:induction false} TriangleBound(x: real, h: real, n: nat, k: nat)
    requires x > 0.0 && h > 0.0 && k <= n
    ensures Triangle(x, h, n, k) <= Scale(Partial(x, k), Partial(h, n))
  {
    if k == 0 {
      PartialEmpty(x);
    } else {
      TriangleBound(x, h, n, k - 1);
      PartialStep(x, k - 1);
      TermPositive(x, k - 1);
      PartialGrows(h, n - k + 1, n);
      hide Term, Partial;
      ColumnBound(Partial(x, k - 1), Term(x, k - 1), Partial(h, n - k + 1), Partial(h, n));
    }
  }

  lemma ColumnBound(p: real, t: real, u: real, v: real)
    requires t >= 0.0 && u <= v
    ensures Scale(p, v) + Scale(t, u) <= Scale(p + t, v)
  {
    ScaleAtMost(u, v, t);
    assert (p + t) * v == p * v + t * v;
  }

  /** The reference tail rises with x. */
  lemma BelowFalls(f: Elementary, a: nat, x: real, y: real)
    requires f.Lawful() && 0.0 < x <= y
    ensures Below(f, a, y) <= Below(f, a, x)
  {
    if x < y {
      hide *;
      var h := y - x;
      PartialIsTriangle(x, h, a);
      assert x + h == y;
      TriangleBound(x, h, a, a);
      Dominated(f, h, a);
      ExpSplit(f, x, h);
      ExpPositive(f, -x);
      ExpPositive(f, -h);
      PartialNonNegative(x, a);
      BelowIs(f, a, x);
      BelowIs(f, a, y);
      FallArithmetic(f.Exp(-x), f.Exp(-h), f.Exp(-y), Partial(x, a), Partial(h, a), Partial(y, a));
    }
  }

  lemma ExpSplit(f: Elementary, x: real, h: real)
    requires f.Lawful()
    ensures f.Exp(-(x + h)) == f.Exp(-x) * f.Exp(-h)
  {
    assert f.Adds(-x, -h);
    assert -x + -h == -(x + h);
  }

  lemma FallArithmetic(e: real, g: real, eg: real, p: real, q: real, r: real)
    requires e > 0.0 && g > 0.0 && eg == e * g && p >= 0.0 && ProductAtMostOne(g, q) && r <= Scale(p, q)
    ensures eg * r <= e * p
  {
    ProductPositive(e, g);
    ScaleAtMost(r, p * q, e * g);
    ProductNonNegative(e, p);
    ScaleAtMost(g * q, 1.0, e * p);
    assert (p * q) * (e * g) == (g * q) * (e * p);
  }

  /** The computed value rises with x, up to twice its error. */
  lemma NearlyRises(f: Elementary, a: int, x: real, y: real)
    requires f.Lawful() && Complete(f) && 1 <= a <= 147 && x <= y
    ensures P(f, a, x) <= P(f, a, y) + 2.0 * ((a as real + 1.0) / 1000000000000000.0)
  {
    SlipPositive(a);
    assert Slip(a) == (a as real + 1.0) / 1000000000000000.0;
    if x <= 0.0 {
      PIsProbability(f, a, y);
    } else {
      hide *;
      GammaIsTail(f, a, x);
      GammaIsTail(f, a, y);
      BelowFalls(f, a, x, y);
      CloseOrder(P(f, a, x), 1.0 - Below(f, a, x), P(f, a, y), 1.0 - Below(f, a, y), Slip(a));
    }
  }

  lemma CloseOrder(r: real, s: real, r': real, s': real, e: real)
    requires Close(r, s, e) && Close(r', s', e) && s <= s'
    ensures r <= r' + 2.0 * e
  {
  }
}
