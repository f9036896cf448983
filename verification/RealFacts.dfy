/** Order facts about products and quotients of reals, one step each. */
module RealFacts {

  lemma ProductPositive(u: real, v: real)
    requires u > 0.0 && v > 0.0
    ensures u * v > 0.0
  {
  }

  lemma ProductNonNegative(u: real, v: real)
    requires u >= 0.0 && v >= 0.0
    ensures u * v >= 0.0
  {
    if u > 0.0 && v > 0.0 {
      ProductPositive(u, v);
    } else if u == 0.0 {
      assert u * v == 0.0;
    } else {
      assert u * v == 0.0;
    }
  }

  lemma ScaleAtMost(u: real, v: real, w: real)
    requires u <= v && w >= 0.0
    ensures u * w <= v * w
  {
    ProductNonNegative(v - u, w);
    assert (v - u) * w == v * w - u * w;
  }

  lemma ScaleLess(u: real, v: real, w: real)
    requires u < v && w > 0.0
    ensures u * w < v * w
  {
    ProductPositive(v - u, w);
    assert (v - u) * w == v * w - u * w;
  }

  lemma ProductAtMost(u: real, d: real, q: real, c: real)
    requires u <= d && d >= 0.0 && 0.0 <= q <= c
    ensures u * q <= d * c
  {
    ScaleAtMost(u, d, q);
    ScaleAtMost(q, c, d);
  }

  lemma CancelAtMost(u: real, v: real, w: real)
    requires u * w <= v * w && w > 0.0
    ensures u <= v
  {
    if u > v {
      ScaleLess(v, u, w);
    }
  }

  lemma QuotientTimes(u: real, v: real)
    requires v != 0.0
    ensures (u / v) * v == u
  {
  }

  lemma QuotientAtMost(u: real, v: real, c: real)
    requires v > 0.0 && u <= c * v
    ensures u / v <= c
  {
    QuotientTimes(u, v);
    CancelAtMost(u / v, c, v);
  }

  lemma QuotientAtLeast(u: real, v: real, c: real)
    requires v > 0.0 && u >= c * v
    ensures u / v >= c
  {
    QuotientTimes(u, v);
    CancelAtMost(c, u / v, v);
  }

  lemma QuotientPositive(u: real, v: real)
    requires u > 0.0 && v > 0.0
    ensures u / v > 0.0
  {
    QuotientTimes(u, v);
    if u / v <= 0.0 {
      ScaleAtMost(u / v, 0.0, v);
    }
  }

  lemma QuotientOfProducts(x: real, p: real, n: real, f: real)
    requires n > 0.0 && f > 0.0
    ensures n * f > 0.0 && (x * p) / (n * f) == (p / f) * (x / n)
  {
    var u, v := p / f, x / n;
    ProductPositive(n, f);
    assert p == u * f && x == v * n;
    assert x * p == (u * v) * (n * f);
  }
}
