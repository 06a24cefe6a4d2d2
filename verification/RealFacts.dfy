/** Signs and orders of products, squares and quotients of reals, one fact per lemma. */
module RealFacts {
  lemma ProductSign(a: real, b: real)
    ensures a >= 0.0 && b >= 0.0 ==> a * b >= 0.0
    ensures a > 0.0 && b > 0.0 ==> a * b > 0.0
    ensures a > 0.0 && b < 0.0 ==> a * b < 0.0
  {
  }

  lemma SquareSign(a: real)
    ensures a * a >= 0.0
  {
    if a >= 0.0 {
      ProductSign(a, a);
    } else {
      ProductSign(-a, -a);
      assert (-a) * (-a) == a * a;
    }
  }

  /** Comparing with a non-negative bound is comparing squares. */
  lemma SquareOrder(a: real, b: real)
    requires b >= 0.0
    ensures a * a <= b * b <==> -b <= a <= b
  {
    var u, v := b - a, b + a;
    assert u * v == b * b - a * a;
    if u >= 0.0 && v >= 0.0 {
      ProductSign(u, v);
    } else if u < 0.0 {
      ProductSign(v, u);
      assert v * u == u * v;
    } else {
      ProductSign(u, v);
    }
  }

  lemma QuotientTimes(a: real, d: real)
    requires d != 0.0
    ensures d * (a / d) == a
  {
  }

  lemma ScaleOrder(d: real, a: real, b: real)
    requires d > 0.0
    ensures a <= b <==> d * a <= d * b
  {
    ProductSign(d, b - a);
    assert d * (b - a) == d * b - d * a;
  }

  lemma QuotientSign(a: real, d: real)
    requires d > 0.0
    ensures a >= 0.0 <==> a / d >= 0.0
    ensures a > 0.0 <==> a / d > 0.0
  {
    var q := a / d;
    QuotientTimes(a, d);
    ProductSign(d, q);
  }

  lemma QuotientOrder(a: real, b: real, d: real)
    requires d > 0.0
    ensures a <= b <==> a / d <= b / d
  {
    QuotientTimes(a, d);
    QuotientTimes(b, d);
    ScaleOrder(d, a / d, b / d);
  }

  /** A quotient, named so that equal arguments visibly give equal results. */
  function Ratio(a: real, d: real): real
    requires d != 0.0
  {
    a / d
  }

  lemma RatioSquare(a: real, w: real, m: real)
    requires w > 0.0 && m == a / w
    ensures m * m == a * a / w / w
  {
    QuotientTimes(a, w);
    assert a * a / w == a * m;
    assert a * m / w == m * m;
  }

  lemma RatioInUnit(a: real, d: real)
    requires 0.0 <= a <= d && d > 0.0
    ensures 0.0 <= Ratio(a, d) <= 1.0
  {
    QuotientSign(a, d);
    QuotientTimes(a, d);
    ScaleOrder(d, a / d, 1.0);
  }

  lemma RatioSelf(d: real)
    requires d > 0.0
    ensures Ratio(d, d) == 1.0
  {
  }
}
