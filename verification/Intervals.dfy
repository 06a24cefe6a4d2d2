/** Confidence intervals: the Wilson score interval and the moment interval, over the reals.

    A square root is any function that is non-negative and squares back to its argument; it is
    passed in, so nothing here depends on how it is computed. */
module Intervals {
  import opened Options
  import opened RealFacts

  datatype Interval = Interval(lower: real, upper: real)

  /** The standard-normal quantile of a two-sided 95% interval. */
  const Z95 := 1.96
  const Z95Squared := 3.8416

  ghost predicate RootAt(sqrt: real -> real, x: real) {
    sqrt(x) >= 0.0 && sqrt(x) * sqrt(x) == x
  }

  ghost predicate SquareRoot(sqrt: real -> real) {
    forall x {:trigger sqrt(x)} :: x >= 0.0 ==> RootAt(sqrt, x)
  }

  // ---- Wilson score interval -----------------------------------------------------------

  /** Whether a true rate `x` is compatible with observing rate `p` over `n` trials: the score
      test of Wilson, |p - x| <= z * sqrt(x (1 - x) / n), written without the root. */
  predicate Compatible(p: real, n: real, x: real) {
    n * ((p - x) * (p - x)) <= 3.8416 * (x * (1.0 - x))
  }

  /** Half of z squared over n: the shift that the interval's centre takes towards one half. */
  function Shift(n: real): real
    requires n > 0.0
  {
    Z95Squared / (2.0 * n)
  }

  /** The score inequality, completed to a square around the interval's centre. */
  lemma ScoreIdentity(p: real, h: real, x: real)
    ensures var d := 1.0 + 2.0 * h;
            (d * x - (p + h)) * (d * x - (p + h)) - (2.0 * h * (p * (1.0 - p)) + h * h)
            == d * ((p - x) * (p - x) - 2.0 * h * (x * (1.0 - x)))
  {
  }

  /** The score inequality, divided by the sample size. */
  lemma ScoreGap(p: real, n: real, x: real)
    requires n > 0.0
    ensures Compatible(p, n, x)
            <==> (p - x) * (p - x) - 2.0 * Shift(n) * (x * (1.0 - x)) <= 0.0
  {
    var square, product := (p - x) * (p - x), x * (1.0 - x);
    var gap := square - 2.0 * Shift(n) * product;
    ShiftTimes(n, product);
    ScaleOrder(n, gap, 0.0);
    assert n * gap == n * square - n * (2.0 * Shift(n) * product);
  }

  lemma ShiftTimes(n: real, product: real)
    requires n > 0.0
    ensures n * (2.0 * Shift(n) * product) == Z95Squared * product
  {
    QuotientTimes(Z95Squared, 2.0 * n);
    var h := Shift(n);
    assert 2.0 * n * h == Z95Squared;
    assert n * (2.0 * h * product) == 2.0 * n * h * product;
  }

  lemma ShiftPositive(n: real)
    requires n > 0.0
    ensures Shift(n) > 0.0 && 2.0 * Shift(n) == Z95Squared / n
  {
    QuotientSign(Z95Squared, 2.0 * n);
  }

  /** |d x - c| <= s. */
  predicate InBand(d: real, x: real, c: real, s: real) {
    -s <= d * x - c <= s
  }

  /** With `s` the root of the discriminant, the score inequality is |d x - (p + h)| <= s. */
  lemma ScoreBand(p: real, n: real, s: real, x: real)
    requires n > 0.0 && s >= 0.0
    requires var h := Shift(n); s * s == 2.0 * h * (p * (1.0 - p)) + h * h
    ensures var h := Shift(n);
            Compatible(p, n, x) <==> InBand(1.0 + 2.0 * h, x, p + h, s)
  {
    ShiftPositive(n);
    ScoreGap(p, n, x);
    var h := Shift(n);
    Band(p, h, s, x);
  }

  lemma Band(p: real, h: real, s: real, x: real)
    requires h > 0.0 && s >= 0.0 && s * s == 2.0 * h * (p * (1.0 - p)) + h * h
    ensures (p - x) * (p - x) - 2.0 * h * (x * (1.0 - x)) <= 0.0
            <==> InBand(1.0 + 2.0 * h, x, p + h, s)
  {
    var d := 1.0 + 2.0 * h;
    var gap := (p - x) * (p - x) - 2.0 * h * (x * (1.0 - x));
    ScoreIdentity(p, h, x);
    SquareOrder(d * x - (p + h), s);
    ScaleOrder(d, gap, 0.0);
  }

  /** The margin before division by the denominator. */
  lemma Discriminant(p: real, n: real, r: real)
    requires n > 0.0
    requires r * r == p * (1.0 - p) / n + Z95Squared / (4.0 * n * n)
    ensures var h := Shift(n); (Z95 * r) * (Z95 * r) == 2.0 * h * (p * (1.0 - p)) + h * h
  {
    var h := Shift(n);
    var v := p * (1.0 - p);
    ShiftPositive(n);
    assert (Z95 * r) * (Z95 * r) == Z95Squared * (r * r);
    assert Z95Squared * (v / n) == Z95Squared / n * v;
    assert Z95Squared * (Z95Squared / (4.0 * n * n)) == h * h;
  }

  lemma Radicand(p: real, n: real)
    requires n > 0.0 && 0.0 <= p <= 1.0
    ensures p * (1.0 - p) / n + Z95Squared / (4.0 * n * n) >= 0.0
  {
    ProductSign(p, 1.0 - p);
    QuotientSign(p * (1.0 - p), n);
    var m := 4.0 * n;
    ProductSign(m, n);
    assert m * n > 0.0;
    QuotientSign(Z95Squared, m * n);
  }

  lemma CompatibleInUnit(p: real, n: real, x: real)
    requires n > 0.0 && Compatible(p, n, x)
    ensures 0.0 <= x <= 1.0
  {
    SquareSign(p - x);
    ProductSign(n, (p - x) * (p - x));
    if x < 0.0 {
      ProductSign(1.0 - x, x);
    } else if x > 1.0 {
      ProductSign(x, 1.0 - x);
    }
  }

  lemma CompatibleSelf(p: real, n: real)
    requires 0.0 <= p <= 1.0
    ensures Compatible(p, n, p)
  {
    ProductSign(p, 1.0 - p);
    assert n * ((p - p) * (p - p)) == 0.0;
  }

  /** The interval before any clamping. */
  function Unclamped(p: real, n: real, sqrt: real -> real): Interval
    requires n > 0.0
  {
    var d := 1.0 + Z95Squared / n;
    assert Z95Squared / n > 0.0;
    var centre := (p + Z95Squared / (2.0 * n)) / d;
    var margin := (Z95 * sqrt(p * (1.0 - p) / n + Z95Squared / (4.0 * n * n))) / d;
    Interval(centre - margin, centre + margin)
  }

  function HalfWidth(p: real, n: real, sqrt: real -> real): real
    requires n > 0.0
  {
    Z95 * sqrt(p * (1.0 - p) / n + Z95Squared / (4.0 * n * n))
  }

  lemma UnclampedParts(p: real, n: real, sqrt: real -> real)
    requires n > 0.0
    ensures var h, s := Shift(n), HalfWidth(p, n, sqrt);
            var d := 1.0 + 2.0 * h;
            d > 0.0 && Unclamped(p, n, sqrt) == Interval((p + h) / d - s / d, (p + h) / d + s / d)
  {
    ShiftPositive(n);
  }

  lemma HalfWidthSquared(p: real, n: real, sqrt: real -> real)
    requires SquareRoot(sqrt) && n > 0.0 && 0.0 <= p <= 1.0
    ensures var h, s := Shift(n), HalfWidth(p, n, sqrt);
            s >= 0.0 && s * s == 2.0 * h * (p * (1.0 - p)) + h * h
  {
    Radicand(p, n);
    var radicand := p * (1.0 - p) / n + Z95Squared / (4.0 * n * n);
    assert RootAt(sqrt, radicand);
    Discriminant(p, n, sqrt(radicand));
  }

  /** The unclamped bounds hold exactly the rates that the score test does not reject. */
  lemma UnclampedExactly(p: real, n: real, sqrt: real -> real, x: real)
    requires SquareRoot(sqrt) && n > 0.0 && 0.0 <= p <= 1.0
    ensures var u := Unclamped(p, n, sqrt); u.lower <= x <= u.upper <==> Compatible(p, n, x)
    ensures var u := Unclamped(p, n, sqrt); u.lower <= u.upper
  {
    HalfWidthSquared(p, n, sqrt);
    UnclampedBand(p, n, sqrt, x);
    ScoreBand(p, n, HalfWidth(p, n, sqrt), x);
  }

  lemma UnclampedBand(p: real, n: real, sqrt: real -> real, x: real)
    requires n > 0.0 && HalfWidth(p, n, sqrt) >= 0.0
    ensures var u, h, s := Unclamped(p, n, sqrt), Shift(n), HalfWidth(p, n, sqrt);
            (u.lower <= x <= u.upper <==> InBand(1.0 + 2.0 * h, x, p + h, s)) && u.lower <= u.upper
  {
    UnclampedParts(p, n, sqrt);
    var u, h, s := Unclamped(p, n, sqrt), Shift(n), HalfWidth(p, n, sqrt);
    var d := 1.0 + 2.0 * h;
    BandAsInterval(d, p + h, s, x);
    assert u.lower == (p + h) / d - s / d && u.upper == (p + h) / d + s / d;
  }

  lemma BandAsInterval(d: real, c: real, s: real, x: real)
    requires d > 0.0 && s >= 0.0
    ensures c / d - s / d <= x <= c / d + s / d <==> InBand(d, x, c, s)
    ensures s / d >= 0.0
  {
    var a, b := c / d, s / d;
    QuotientTimes(c, d);
    QuotientTimes(s, d);
    BandAround(d, a, b, x, d * a, d * b);
    QuotientSign(s, d);
  }

  /** The interval of half-width b around a, multiplied by d. */
  lemma BandAround(d: real, a: real, b: real, x: real, c: real, s: real)
    requires d > 0.0 && c == d * a && s == d * b
    ensures a - b <= x <= a + b <==> InBand(d, x, c, s)
  {
    ScaleOrder(d, a - b, x);
    ScaleOrder(d, x, a + b);
    assert d * (a - b) == c - s;
    assert d * (a + b) == c + s;
  }

  /** All four clamps are no-ops over the reals: the bounds already satisfy them. */
  lemma ClampsAreNoOps(p: real, n: real, sqrt: real -> real)
    requires SquareRoot(sqrt) && n > 0.0 && 0.0 <= p <= 1.0
    ensures var u := Unclamped(p, n, sqrt); 0.0 <= u.lower <= p <= u.upper <= 1.0
  {
    var u := Unclamped(p, n, sqrt);
    UnclampedExactly(p, n, sqrt, u.lower);
    UnclampedExactly(p, n, sqrt, u.upper);
    UnclampedExactly(p, n, sqrt, p);
    CompatibleInUnit(p, n, u.lower);
    CompatibleInUnit(p, n, u.upper);
    CompatibleSelf(p, n);
  }

  /** The 95% score interval of a rate `p` over an effective sample `n`. */
  method Wilson(p: real, n: real, sqrt: real -> real) returns (lower: real, upper: real)
    requires SquareRoot(sqrt)
    ensures n <= 0.0 ==> lower == 0.0 && upper == 0.0
    ensures n > 0.0 && 0.0 <= p <= 1.0 ==> 0.0 <= lower <= p <= upper <= 1.0
    ensures n > 0.0 && 0.0 <= p <= 1.0 ==> forall x :: lower <= x <= upper <==> Compatible(p, n, x)
  {
    if n <= 0.0 {
      return 0.0, 0.0;
    }
    ghost var u := Unclamped(p, n, sqrt);
    var z2 := Z95 * Z95;
    var denom := 1.0 + z2 / n;
    assert z2 / n > 0.0;
    var centre := (p + z2 / (2.0 * n)) / denom;
    var margin := (Z95 * sqrt(p * (1.0 - p) / n + z2 / (4.0 * n * n))) / denom;
    lower, upper := centre - margin, centre + margin;
    assert Interval(lower, upper) == u;
    if 0.0 <= p <= 1.0 {
      ClampsAreNoOps(p, n, sqrt);
      forall x
        ensures u.lower <= x <= u.upper <==> Compatible(p, n, x)
      {
        UnclampedExactly(p, n, sqrt, x);
      }
    }
    if lower < 0.0 {
      lower := 0.0;
    }
    if upper > 1.0 {
      upper := 1.0;
    }
    if lower > p {
      lower := p;
    }
    if upper < p {
      upper := p;
    }
  }

  // ---- Interval from weighted moments --------------------------------------------------

  /** The weighted sums an interval is built from: of x, of x squared, of the weights and of
      their squares, and the number of pairs. */
  datatype Moments = Moments(x: real, x2: real, w: real, w2: real, n: nat)

  /** More than one effective pair: the weights leave a degree of freedom. */
  predicate HasFreedom(m: Moments) {
    m.n >= 2 && m.w > 0.0 && m.w2 < m.w * m.w
  }

  /** Degrees of freedom left by weights of total `w` and squared sum `w2`. */
  function FreedomOf(w: real, w2: real): real
    requires w > 0.0
  {
    w - w2 / w
  }

  lemma FreedomSign(w: real, w2: real)
    requires w > 0.0
    ensures FreedomOf(w, w2) > 0.0 <==> w2 < w * w
    ensures FreedomOf(w, w2) >= 0.0 <==> w2 <= w * w
  {
    QuotientTimes(w2, w);
    ScaleOrder(w, w, w2 / w);
    ScaleOrder(w, w2 / w, w);
  }

  /** The variance numerator: the sum of squares less the part the mean explains. */
  function Unexplained(m: Moments): real
    requires m.w > 0.0
  {
    m.x2 - m.x * m.x / m.w
  }

  /** The frequency-weight-unbiased variance. */
  function Variance(m: Moments): real
    requires HasFreedom(m)
  {
    FreedomSign(m.w, m.w2);
    Ratio(Unexplained(m), FreedomOf(m.w, m.w2))
  }

  /** The interval centred on `mean` whose half-width h satisfies h^2 n = z^2 variance. */
  ghost predicate MomentInterval(ci: Interval, mean: real, variance: real, n: nat) {
    var h := ci.upper - mean;
    h >= 0.0 && ci.lower == mean - h && h * h * n as real == 3.8416 * variance
  }

  lemma HalfSquared(v: real, r: real, n: real, q: real)
    requires q > 0.0 && r >= 0.0 && r * r == v && q * q == n
    ensures var h := Z95 * r / q; h >= 0.0 && h * h * n == Z95Squared * v
  {
    var h := Z95 * r / q;
    QuotientSign(Z95 * r, q);
    QuotientTimes(Z95 * r, q);
    assert h * h * (q * q) == (q * h) * (q * h);
    assert (Z95 * r) * (Z95 * r) == Z95Squared * (r * r);
  }

  lemma RootPositive(sqrt: real -> real, x: real)
    requires SquareRoot(sqrt) && x > 0.0
    ensures sqrt(x) > 0.0 && sqrt(x) * sqrt(x) == x
  {
    assert RootAt(sqrt, x);
  }

  /** z times the standard error of a mean of `n` values with the given variance. */
  function StandardHalf(variance: real, n: nat, sqrt: real -> real): (h: real)
    requires SquareRoot(sqrt) && variance >= 0.0 && n > 0
    ensures h >= 0.0 && h * h * n as real == Z95Squared * variance
  {
    RootPositive(sqrt, n as real);
    assert RootAt(sqrt, variance);
    HalfSquared(variance, sqrt(variance), n as real, sqrt(n as real));
    Z95 * sqrt(variance) / sqrt(n as real)
  }

  method CiFromMoments(mean: real, m: Moments, sqrt: real -> real) returns (ci: Option<Interval>)
    requires SquareRoot(sqrt)
    ensures ci.Some? <==> HasFreedom(m)
    ensures ci.Some? ==>
              MomentInterval(ci.value, mean, if Variance(m) < 0.0 then 0.0 else Variance(m), m.n)
  {
    if m.n < 2 || m.w <= 0.0 {
      return None;
    }
    var d := FreedomOf(m.w, m.w2);
    FreedomSign(m.w, m.w2);
    if d <= 0.0 {
      return None;
    }
    var variance := Ratio(Unexplained(m), d);
    if variance < 0.0 {
      variance := 0.0;
    }
    var half := StandardHalf(variance, m.n, sqrt);
    ci := Some(Interval(mean - half, mean + half));
    IsMomentInterval(ci.value, mean, half, variance, m.n);
  }

  lemma IsMomentInterval(ci: Interval, mean: real, half: real, variance: real, n: nat)
    requires ci == Interval(mean - half, mean + half)
    requires half >= 0.0 && half * half * n as real == Z95Squared * variance
    ensures MomentInterval(ci, mean, variance, n)
  {
  }
}
