/** The evaluation kernel: streaming weighted accumulators over matched pairs.

    Each accumulator is proved to hold the direct weighted sums of the pairs it was given. Its
    metrics are proved equal to weighted means over those pairs, and its intervals to be built on
    the unbiased weighted variance about the mean. */
module Evaluation {
  import opened Options
  import opened RealFacts
  import opened Sums
  import opened WeightedSums
  import opened Intervals

  // ---- What the metrics mean -----------------------------------------------------------

  /** The weighted mean of a quantity, missing when no weight has accumulated. */
  function MeanOf(s: seq<Term>, f: Term -> real): Option<real> {
    if Sum(s, Weight) == 0.0 then None else Some(Ratio(Sum(s, f), Sum(s, Weight)))
  }

  function RootMean(s: seq<Term>, sqrt: real -> real): Option<real> {
    if Sum(s, Weight) == 0.0 then None else Some(sqrt(Ratio(Sum(s, TimesSq), Sum(s, Weight))))
  }

  /** Degrees of freedom left by the weights of a list. */
  function Freedom(s: seq<Term>): real
    requires Sum(s, Weight) > 0.0
  {
    FreedomOf(Sum(s, Weight), Sum(s, WeightSq))
  }

  /** The degrees of freedom are never negative, and vanish unless two pairs weigh. */
  lemma FreedomExactly(s: seq<Term>)
    requires NonNegative(s) && Sum(s, Weight) > 0.0
    ensures Freedom(s) >= 0.0 && (Freedom(s) > 0.0 <==> TwoPositive(s))
  {
    var w := Sum(s, Weight);
    FreedomNonNegative(s, w);
    FreedomSign(w, Sum(s, WeightSq));
  }

  /** The unbiased weighted variance: the spread about the mean over the degrees of freedom. */
  function SampleVariance(s: seq<Term>): real
    requires Sum(s, Weight) > 0.0 && Freedom(s) > 0.0
  {
    Ratio(Sum(s, Deviation(Ratio(Sum(s, Times), Sum(s, Weight)))), Freedom(s))
  }

  function MomentsOf(s: seq<Term>): Moments {
    Moments(Sum(s, Times), Sum(s, TimesSq), Sum(s, Weight), Sum(s, WeightSq), |s|)
  }

  lemma TwoPositiveMeans(s: seq<Term>)
    requires NonNegative(s) && TwoPositive(s)
    ensures |s| >= 2 && Sum(s, Weight) > 0.0
  {
    var i, j :| i < j && Positive(s, i) && Positive(s, j);
    WeightsNonNegative(s);
  }

  /** The running sums leave a degree of freedom exactly when two weights are positive, so the
      test on the number of pairs never decides. */
  lemma MomentsHaveFreedom(s: seq<Term>, m: Moments)
    requires NonNegative(s) && m == MomentsOf(s)
    ensures HasFreedom(m) <==> TwoPositive(s)
  {
    FreedomNonNegative(s, m.w);
    WeightsNonNegative(s);
    if TwoPositive(s) {
      TwoPositiveMeans(s);
    }
  }

  /** The streaming variance is the variance about the mean, so the guard against a negative one
      is never needed over the reals. */
  lemma MomentsGiveVariance(s: seq<Term>, m: Moments)
    requires NonNegative(s) && m == MomentsOf(s) && HasFreedom(m)
    ensures Freedom(s) > 0.0 && Variance(m) == SampleVariance(s) >= 0.0
  {
    var mean := m.x / m.w;
    FreedomSign(m.w, m.w2);
    NumeratorIsSpread(s, m.w, m.x, mean);
    SpreadNonNegative(s, mean);
    QuotientSign(Sum(s, Deviation(mean)), Freedom(s));
  }

  /** At unit weights the degrees of freedom are the ordinary n - 1. */
  lemma {:induction false} UnitWeights(s: seq<Term>)
    requires forall i :: 0 <= i < |s| ==> s[i].w == 1.0
    ensures Sum(s, Weight) == |s| as real && Sum(s, WeightSq) == |s| as real
  {
    if s != [] {
      UnitWeights(s[..|s| - 1]);
    }
  }

  lemma UnitFreedom(s: seq<Term>)
    requires s != [] && forall i :: 0 <= i < |s| ==> s[i].w == 1.0
    ensures Sum(s, Weight) > 0.0 && Freedom(s) == |s| as real - 1.0
  {
    UnitWeights(s);
    UnitQuotient(|s| as real);
  }

  lemma UnitQuotient(n: real)
    requires n > 0.0
    ensures FreedomOf(n, n) == n - 1.0
  {
  }

  /** An interval about `mean` on the variance of `s`, present exactly when two pairs weigh. */
  ghost predicate IntervalFor(ci: Option<Interval>, mean: Option<real>, s: seq<Term>) {
    (ci.Some? <==> TwoPositive(s)) &&
    (ci.Some? ==> mean.Some? && Sum(s, Weight) > 0.0 && Freedom(s) > 0.0 &&
                  MomentInterval(ci.value, mean.value, SampleVariance(s), |s|))
  }

  lemma IntervalFits(ci: Option<Interval>, mean: real, m: Moments, s: seq<Term>)
    requires NonNegative(s) && m == MomentsOf(s)
    requires ci.Some? <==> HasFreedom(m)
    requires ci.Some? ==>
               MomentInterval(ci.value, mean, if Variance(m) < 0.0 then 0.0 else Variance(m), m.n)
    ensures IntervalFor(ci, Some(mean), s)
  {
    MomentsHaveFreedom(s, m);
    if ci.Some? {
      MomentsGiveVariance(s, m);
    }
  }

  lemma NoWeightNoInterval(s: seq<Term>)
    requires NonNegative(s) && Sum(s, Weight) == 0.0
    ensures !TwoPositive(s)
  {
    if TwoPositive(s) {
      TwoPositiveMeans(s);
    }
  }

  /** Absolute values change neither the weights nor the squares. */
  lemma AbsMoments(s: seq<Term>)
    ensures MomentsOf(AbsTerms(s))
            == Moments(Sum(s, TimesAbs), Sum(s, TimesSq), Sum(s, Weight), Sum(s, WeightSq), |s|)
    ensures NonNegative(s) ==> NonNegative(AbsTerms(s))
    ensures TwoPositive(AbsTerms(s)) <==> TwoPositive(s)
  {
    AbsSums(s);
    AbsSquares(s);
    AbsWeightSquares(s);
    AbsPositive(s);
  }

  lemma AbsWeightSquares(s: seq<Term>)
    ensures |AbsTerms(s)| == |s| && Sum(AbsTerms(s), WeightSq) == Sum(s, WeightSq)
  {
    AbsTermsAt(s);
    SumSame(AbsTerms(s), s, WeightSq, WeightSq);
  }

  lemma AbsPositive(s: seq<Term>)
    ensures TwoPositive(AbsTerms(s)) <==> TwoPositive(s)
  {
    AbsTermsAt(s);
    assert forall i :: Positive(AbsTerms(s), i) <==> Positive(s, i);
  }

  /** |Bias| <= MAE <= RMSE. */
  lemma MetricsInOrder(s: seq<Term>, sqrt: real -> real)
    requires SquareRoot(sqrt) && NonNegative(s) && Sum(s, Weight) != 0.0
    ensures Abs(MeanOf(s, Times).value) <= MeanOf(s, TimesAbs).value <= RootMean(s, sqrt).value
  {
    WeightsNonNegative(s);
    var w, b, a, q := Sum(s, Weight), Sum(s, Times), Sum(s, TimesAbs), Sum(s, TimesSq);
    ErrorWithinAbs(s);
    BiasWithin(b, a, w);
    AbsSums(s);
    AbsSquares(s);
    CauchySchwarz(AbsTerms(s), w, a);
    MeanWithinRoot(a, q, w, sqrt);
  }

  lemma BiasWithin(b: real, a: real, w: real)
    requires w > 0.0 && Abs(b) <= a
    ensures Abs(Ratio(b, w)) <= Ratio(a, w)
  {
    QuotientOrder(b, a, w);
    QuotientOrder(-b, a, w);
    assert (-b) / w == -(b / w);
  }

  lemma MeanWithinRoot(a: real, q: real, w: real, sqrt: real -> real)
    requires SquareRoot(sqrt) && w > 0.0 && q - a * a / w >= 0.0
    ensures Ratio(a, w) <= sqrt(Ratio(q, w))
  {
    var m, v := a / w, q / w;
    QuotientOrder(a * a / w, q, w);
    RatioSquare(a, w, m);
    SquareSign(m);
    assert RootAt(sqrt, v);
    SquareOrder(m, sqrt(v));
  }

  // ---- Continuous errors ---------------------------------------------------------------

  ghost predicate HoldsErrors(s: seq<Term>, w: real, w2: real, a: real, e: real, e2: real) {
    w == Sum(s, Weight) && w2 == Sum(s, WeightSq) && a == Sum(s, TimesAbs) && e == Sum(s, Times) &&
    e2 == Sum(s, TimesSq)
  }

  lemma HoldsOneMore(s: seq<Term>, t: Term, w: real, w2: real, a: real, e: real, e2: real)
    requires HoldsErrors(s, w, w2, a, e, e2)
    ensures HoldsErrors(s + [t], w + Weight(t), w2 + WeightSq(t), a + TimesAbs(t), e + Times(t), e2 + TimesSq(t))
  {
    SumPush(s, t, Weight);
    SumPush(s, t, WeightSq);
    SumPush(s, t, TimesAbs);
    SumPush(s, t, Times);
    SumPush(s, t, TimesSq);
  }

  class Continuous {
    var sumWeight: real
    var sumWeightSqrd: real
    var sumWeightAbs: real
    var sumWeightErr: real
    var sumWeightSq: real
    var n: nat
    ghost var pairs: seq<Term>

    ghost predicate Valid()
      reads this
    {
      HoldsErrors(pairs, sumWeight, sumWeightSqrd, sumWeightAbs, sumWeightErr, sumWeightSq) && n == |pairs|
    }

    constructor ()
      ensures Valid() && pairs == []
    {
      sumWeight, sumWeightSqrd, sumWeightAbs, sumWeightErr, sumWeightSq := 0.0, 0.0, 0.0, 0.0, 0.0;
      n := 0;
      pairs := [];
    }

    method Add(forecast: real, observed: real, weight: real)
      requires Valid()
      modifies this
      ensures Valid()
      ensures pairs == old(pairs) + [Term(weight, forecast - observed)]
    {
      var t := Term(weight, forecast - observed);
      HoldsOneMore(pairs, t, sumWeight, sumWeightSqrd, sumWeightAbs, sumWeightErr, sumWeightSq);
      sumWeight := sumWeight + Weight(t);
      sumWeightSqrd := sumWeightSqrd + WeightSq(t);
      sumWeightAbs := sumWeightAbs + TimesAbs(t);
      sumWeightErr := sumWeightErr + Times(t);
      sumWeightSq := sumWeightSq + TimesSq(t);
      n := n + 1;
      pairs := pairs + [t];
    }

    function MAE(): (r: Option<real>)
      requires Valid()
      reads this
      ensures r == MeanOf(pairs, TimesAbs)
    {
      if sumWeight == 0.0 then None else Some(sumWeightAbs / sumWeight)
    }

    function RMSE(sqrt: real -> real): (r: Option<real>)
      requires Valid()
      reads this
      ensures r == RootMean(pairs, sqrt)
    {
      if sumWeight == 0.0 then None else Some(sqrt(sumWeightSq / sumWeight))
    }

    function Bias(): (r: Option<real>)
      requires Valid()
      reads this
      ensures r == MeanOf(pairs, Times)
    {
      if sumWeight == 0.0 then None else Some(sumWeightErr / sumWeight)
    }

    method MAECI(sqrt: real -> real) returns (ci: Option<Interval>)
      requires Valid() && SquareRoot(sqrt) && NonNegative(pairs)
      ensures IntervalFor(ci, MAE(), AbsTerms(pairs))
    {
      AbsMoments(pairs);
      var m := MAE();
      if m.None? {
        NoWeightNoInterval(pairs);
        return None;
      }
      var moments := Moments(sumWeightAbs, sumWeightSq, sumWeight, sumWeightSqrd, n);
      ci := CiFromMoments(m.value, moments, sqrt);
      IntervalFits(ci, m.value, moments, AbsTerms(pairs));
    }

    method RMSECI(sqrt: real -> real) returns (ci: Option<Interval>)
      requires Valid() && SquareRoot(sqrt) && NonNegative(pairs)
      ensures IntervalFor(ci, RMSE(sqrt), AbsTerms(pairs))
    {
      AbsMoments(pairs);
      var m := RMSE(sqrt);
      if m.None? {
        NoWeightNoInterval(pairs);
        return None;
      }
      var moments := Moments(sumWeightAbs, sumWeightSq, sumWeight, sumWeightSqrd, n);
      ci := CiFromMoments(m.value, moments, sqrt);
      IntervalFits(ci, m.value, moments, AbsTerms(pairs));
    }

    method BiasCI(sqrt: real -> real) returns (ci: Option<Interval>)
      requires Valid() && SquareRoot(sqrt) && NonNegative(pairs)
      ensures IntervalFor(ci, Bias(), pairs)
    {
      var m := Bias();
      if m.None? {
        NoWeightNoInterval(pairs);
        return None;
      }
      var moments := Moments(sumWeightErr, sumWeightSq, sumWeight, sumWeightSqrd, n);
      ci := CiFromMoments(m.value, moments, sqrt);
      IntervalFits(ci, m.value, moments, pairs);
    }
  }

  /** The accumulator does not depend on the order in which pairs are added. */
  lemma ContinuousIgnoresOrder(a: Continuous, b: Continuous)
    requires a.Valid() && b.Valid() && multiset(a.pairs) == multiset(b.pairs)
    ensures a.sumWeight == b.sumWeight && a.sumWeightSqrd == b.sumWeightSqrd && a.n == b.n
    ensures a.sumWeightAbs == b.sumWeightAbs && a.sumWeightErr == b.sumWeightErr
    ensures a.sumWeightSq == b.sumWeightSq
  {
    SumIgnoresOrder(a.pairs, b.pairs, Weight);
    SumIgnoresOrder(a.pairs, b.pairs, WeightSq);
    SumIgnoresOrder(a.pairs, b.pairs, TimesAbs);
    SumIgnoresOrder(a.pairs, b.pairs, Times);
    SumIgnoresOrder(a.pairs, b.pairs, TimesSq);
    assert |multiset(a.pairs)| == |a.pairs| && |multiset(b.pairs)| == |b.pairs|;
  }

  // ---- Brier score ---------------------------------------------------------------------

  /** The squared distance of a rain probability from what happened. */
  function BrierTerm(probability: real, observedRain: bool, weight: real): Term {
    var d := probability - (if observedRain then 1.0 else 0.0);
    Term(weight, Squared(d))
  }

  class Brier {
    var sumWeight: real
    var sumWeightSqrd: real
    var sumWeightSq: real
    var sumWeightQuad: real
    var n: nat
    ghost var pairs: seq<Term>

    ghost predicate Valid()
      reads this
    {
      sumWeight == Sum(pairs, Weight) && sumWeightSqrd == Sum(pairs, WeightSq) &&
      sumWeightSq == Sum(pairs, Times) && sumWeightQuad == Sum(pairs, TimesSq) && n == |pairs|
    }

    constructor ()
      ensures Valid() && pairs == []
    {
      sumWeight, sumWeightSqrd, sumWeightSq, sumWeightQuad := 0.0, 0.0, 0.0, 0.0;
      n := 0;
      pairs := [];
    }

    method Add(probability: real, observedRain: bool, weight: real)
      requires Valid()
      modifies this
      ensures Valid()
      ensures pairs == old(pairs) + [BrierTerm(probability, observedRain, weight)]
    {
      var a := 0.0;
      if observedRain {
        a := 1.0;
      }
      var t := Term(weight, Squared(probability - a));
      assert t == BrierTerm(probability, observedRain, weight);
      SumPush(pairs, t, Weight);
      SumPush(pairs, t, WeightSq);
      SumPush(pairs, t, Times);
      SumPush(pairs, t, TimesSq);
      sumWeight := sumWeight + Weight(t);
      sumWeightSqrd := sumWeightSqrd + WeightSq(t);
      sumWeightSq := sumWeightSq + Times(t);
      sumWeightQuad := sumWeightQuad + TimesSq(t);
      n := n + 1;
      pairs := pairs + [t];
    }

    function Score(): (r: Option<real>)
      requires Valid()
      reads this
      ensures r == MeanOf(pairs, Times)
    {
      if sumWeight == 0.0 then None else Some(sumWeightSq / sumWeight)
    }

    method ScoreCI(sqrt: real -> real) returns (ci: Option<Interval>)
      requires Valid() && SquareRoot(sqrt) && NonNegative(pairs)
      ensures IntervalFor(ci, Score(), pairs)
    {
      var m := Score();
      if m.None? {
        NoWeightNoInterval(pairs);
        return None;
      }
      var moments := Moments(sumWeightSq, sumWeightQuad, sumWeight, sumWeightSqrd, n);
      ci := CiFromMoments(m.value, moments, sqrt);
      IntervalFits(ci, m.value, moments, pairs);
    }
  }

  /** Quantities in [0, 1] have their weighted mean in [0, 1]; so does the Brier score. */
  lemma {:induction false} SumInUnit(s: seq<Term>)
    requires NonNegative(s) && forall i :: 0 <= i < |s| ==> 0.0 <= s[i].x <= 1.0
    ensures 0.0 <= Sum(s, Times) <= Sum(s, Weight)
  {
    if s != [] {
      var t := s[|s| - 1];
      SumInUnit(s[..|s| - 1]);
      ProductSign(t.w, t.x);
      ProductSign(t.w, 1.0 - t.x);
      assert t.w * (1.0 - t.x) == t.w - t.w * t.x;
    }
  }

  lemma BrierTermInUnit(probability: real, observedRain: bool, weight: real)
    requires 0.0 <= probability <= 1.0
    ensures 0.0 <= BrierTerm(probability, observedRain, weight).x <= 1.0
  {
    var d := probability - (if observedRain then 1.0 else 0.0);
    SquareSign(d);
    SquareOrder(d, 1.0);
  }

  lemma MeanInUnit(s: seq<Term>)
    requires NonNegative(s) && forall i :: 0 <= i < |s| ==> 0.0 <= s[i].x <= 1.0
    requires Sum(s, Weight) != 0.0
    ensures 0.0 <= MeanOf(s, Times).value <= 1.0
  {
    SumInUnit(s);
    WeightsNonNegative(s);
    RatioInUnit(Sum(s, Times), Sum(s, Weight));
  }
}
