/** The weighted precipitation-occurrence confusion matrix and its six ratios.

    Each ratio is proved equal to a share of weight over the pairs themselves (hits over hours
    that rained, and so on), independently of how the four cells are combined. */
module Categorical {
  import opened Options
  import opened RealFacts
  import opened Sums
  import opened Evaluation

  /** One pair: its weight, whether rain was forecast, whether rain was observed. */
  datatype Outcome = Outcome(w: real, forecast: bool, observed: bool)

  function Hit(o: Outcome): real { if o.forecast && o.observed then o.w else 0.0 }
  function FalseAlarm(o: Outcome): real { if o.forecast && !o.observed then o.w else 0.0 }
  function Miss(o: Outcome): real { if !o.forecast && o.observed then o.w else 0.0 }
  function DryHit(o: Outcome): real { if !o.forecast && !o.observed then o.w else 0.0 }

  function Observed(o: Outcome): real { if o.observed then o.w else 0.0 }
  function Forecast(o: Outcome): real { if o.forecast then o.w else 0.0 }
  function Dry(o: Outcome): real { if o.observed then 0.0 else o.w }
  function Either(o: Outcome): real { if o.forecast || o.observed then o.w else 0.0 }
  function Agreed(o: Outcome): real { if o.forecast == o.observed then o.w else 0.0 }
  function Total(o: Outcome): real { o.w }
  function Both(o: Outcome): real { Forecast(o) + Observed(o) }
  function TwiceHit(o: Outcome): real { 2.0 * Hit(o) }

  /** The share of the weight `den` that falls to `num`, missing when there is none. */
  function Share(s: seq<Outcome>, num: Outcome -> real, den: Outcome -> real): Option<real> {
    if Sum(s, den) == 0.0 then None else Some(Ratio(Sum(s, num), Sum(s, den)))
  }

  ghost predicate NonNegative(s: seq<Outcome>) {
    forall i :: 0 <= i < |s| ==> s[i].w >= 0.0
  }

  /** The four cells partition the weight in every way the ratios use. */
  lemma {:induction false} CellsPartition(s: seq<Outcome>)
    ensures Sum(s, Hit) + Sum(s, Miss) == Sum(s, Observed)
    ensures Sum(s, Hit) + Sum(s, FalseAlarm) == Sum(s, Forecast)
    ensures Sum(s, FalseAlarm) + Sum(s, DryHit) == Sum(s, Dry)
    ensures Sum(s, Hit) + Sum(s, FalseAlarm) + Sum(s, Miss) == Sum(s, Either)
    ensures Sum(s, Hit) + Sum(s, DryHit) == Sum(s, Agreed)
    ensures Sum(s, Observed) + Sum(s, Dry) == Sum(s, Total)
    ensures 2.0 * Sum(s, Hit) == Sum(s, TwiceHit) && Sum(s, Forecast) + Sum(s, Observed) == Sum(s, Both)
  {
    if s != [] {
      CellsPartition(s[..|s| - 1]);
    }
  }

  ghost predicate Within(s: seq<Outcome>, num: Outcome -> real, den: Outcome -> real) {
    forall i :: 0 <= i < |s| ==> 0.0 <= num(s[i]) <= den(s[i])
  }

  lemma {:induction false} SumsWithin(s: seq<Outcome>, num: Outcome -> real, den: Outcome -> real)
    requires Within(s, num, den)
    ensures 0.0 <= Sum(s, num) <= Sum(s, den)
  {
    if s != [] {
      SumsWithin(s[..|s| - 1], num, den);
    }
  }

  /** A share of non-negative weight lies in [0, 1] and has a positive denominator. */
  lemma ShareInUnit(s: seq<Outcome>, num: Outcome -> real, den: Outcome -> real)
    requires Within(s, num, den)
    ensures Share(s, num, den).Some? ==> 0.0 <= Share(s, num, den).value <= 1.0 && Sum(s, den) > 0.0
  {
    SumsWithin(s, num, den);
    if Sum(s, den) != 0.0 {
      RatioInUnit(Sum(s, num), Sum(s, den));
    }
  }

  class Confusion {
    var TP: real
    var FP: real
    var FN: real
    var TN: real
    ghost var outcomes: seq<Outcome>

    ghost predicate Valid()
      reads this
    {
      TP == Sum(outcomes, Hit) && FP == Sum(outcomes, FalseAlarm) &&
      FN == Sum(outcomes, Miss) && TN == Sum(outcomes, DryHit)
    }

    constructor ()
      ensures Valid() && outcomes == []
    {
      TP, FP, FN, TN := 0.0, 0.0, 0.0, 0.0;
      outcomes := [];
    }

    method Add(forecastRain: bool, observedRain: bool, weight: real)
      requires Valid()
      modifies this
      ensures Valid()
      ensures outcomes == old(outcomes) + [Outcome(weight, forecastRain, observedRain)]
    {
      ghost var o := Outcome(weight, forecastRain, observedRain);
      SumPush(outcomes, o, Hit);
      SumPush(outcomes, o, FalseAlarm);
      SumPush(outcomes, o, Miss);
      SumPush(outcomes, o, DryHit);
      if forecastRain && observedRain {
        TP := TP + weight;
      } else if forecastRain && !observedRain {
        FP := FP + weight;
      } else if !forecastRain && observedRain {
        FN := FN + weight;
      } else {
        TN := TN + weight;
      }
      outcomes := outcomes + [o];
    }

    /** All weight, whichever cell it fell into. */
    function N(): (r: real)
      requires Valid()
      reads this
      ensures r == Sum(outcomes, Total)
    {
      CellsPartition(outcomes);
      TP + FP + FN + TN
    }

    /** Of the hours it rained, the share that was forecast. */
    function Recall(): (r: Option<real>)
      requires Valid()
      reads this
      ensures r == Share(outcomes, Hit, Observed)
    {
      CellsPartition(outcomes);
      var d := TP + FN;
      if d == 0.0 then None else Some(Ratio(TP, d))
    }

    /** Of the hours rain was forecast, the share it rained. */
    function Precision(): (r: Option<real>)
      requires Valid()
      reads this
      ensures r == Share(outcomes, Hit, Forecast)
    {
      CellsPartition(outcomes);
      var d := TP + FP;
      if d == 0.0 then None else Some(Ratio(TP, d))
    }

    /** Twice the hits over the weight forecast plus the weight observed. */
    function F1(): (r: Option<real>)
      requires Valid()
      reads this
      ensures r == Share(outcomes, TwiceHit, Both)
    {
      CellsPartition(outcomes);
      var d := 2.0 * TP + FP + FN;
      if d == 0.0 then None else Some(Ratio(2.0 * TP, d))
    }

    /** Of the dry hours, the share for which rain was forecast. */
    function FalseAlarmRate(): (r: Option<real>)
      requires Valid()
      reads this
      ensures r == Share(outcomes, FalseAlarm, Dry)
    {
      CellsPartition(outcomes);
      var d := FP + TN;
      if d == 0.0 then None else Some(Ratio(FP, d))
    }

    /** Of the hours with rain forecast or observed, the share with both. */
    function ThreatScore(): (r: Option<real>)
      requires Valid()
      reads this
      ensures r == Share(outcomes, Hit, Either)
    {
      CellsPartition(outcomes);
      var d := TP + FP + FN;
      if d == 0.0 then None else Some(Ratio(TP, d))
    }

    /** The share of all hours on which forecast and observation agree. */
    function OccurrenceAgreement(): (r: Option<real>)
      requires Valid()
      reads this
      ensures r == Share(outcomes, Agreed, Total)
    {
      CellsPartition(outcomes);
      var n := N();
      if n == 0.0 then None else Some(Ratio(TP + TN, n))
    }
  }

  /** The matrix does not depend on the order in which pairs are added. */
  lemma ConfusionIgnoresOrder(a: Confusion, b: Confusion)
    requires a.Valid() && b.Valid() && multiset(a.outcomes) == multiset(b.outcomes)
    ensures a.TP == b.TP && a.FP == b.FP && a.FN == b.FN && a.TN == b.TN
  {
    SumIgnoresOrder(a.outcomes, b.outcomes, Hit);
    SumIgnoresOrder(a.outcomes, b.outcomes, FalseAlarm);
    SumIgnoresOrder(a.outcomes, b.outcomes, Miss);
    SumIgnoresOrder(a.outcomes, b.outcomes, DryHit);
  }

  /** F1 is missing exactly when precision and recall both are. */
  lemma F1MissingExactly(s: seq<Outcome>)
    requires NonNegative(s)
    ensures Share(s, TwiceHit, Both).None? <==> Share(s, Hit, Forecast).None? && Share(s, Hit, Observed).None?
  {
    CellsPartition(s);
    SumsWithin(s, Hit, Forecast);
    SumsWithin(s, Hit, Observed);
  }

  /** F1 is the harmonic mean of precision and recall wherever both are present. */
  lemma F1IsHarmonicMean(s: seq<Outcome>)
    requires NonNegative(s) && Share(s, Hit, Forecast).Some? && Share(s, Hit, Observed).Some?
    ensures Share(s, TwiceHit, Both).Some?
    ensures var p, r, f := Share(s, Hit, Forecast).value, Share(s, Hit, Observed).value, Share(s, TwiceHit, Both).value;
            f * (p + r) == 2.0 * (p * r)
  {
    CellsPartition(s);
    SumsWithin(s, Hit, Forecast);
    SumsWithin(s, Hit, Observed);
    F1MissingExactly(s);
    Harmonic(Sum(s, Hit), Sum(s, Forecast), Sum(s, Observed), Share(s, Hit, Forecast).value,
             Share(s, Hit, Observed).value, Share(s, TwiceHit, Both).value);
  }

  lemma Harmonic(h: real, a: real, b: real, p: real, r: real, f: real)
    requires a > 0.0 && b > 0.0 && p == Ratio(h, a) && r == Ratio(h, b) && f == Ratio(2.0 * h, a + b)
    ensures f * (p + r) == 2.0 * (p * r)
  {
    QuotientTimes(h, a);
    QuotientTimes(h, b);
    QuotientTimes(2.0 * h, a + b);
    var x, y := f * (p + r), 2.0 * (p * r);
    var ab := a * b;
    ProductSign(a, b);
    assert ab * (p + r) == h * (a + b) by {
      assert a * b * p == b * (a * p);
      assert a * b * r == a * (b * r);
    }
    assert ab * x == f * (h * (a + b)) by {
      assert ab * x == f * (ab * (p + r));
    }
    assert f * (h * (a + b)) == h * ((a + b) * f);
    assert ab * y == 2.0 * ((a * p) * (b * r));
    assert h * (2.0 * h) == 2.0 * (h * h);
    assert ab * x == ab * y;
    ScaleOrder(ab, x, y);
    ScaleOrder(ab, y, x);
  }
}
