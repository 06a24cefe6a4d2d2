/** How the published scores of a cohort respond when one provider improves in one component.

    A better value never costs its own provider. It raises another provider's score in exactly one
    situation: a lower-better column whose least value was positive but below the guard, and is
    now zero, so that the guard itself becomes the best value. */
module RankMonotone {
  import opened Options
  import opened RealFacts
  import opened Intervals
  import opened Ranking

  /** The components that measure an error: of temperature, rain, wind, and the temperature bias. */
  predicate IsError(c: Component) {
    c == TempMae || c == RainMae || c == WindMae || c == TempBias
  }

  /** The components scored against the best of the cohort. */
  predicate Ratioed(c: Component) {
    IsError(c) || c == PrecipF1
  }

  /** At least as good: less error, or a higher precipitation F1. */
  predicate AtLeastAsGood(c: Component, now: real, before: real) {
    if IsError(c) then now <= before else if c == PrecipF1 then now >= before else now == before
  }

  function WithValue(p: ProviderInput, c: Component, v: real): ProviderInput {
    p.(values := p.values[c := v])
  }

  function Improved(cohort: seq<ProviderInput>, i: nat, c: Component, v: real): seq<ProviderInput>
    requires i < |cohort|
  {
    cohort[i := WithValue(cohort[i], c, v)]
  }

  /** An improvement of provider `i` in the ratio component `c` to the value `v`. */
  ghost predicate Improves(cohort: seq<ProviderInput>, i: nat, c: Component, v: real) {
    i < |cohort| && WellFormed(cohort) && Ratioed(c) && c in cohort[i].values && v >= 0.0 &&
    AtLeastAsGood(c, v, cohort[i].values[c])
  }

  lemma ImprovedIsWellFormed(cohort: seq<ProviderInput>, i: nat, c: Component, v: real)
    requires Improves(cohort, i, c, v)
    ensures WellFormed(Improved(cohort, i, c, v)) && NonNegative(Improved(cohort, i, c, v)) && NonNegative(cohort)
    ensures forall d :: Active(cohort, d) <==> Active(Improved(cohort, i, c, v), d)
  {
    var after := Improved(cohort, i, c, v);
    assert InputOk(cohort[i]);
    forall k | 0 <= k < |after|
      ensures InputOk(after[k])
    {
      assert InputOk(cohort[k]);
    }
    forall d
      ensures Active(cohort, d) <==> Active(after, d)
    {
      if Active(after, d) {
        forall k | 0 <= k < |cohort|
          ensures d in cohort[k].values
        {
          assert d in after[k].values;
        }
      }
    }
  }

  // ---- The extremes of the improved column ---------------------------------------------

  lemma OtherColumnsStay(cohort: seq<ProviderInput>, i: nat, c: Component, v: real, d: Component)
    requires Improves(cohort, i, c, v) && d != c && Active(cohort, d)
    ensures Active(Improved(cohort, i, c, v), d)
    ensures Column(Improved(cohort, i, c, v), d) == Column(cohort, d)
  {
  }

  lemma ImprovedColumn(cohort: seq<ProviderInput>, i: nat, c: Component, v: real)
    requires i < |cohort| && Active(cohort, c)
    ensures Active(Improved(cohort, i, c, v), c)
    ensures Column(Improved(cohort, i, c, v), c) == Column(cohort, c)[i := v]
  {
  }

  /** Lowering one entry lowers the least value, and only to that entry. */
  lemma LeastAfter(x: seq<real>, i: nat, v: real)
    requires i < |x| && v <= x[i]
    ensures Least(x[i := v]) <= Least(x)
    ensures Least(x[i := v]) == Least(x) || Least(x[i := v]) == v
  {
    var y := x[i := v];
    var k :| 0 <= k < |x| && x[k] == Least(x);
    assert y[k] in y;
    var j :| 0 <= j < |y| && y[j] == Least(y);
    if j != i {
      assert x[j] in x;
    }
  }

  lemma GreatestAfter(x: seq<real>, i: nat, v: real)
    requires i < |x| && v >= x[i]
    ensures Greatest(x[i := v]) >= Greatest(x)
    ensures Greatest(x[i := v]) == Greatest(x) || Greatest(x[i := v]) == v
  {
    var y := x[i := v];
    var k :| 0 <= k < |x| && x[k] == Greatest(x);
    assert y[k] in y;
    var j :| 0 <= j < |y| && y[j] == Greatest(y);
    if j != i {
      assert x[j] in x;
    }
  }

  // ---- One component -------------------------------------------------------------------

  lemma RatioFalls(a: real, d: real, e: real)
    requires a >= 0.0 && 0.0 < e <= d
    ensures Ratio(a, d) <= Ratio(a, e)
  {
    var q := a / d;
    QuotientSign(a, d);
    QuotientTimes(a, d);
    ProductSign(q, d - e);
    assert q * (d - e) == d * q - e * q;
    QuotientTimes(a, e);
    ScaleOrder(e, q, a / e);
  }

  lemma RatioRises(a: real, b: real, d: real)
    requires a <= b && d > 0.0
    ensures Ratio(a, d) <= Ratio(b, d)
  {
    QuotientOrder(a, b, d);
  }

  /** The improver's own normalised score never falls. */
  lemma OwnScore(d: Direction, v: real, w: real, l: real, m: real, h: real, g: real)
    requires 0.0 <= l <= v <= h && 0.0 <= m <= w <= g
    requires d.LowerBetter? ==> w <= v && (m == l || m == w)
    requires d.HigherBetter? ==> w >= v && g >= h && (g == h || g == w)
    requires !d.Direct?
    ensures Score(d, v, l, h) <= Score(d, w, m, g)
  {
    ScoreInUnit(d, v, l, h);
    if d.LowerBetter? {
      if m == w {
        RatioSelf(w + ShiftFor(w));
      } else {
        RatioFalls(l + ShiftFor(l), v + ShiftFor(l), w + ShiftFor(l));
      }
    } else if g > 0.0 {
      if g == w {
        RatioSelf(g);
      } else {
        RatioRises(v, w, g);
      }
    }
  }

  /** A zero now replaces a positive least value `l` below the guard, and `u` is large enough for
      the guard over u to exceed l over u. */
  predicate GuardRaises(l: real, m: real, u: real) {
    m == 0.0 && l > 0.0 && u * (Epsilon - l) > l * Epsilon
  }

  /** Comparing the ratio to a positive least value with the ratio to the guard. */
  lemma GuardComparison(l: real, u: real)
    requires 0.0 < l <= u
    ensures Ratio(Epsilon, u + Epsilon) > Ratio(l, u) <==> u * (Epsilon - l) > l * Epsilon
  {
    var a, b := Ratio(Epsilon, u + Epsilon), Ratio(l, u);
    QuotientTimes(Epsilon, u + Epsilon);
    QuotientTimes(l, u);
    CrossMultiply(a, b, Epsilon, l, u);
  }

  lemma CrossMultiply(a: real, b: real, e: real, l: real, u: real)
    requires e > 0.0 && u > 0.0 && (u + e) * a == e && u * b == l
    ensures a > b <==> u * (e - l) > l * e
  {
    var s := u + e;
    ScaleOrder(s, a, b);
    ScaleOrder(u, s * a, s * b);
    assert u * (s * b) == s * (u * b);
    assert s * l == u * l + e * l;
    assert u * (e - l) == u * e - u * l;
  }

  /** Another provider's normalised score rises exactly in the guarded case. */
  lemma OtherScore(d: Direction, u: real, l: real, m: real, h: real, g: real)
    requires !d.Direct? && 0.0 <= l <= u <= h && 0.0 <= m <= u <= g
    requires d.LowerBetter? ==> m <= l
    requires d.HigherBetter? ==> g >= h
    ensures Score(d, u, m, g) > Score(d, u, l, h) <==> d.LowerBetter? && GuardRaises(l, m, u)
  {
    if d.LowerBetter? {
      if m > 0.0 {
        RatioRises(m, l, u);
      } else if l > 0.0 {
        GuardComparison(l, u);
      }
    } else if h > 0.0 {
      RatioFalls(u, g, h);
    }
  }

  // ---- The composite -------------------------------------------------------------------

  lemma ShareStays(cohort: seq<ProviderInput>, i: nat, c: Component, v: real, d: Component)
    requires Improves(cohort, i, c, v)
    ensures WeightShare(Improved(cohort, i, c, v), d) == WeightShare(cohort, d)
  {
    ImprovedIsWellFormed(cohort, i, c, v);
    WeightIgnoresOrder(Components, cohort, Improved(cohort, i, c, v));
  }

  /** Nothing but the improved component changes for anyone. */
  lemma ContributionStays(cohort: seq<ProviderInput>, i: nat, c: Component, v: real, k: nat, d: Component)
    requires Improves(cohort, i, c, v) && k < |cohort| && d != c
    ensures NonNegative(cohort) && NonNegative(Improved(cohort, i, c, v))
    ensures Contribution(Improved(cohort, i, c, v), Improved(cohort, i, c, v)[k], d) == Contribution(cohort, cohort[k], d)
  {
    ImprovedIsWellFormed(cohort, i, c, v);
    ShareStays(cohort, i, c, v, d);
    if Active(cohort, d) {
      OtherColumnsStay(cohort, i, c, v, d);
    }
  }

  predicate Distinct(cs: seq<Component>) {
    forall a, b :: 0 <= a < b < |cs| ==> cs[a] != cs[b]
  }

  /** How much the improved component changes provider k's composite. */
  ghost function Change(cohort: seq<ProviderInput>, i: nat, c: Component, v: real, k: nat): real
    requires Improves(cohort, i, c, v) && k < |cohort|
  {
    ImprovedIsWellFormed(cohort, i, c, v);
    Contribution(Improved(cohort, i, c, v), Improved(cohort, i, c, v)[k], c) - Contribution(cohort, cohort[k], c)
  }

  /** Two composites that differ in one component's contribution differ by just that. */
  lemma {:induction false} CompositesDiffer(cs: seq<Component>, a: seq<ProviderInput>, p: ProviderInput,
                                            b: seq<ProviderInput>, q: ProviderInput, c: Component)
    requires NonNegative(a) && NonNegative(b) && p in a && q in b && Distinct(cs)
    requires forall d {:trigger Contribution(b, q, d)} :: d != c ==> Contribution(b, q, d) == Contribution(a, p, d)
    ensures Composite(cs, b, q)
            == Composite(cs, a, p) + (if c in cs then Contribution(b, q, c) - Contribution(a, p, c) else 0.0)
  {
    if cs != [] {
      var n := |cs| - 1;
      CompositesDiffer(cs[..n], a, p, b, q, c);
      assert c in cs <==> c in cs[..n] || c == cs[n];
      assert c == cs[n] ==> c !in cs[..n];
    }
  }

  lemma CompositeChanges(cohort: seq<ProviderInput>, i: nat, c: Component, v: real, k: nat)
    requires Improves(cohort, i, c, v) && k < |cohort|
    ensures NonNegative(cohort) && NonNegative(Improved(cohort, i, c, v))
    ensures Composite(Components, Improved(cohort, i, c, v), Improved(cohort, i, c, v)[k])
            == Composite(Components, cohort, cohort[k]) + Change(cohort, i, c, v, k)
  {
    var after := Improved(cohort, i, c, v);
    ImprovedIsWellFormed(cohort, i, c, v);
    forall d | d != c
      ensures Contribution(after, after[k], d) == Contribution(cohort, cohort[k], d)
    {
      ContributionStays(cohort, i, c, v, k, d);
    }
    ComponentListed(c);
    CompositesDiffer(Components, cohort, cohort[k], after, after[k], c);
  }

  lemma TimesIs(w: real, x: real)
    ensures Times(w, x) == w * x && Times(x, w) == w * x
  {
  }

  lemma ProductOrder(w: real, x: real, y: real, a: real, b: real)
    requires w > 0.0 && a == w * x && b == w * y
    ensures a <= b <==> x <= y
  {
    ScaleOrder(w, x, y);
  }

  lemma TimesOrder(w: real, x: real, y: real)
    requires w > 0.0
    ensures Times(w, x) <= Times(w, y) <==> x <= y
    ensures Times(x, w) <= Times(y, w) <==> x <= y
  {
    TimesIs(w, x);
    TimesIs(w, y);
    ProductOrder(w, x, y, Times(w, x), Times(w, y));
    ProductOrder(w, x, y, Times(x, w), Times(y, w));
  }

  /** The extremes of the improved column against those of the column before. */
  lemma ExtremesAfter(cohort: seq<ProviderInput>, i: nat, c: Component, v: real)
    requires Improves(cohort, i, c, v) && Active(cohort, c)
    ensures Active(Improved(cohort, i, c, v), c)
    ensures var after := Improved(cohort, i, c, v);
            && (DirectionOf(c).LowerBetter? ==>
                  Lowest(after, c) <= Lowest(cohort, c) && (Lowest(after, c) == Lowest(cohort, c) || Lowest(after, c) == v))
            && (DirectionOf(c).HigherBetter? ==>
                  Highest(after, c) >= Highest(cohort, c) && (Highest(after, c) == Highest(cohort, c) || Highest(after, c) == v))
  {
    ImprovedColumn(cohort, i, c, v);
    var x := Column(cohort, c);
    if DirectionOf(c).LowerBetter? {
      LeastAfter(x, i, v);
    } else {
      GreatestAfter(x, i, v);
    }
  }

  lemma OwnChange(cohort: seq<ProviderInput>, i: nat, c: Component, v: real)
    requires Improves(cohort, i, c, v)
    ensures Change(cohort, i, c, v, i) >= 0.0
  {
    var after := Improved(cohort, i, c, v);
    ImprovedIsWellFormed(cohort, i, c, v);
    ShareStays(cohort, i, c, v, c);
    if Active(cohort, c) {
      ExtremesAfter(cohort, i, c, v);
      ValueInColumn(cohort, cohort[i], c);
      ValueInColumn(after, after[i], c);
      OwnScore(DirectionOf(c), cohort[i].values[c], v, Lowest(cohort, c), Lowest(after, c), Highest(cohort, c), Highest(after, c));
      TimesOrder(WeightShare(cohort, c), Norm(cohort, cohort[i], c), Norm(after, after[i], c));
    }
  }

  /** The one way an improvement of provider `i` can raise provider `k`: component `c` is active
      and measures an error, and its least value drops to zero from below the guard. */
  ghost predicate RaisesOther(cohort: seq<ProviderInput>, i: nat, c: Component, v: real, k: nat)
    requires Improves(cohort, i, c, v) && k < |cohort|
  {
    ImprovedIsWellFormed(cohort, i, c, v);
    Active(cohort, c) && IsError(c) &&
    GuardRaises(Lowest(cohort, c), Lowest(Improved(cohort, i, c, v), c), cohort[k].values[c])
  }

  lemma OtherChange(cohort: seq<ProviderInput>, i: nat, c: Component, v: real, k: nat)
    requires Improves(cohort, i, c, v) && k < |cohort| && k != i
    ensures Change(cohort, i, c, v, k) > 0.0 <==> RaisesOther(cohort, i, c, v, k)
  {
    var after := Improved(cohort, i, c, v);
    ImprovedIsWellFormed(cohort, i, c, v);
    ShareStays(cohort, i, c, v, c);
    if Active(cohort, c) {
      ExtremesAfter(cohort, i, c, v);
      ValueInColumn(cohort, cohort[k], c);
      assert after[k] in after;
      ValueInColumn(after, after[k], c);
      OtherScore(DirectionOf(c), cohort[k].values[c], Lowest(cohort, c), Lowest(after, c), Highest(cohort, c), Highest(after, c));
      TimesOrder(WeightShare(cohort, c), Norm(after, after[k], c), Norm(cohort, cohort[k], c));
    }
  }

  // ---- Published scores ----------------------------------------------------------------

  lemma PublishedScore(cohort: seq<ProviderInput>, p: ProviderInput)
    requires WellFormed(cohort) && p in cohort
    ensures NonNegative(cohort) && RankOne(cohort, p).status == StatusOf(p)
    ensures RankOne(cohort, p).score ==
            if StatusOf(p).Unranked? then None else Some(Times(Composite(Components, cohort, p), Penalty(p)))
  {
    RowFits(cohort, p);
  }

  ghost predicate SameGate(p: ProviderInput, q: ProviderInput) {
    p.(values := q.values, provider := q.provider) == q
  }

  /** Where only values differ, the published scores compare as the composites do. */
  lemma ScoresCompare(a: seq<ProviderInput>, p: ProviderInput, b: seq<ProviderInput>, q: ProviderInput)
    requires WellFormed(a) && WellFormed(b) && p in a && q in b && SameGate(p, q)
    ensures NonNegative(a) && NonNegative(b) && RankOne(a, p).status == RankOne(b, q).status
    ensures RankOne(a, p).score.None? <==> RankOne(b, q).score.None?
    ensures RankOne(a, p).score.Some? ==>
              (RankOne(b, q).score.value <= RankOne(a, p).score.value <==> Composite(Components, b, q) <= Composite(Components, a, p))
    ensures RankOne(a, p).score.Some? ==>
              (RankOne(a, p).score.value <= RankOne(b, q).score.value <==> Composite(Components, a, p) <= Composite(Components, b, q))
  {
    PublishedScore(a, p);
    PublishedScore(b, q);
    if !StatusOf(p).Unranked? {
      PenaltyInUnit(p);
      TimesOrder(Penalty(p), Composite(Components, a, p), Composite(Components, b, q));
      TimesOrder(Penalty(p), Composite(Components, b, q), Composite(Components, a, p));
    }
  }

  /** A provider's row before and after: the same status, and a score that moves with the change
      of the one component. */
  lemma ScoreFollowsChange(cohort: seq<ProviderInput>, i: nat, c: Component, v: real, k: nat)
    requires Improves(cohort, i, c, v) && k < |cohort|
    ensures NonNegative(cohort) && NonNegative(Improved(cohort, i, c, v))
    ensures var before, now := RankOne(cohort, cohort[k]), RankOne(Improved(cohort, i, c, v), Improved(cohort, i, c, v)[k]);
            && now.status == before.status
            && (now.score.None? <==> before.score.None?)
            && (now.score.Some? ==> (now.score.value > before.score.value <==> Change(cohort, i, c, v, k) > 0.0))
            && (now.score.Some? ==> (now.score.value < before.score.value <==> Change(cohort, i, c, v, k) < 0.0))
  {
    ImprovedIsWellFormed(cohort, i, c, v);
    assert Improved(cohort, i, c, v)[k] in Improved(cohort, i, c, v);
    CompositeChanges(cohort, i, c, v, k);
    ScoresCompare(cohort, cohort[k], Improved(cohort, i, c, v), Improved(cohort, i, c, v)[k]);
  }

  /** Improving a value never lowers the improver's published score. */
  lemma OwnScoreNeverFalls(cohort: seq<ProviderInput>, i: nat, c: Component, v: real)
    requires Improves(cohort, i, c, v)
    ensures NonNegative(cohort) && NonNegative(Improved(cohort, i, c, v))
    ensures var before, now := RankOne(cohort, cohort[i]), RankOne(Improved(cohort, i, c, v), Improved(cohort, i, c, v)[i]);
            (now.score.None? <==> before.score.None?) && (now.score.Some? ==> now.score.value >= before.score.value)
  {
    OwnChange(cohort, i, c, v);
    ScoreFollowsChange(cohort, i, c, v, i);
  }

  /** Another provider's published score rises if and only if the guard raises it; in every other
      case it stays or falls. */
  lemma OthersRiseExactlyWhen(cohort: seq<ProviderInput>, i: nat, c: Component, v: real, k: nat)
    requires Improves(cohort, i, c, v) && k < |cohort| && k != i
    ensures NonNegative(cohort) && NonNegative(Improved(cohort, i, c, v))
    ensures var before, now := RankOne(cohort, cohort[k]), RankOne(Improved(cohort, i, c, v), Improved(cohort, i, c, v)[k]);
            && (now.score.None? <==> before.score.None?)
            && (now.score.Some? ==> (now.score.value > before.score.value <==> RaisesOther(cohort, i, c, v, k)))
  {
    OtherChange(cohort, i, c, v, k);
    ScoreFollowsChange(cohort, i, c, v, k);
  }

  function Sample(provider: nat, mae: real): ProviderInput {
    ProviderInput(provider, map[TempMae := mae], map[], 30, 30, 7, Some(1.0), Some(1.0))
  }

  lemma SampleRaises(cohort: seq<ProviderInput>)
    requires cohort == [Sample(0, 0.0000000005), Sample(1, 1.0)]
    ensures Improves(cohort, 0, TempMae, 0.0) && RaisesOther(cohort, 0, TempMae, 0.0, 1)
  {
    assert InputOk(cohort[0]) && InputOk(cohort[1]);
    var x := Column(cohort, TempMae);
    assert x == [0.0000000005, 1.0];
    ImprovedColumn(cohort, 0, TempMae, 0.0);
    assert x[0 := 0.0][0] == 0.0;
  }

  /** Two providers: the better one's error drops from half the guard to zero, and the other one,
      a full unit away, gains from it. */
  lemma GuardCanRaiseAnother(cohort: seq<ProviderInput>)
    requires cohort == [Sample(0, 0.0000000005), Sample(1, 1.0)]
    ensures Improves(cohort, 0, TempMae, 0.0)
    ensures NonNegative(cohort) && NonNegative(Improved(cohort, 0, TempMae, 0.0))
    ensures var before, now := RankOne(cohort, cohort[1]), RankOne(Improved(cohort, 0, TempMae, 0.0), Improved(cohort, 0, TempMae, 0.0)[1]);
            before.score.Some? && now.score.Some? && now.score.value > before.score.value
  {
    SampleRaises(cohort);
    OthersRiseExactlyWhen(cohort, 0, TempMae, 0.0, 1);
  }
}
