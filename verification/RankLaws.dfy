/** Laws of the composite by component name: the documented formula, freedom of units, relative
    half-widths, and the direction in which each component counts. */
module RankLaws {
  import opened Options
  import opened RealFacts
  import opened Intervals
  import opened Ranking
  import opened RankMonotone

  // ---- Which way each component counts -------------------------------------------------

  /** What each component's score is: errors in proportion to the least, F1 in proportion to the
      greatest, shares as they are; an error column with a zero is moved up by a billionth. */
  lemma NormByName(cohort: seq<ProviderInput>, p: ProviderInput, c: Component)
    requires NonNegative(cohort) && p in cohort && Active(cohort, c)
    ensures c in p.values && Lowest(cohort, c) <= p.values[c] <= Highest(cohort, c)
    ensures IsError(c) && Lowest(cohort, c) > 0.0 ==> Norm(cohort, p, c) == Lowest(cohort, c) / p.values[c]
    ensures IsError(c) && Lowest(cohort, c) == 0.0 ==> Norm(cohort, p, c) == 0.000000001 / (p.values[c] + 0.000000001)
    ensures c == PrecipF1 && Highest(cohort, c) > 0.0 ==> Norm(cohort, p, c) == p.values[c] / Highest(cohort, c)
    ensures c == PrecipF1 && Highest(cohort, c) == 0.0 ==> Norm(cohort, p, c) == 0.0
    ensures !Ratioed(c) ==> Norm(cohort, p, c) == p.values[c]
  {
    ValueInColumn(cohort, p, c);
  }

  // ---- The documented formula ----------------------------------------------------------

  /** Every component is known of every provider, and its least value is positive. */
  ghost predicate AllPositive(cohort: seq<ProviderInput>) {
    forall c :: Active(cohort, c) && Lowest(cohort, c) > 0.0
  }

  lemma PositiveValue(cohort: seq<ProviderInput>, p: ProviderInput, c: Component)
    requires NonNegative(cohort) && p in cohort && AllPositive(cohort)
    ensures Active(cohort, c) && c in p.values && p.values[c] >= Lowest(cohort, c) > 0.0 && Highest(cohort, c) > 0.0
  {
    assert Active(cohort, c) && Lowest(cohort, c) > 0.0;
    ValueInColumn(cohort, p, c);
  }

  /** How close a provider comes to the least error of the cohort. */
  ghost function ToLeast(cohort: seq<ProviderInput>, p: ProviderInput, c: Component): real
    requires NonNegative(cohort) && p in cohort && AllPositive(cohort)
  {
    PositiveValue(cohort, p, c);
    Ratio(Lowest(cohort, c), p.values[c])
  }

  ghost function ToGreatest(cohort: seq<ProviderInput>, p: ProviderInput, c: Component): real
    requires NonNegative(cohort) && p in cohort && AllPositive(cohort)
  {
    PositiveValue(cohort, p, c);
    Ratio(p.values[c], Highest(cohort, c))
  }

  ghost function AsIs(cohort: seq<ProviderInput>, p: ProviderInput, c: Component): real
    requires NonNegative(cohort) && p in cohort && AllPositive(cohort)
  {
    PositiveValue(cohort, p, c);
    p.values[c]
  }

  /** The documented weighted sum. */
  ghost function FullFormula(cohort: seq<ProviderInput>, p: ProviderInput): real
    requires NonNegative(cohort) && p in cohort && AllPositive(cohort)
  {
    Times(0.30, ToLeast(cohort, p, TempMae)) + Times(0.25, ToGreatest(cohort, p, PrecipF1))
    + Times(0.15, ToLeast(cohort, p, RainMae)) + Times(0.15, ToLeast(cohort, p, WindMae))
    + Times(0.05, ToLeast(cohort, p, TempBias))
    + Times(0.05, AsIs(cohort, p, CoverageShare)) + Times(0.05, AsIs(cohort, p, ReliabilityShare))
  }

  lemma FullPart(cohort: seq<ProviderInput>, p: ProviderInput, c: Component)
    requires NonNegative(cohort) && p in cohort && AllPositive(cohort)
    ensures Contribution(cohort, p, c) ==
            Times(WeightOf(c), if IsError(c) then ToLeast(cohort, p, c)
                               else if c == PrecipF1 then ToGreatest(cohort, p, c) else AsIs(cohort, p, c))
  {
    forall d ensures Active(cohort, d) {
      PositiveValue(cohort, p, d);
    }
    PositiveValue(cohort, p, c);
    FullShares(cohort, c);
    NormByName(cohort, p, c);
  }

  lemma FullComposite(cohort: seq<ProviderInput>, p: ProviderInput)
    requires NonNegative(cohort) && p in cohort && AllPositive(cohort)
    ensures Composite(Components, cohort, p) == FullFormula(cohort, p)
  {
    CompositeUnrolled(cohort, p);
    FullPart(cohort, p, TempMae);
    FullPart(cohort, p, PrecipF1);
    FullPart(cohort, p, RainMae);
    FullPart(cohort, p, WindMae);
    FullPart(cohort, p, TempBias);
    FullPart(cohort, p, CoverageShare);
    FullPart(cohort, p, ReliabilityShare);
  }

  /** With every component known and positive the score is the documented weighted sum, reduced in
      proportion when coverage is below four fifths. */
  lemma ScoreIsDocumentedFormula(cohort: seq<ProviderInput>, p: ProviderInput)
    requires WellFormed(cohort) && p in cohort && AllPositive(cohort)
    ensures NonNegative(cohort)
    ensures RankOne(cohort, p).score.Some? ==>
              RankOne(cohort, p).score.value ==
              if p.coverage.Some? && p.coverage.value < 0.8
              then Times(FullFormula(cohort, p), Ratio(p.coverage.value, 0.8)) else FullFormula(cohort, p)
  {
    RowFits(cohort, p);
    FullComposite(cohort, p);
  }

  /** When components are missing, those left keep their documented proportions. */
  lemma SharesKeepProportion(cohort: seq<ProviderInput>, c: Component, d: Component)
    requires Active(cohort, c) && Active(cohort, d)
    ensures WeightShare(cohort, c) * WeightOf(d) == WeightShare(cohort, d) * WeightOf(c)
  {
    ComponentListed(c);
    ActiveWeightCovers(Components, cohort, c);
    Proportion(WeightOf(c), WeightOf(d), ActiveWeight(Components, cohort));
  }

  lemma Proportion(a: real, b: real, total: real)
    requires total > 0.0
    ensures Ratio(a, total) * b == Ratio(b, total) * a
  {
  }

  // ---- Freedom of units ----------------------------------------------------------------

  function ScaledEntry(m: map<Component, real>, c: Component, k: real): map<Component, real> {
    if c in m then m[c := Times(k, m[c])] else m
  }

  /** The same provider with one component told in another unit. */
  function Rescaled(p: ProviderInput, c: Component, k: real): ProviderInput {
    p.(values := ScaledEntry(p.values, c, k), ciHalf := ScaledEntry(p.ciHalf, c, k))
  }

  function RescaledAll(cohort: seq<ProviderInput>, c: Component, k: real): seq<ProviderInput> {
    seq(|cohort|, i requires 0 <= i < |cohort| => Rescaled(cohort[i], c, k))
  }

  lemma RescaledIsNonNegative(cohort: seq<ProviderInput>, c: Component, k: real)
    requires NonNegative(cohort) && k > 0.0
    ensures NonNegative(RescaledAll(cohort, c, k))
    ensures forall d :: Active(cohort, d) <==> Active(RescaledAll(cohort, c, k), d)
  {
    var after := RescaledAll(cohort, c, k);
    forall i, d | 0 <= i < |after| && d in after[i].values ensures after[i].values[d] >= 0.0 {
      assert d in cohort[i].values && cohort[i].values[d] >= 0.0;
    }
    forall d ensures Active(cohort, d) <==> Active(after, d) {
      assert forall i :: 0 <= i < |cohort| ==> (d in cohort[i].values <==> d in after[i].values);
    }
  }

  lemma LeastScales(u: seq<real>, v: seq<real>, k: real)
    requires u != [] && |u| == |v| && k > 0.0 && forall i :: 0 <= i < |u| ==> v[i] == Times(k, u[i])
    ensures Least(v) == Times(k, Least(u))
  {
    var a :| 0 <= a < |u| && u[a] == Least(u);
    var e :| 0 <= e < |v| && v[e] == Least(v);
    assert v[a] in v && u[e] in u;
    TimesOrder(k, u[a], u[e]);
  }

  lemma GreatestScales(u: seq<real>, v: seq<real>, k: real)
    requires u != [] && |u| == |v| && k > 0.0 && forall i :: 0 <= i < |u| ==> v[i] == Times(k, u[i])
    ensures Greatest(v) == Times(k, Greatest(u))
  {
    var b :| 0 <= b < |u| && u[b] == Greatest(u);
    var f :| 0 <= f < |v| && v[f] == Greatest(v);
    assert v[b] in v && u[f] in u;
    TimesOrder(k, u[f], u[b]);
  }

  lemma ExtremesScale(cohort: seq<ProviderInput>, c: Component, k: real)
    requires Active(cohort, c) && Active(RescaledAll(cohort, c, k), c) && k > 0.0
    ensures Lowest(RescaledAll(cohort, c, k), c) == Times(k, Lowest(cohort, c))
    ensures Highest(RescaledAll(cohort, c, k), c) == Times(k, Highest(cohort, c))
  {
    var u, v := Column(cohort, c), Column(RescaledAll(cohort, c, k), c);
    assert forall i :: 0 <= i < |u| ==> v[i] == Times(k, u[i]);
    LeastScales(u, v, k);
    GreatestScales(u, v, k);
  }

  lemma OtherColumnSame(cohort: seq<ProviderInput>, c: Component, k: real, d: Component)
    requires Active(cohort, d) && Active(RescaledAll(cohort, c, k), d) && d != c
    ensures Column(RescaledAll(cohort, c, k), d) == Column(cohort, d)
  {
  }

  lemma QuotientIs(x: real, d: real, q: real)
    requires d != 0.0 && d * q == x
    ensures x / d == q
  {
  }

  lemma QuotientScales(k: real, a: real, b: real)
    requires k > 0.0 && b > 0.0
    ensures k * b > 0.0 && (k * a) / (k * b) == a / b
  {
    ProductSign(k, b);
    var q := a / b;
    QuotientTimes(a, b);
    assert (k * b) * q == k * (b * q);
    QuotientIs(k * a, k * b, q);
  }

  lemma RatioScales(k: real, a: real, b: real)
    requires k > 0.0 && b > 0.0
    ensures Times(k, b) > 0.0 && Ratio(Times(k, a), Times(k, b)) == Ratio(a, b)
  {
    QuotientScales(k, a, b);
    TimesIs(k, a);
    TimesIs(k, b);
    assert Ratio(Times(k, a), Times(k, b)) == (k * a) / (k * b);
  }

  lemma NormScales(cohort: seq<ProviderInput>, i: nat, c: Component, k: real, d: Component)
    requires NonNegative(cohort) && NonNegative(RescaledAll(cohort, c, k)) && k > 0.0 && i < |cohort| && Ratioed(c)
    requires Active(cohort, d) && Active(RescaledAll(cohort, c, k), d)
    requires Active(cohort, c) && IsError(c) ==> Lowest(cohort, c) > 0.0
    ensures RescaledAll(cohort, c, k)[i] in RescaledAll(cohort, c, k)
    ensures Norm(RescaledAll(cohort, c, k), RescaledAll(cohort, c, k)[i], d) == Norm(cohort, cohort[i], d)
  {
    var after := RescaledAll(cohort, c, k);
    assert after[i] in after && cohort[i] in cohort;
    ValueInColumn(cohort, cohort[i], d);
    ValueInColumn(after, after[i], d);
    if d != c {
      OtherColumnSame(cohort, c, k, d);
    } else {
      ExtremesScale(cohort, c, k);
      ScaledNorm(cohort, after, cohort[i], after[i], c, k);
    }
  }

  lemma ScaledNorm(a: seq<ProviderInput>, b: seq<ProviderInput>, p: ProviderInput, q: ProviderInput, c: Component, k: real)
    requires NonNegative(a) && NonNegative(b) && Active(a, c) && Active(b, c) && p in a && q in b && k > 0.0 && Ratioed(c)
    requires c in p.values && c in q.values && q.values[c] == Times(k, p.values[c])
    requires Lowest(b, c) == Times(k, Lowest(a, c)) && Highest(b, c) == Times(k, Highest(a, c))
    requires IsError(c) ==> Lowest(a, c) > 0.0
    ensures Norm(b, q, c) == Norm(a, p, c)
  {
    NormByName(a, p, c);
    NormByName(b, q, c);
    if IsError(c) {
      TimesOrder(k, Lowest(a, c), 0.0);
      RatioScales(k, Lowest(a, c), p.values[c]);
    } else if Highest(a, c) > 0.0 {
      RatioScales(k, p.values[c], Highest(a, c));
    } else {
      ValueInColumn(a, p, c);
      TimesIs(k, Highest(a, c));
    }
  }

  /** The relative half-width of a value has no unit. */
  lemma HalfScales(p: ProviderInput, c: Component, k: real)
    requires c in p.values && p.values[c] >= 0.0 && k > 0.0
    ensures var q := Rescaled(p, c, k);
            && c in q.values && (c in q.ciHalf <==> c in p.ciHalf) && (q.values[c] != 0.0 <==> p.values[c] != 0.0)
            && (c in p.ciHalf && p.values[c] != 0.0 ==>
                  Ratio(q.ciHalf[c], q.values[c]) == Ratio(p.ciHalf[c], p.values[c]))
  {
    if p.values[c] == 0.0 {
      TimesIs(k, p.values[c]);
    } else if c in p.ciHalf {
      RatioScales(k, p.ciHalf[c], p.values[c]);
    } else {
      RatioScales(k, p.values[c], p.values[c]);
    }
  }

  lemma ContributionScales(cohort: seq<ProviderInput>, i: nat, c: Component, k: real, d: Component)
    requires NonNegative(cohort) && NonNegative(RescaledAll(cohort, c, k)) && k > 0.0 && i < |cohort| && Ratioed(c)
    requires forall e :: Active(cohort, e) <==> Active(RescaledAll(cohort, c, k), e)
    requires Active(cohort, c) && IsError(c) ==> Lowest(cohort, c) > 0.0
    ensures RescaledAll(cohort, c, k)[i] in RescaledAll(cohort, c, k)
    ensures Contribution(RescaledAll(cohort, c, k), RescaledAll(cohort, c, k)[i], d) == Contribution(cohort, cohort[i], d)
  {
    var after := RescaledAll(cohort, c, k);
    assert after[i] in after && cohort[i] in cohort;
    WeightIgnoresOrder(Components, cohort, after);
    if Active(cohort, d) {
      NormScales(cohort, i, c, k, d);
    }
  }

  /** Two providers with the same part and the same relative half-width in a component. */
  lemma SameHalf(a: seq<ProviderInput>, p: ProviderInput, b: seq<ProviderInput>, q: ProviderInput, d: Component)
    requires NonNegative(a) && NonNegative(b) && p in a && q in b && (Active(a, d) <==> Active(b, d))
    requires Contribution(b, q, d) == Contribution(a, p, d)
    requires Active(a, d) ==>
               && d in p.values && d in q.values
               && (d in q.ciHalf <==> d in p.ciHalf) && (q.values[d] != 0.0 <==> p.values[d] != 0.0)
               && (d in p.ciHalf && p.values[d] != 0.0 ==> Ratio(q.ciHalf[d], q.values[d]) == Ratio(p.ciHalf[d], p.values[d]))
    ensures HalfContribution(b, q, d) == HalfContribution(a, p, d)
  {
  }

  lemma ComponentScales(cohort: seq<ProviderInput>, i: nat, c: Component, k: real, d: Component)
    requires NonNegative(cohort) && NonNegative(RescaledAll(cohort, c, k)) && k > 0.0 && i < |cohort| && Ratioed(c)
    requires forall e :: Active(cohort, e) <==> Active(RescaledAll(cohort, c, k), e)
    requires Active(cohort, c) && IsError(c) ==> Lowest(cohort, c) > 0.0
    ensures RescaledAll(cohort, c, k)[i] in RescaledAll(cohort, c, k)
    ensures Contribution(RescaledAll(cohort, c, k), RescaledAll(cohort, c, k)[i], d) == Contribution(cohort, cohort[i], d)
    ensures HalfContribution(RescaledAll(cohort, c, k), RescaledAll(cohort, c, k)[i], d) == HalfContribution(cohort, cohort[i], d)
  {
    var after := RescaledAll(cohort, c, k);
    ContributionScales(cohort, i, c, k, d);
    assert after[i] in after && cohort[i] in cohort;
    if Active(cohort, d) {
      ValueInColumn(cohort, cohort[i], d);
      if d == c {
        HalfScales(cohort[i], c, k);
      }
    }
    SameHalf(cohort, cohort[i], after, after[i], d);
  }

  lemma {:induction false} SumsAgree(cs: seq<Component>, a: seq<ProviderInput>, p: ProviderInput, b: seq<ProviderInput>, q: ProviderInput)
    requires NonNegative(a) && NonNegative(b) && p in a && q in b
    requires forall c {:trigger Contribution(b, q, c)} :: Contribution(b, q, c) == Contribution(a, p, c)
    requires forall c {:trigger HalfContribution(b, q, c)} :: HalfContribution(b, q, c) == HalfContribution(a, p, c)
    ensures Composite(cs, b, q) == Composite(cs, a, p) && CompositeHalf(cs, b, q) == CompositeHalf(cs, a, p)
  {
    if cs != [] {
      SumsAgree(cs[..|cs| - 1], a, p, b, q);
    }
  }

  /** Telling one ratio component in another unit, values and half-widths alike, changes no provider's
      score, interval or status, as long as its least error is positive. */
  lemma UnitsDoNotMatter(cohort: seq<ProviderInput>, i: nat, c: Component, k: real)
    requires NonNegative(cohort) && i < |cohort| && Ratioed(c) && k > 0.0
    requires Active(cohort, c) && IsError(c) ==> Lowest(cohort, c) > 0.0
    ensures var after := RescaledAll(cohort, c, k);
            && NonNegative(after) && after[i] in after
            && SameResult(RankOne(cohort, cohort[i]), RankOne(after, after[i]))
  {
    var after := RescaledAll(cohort, c, k);
    RescaledIsNonNegative(cohort, c, k);
    assert after[i] in after && cohort[i] in cohort;
    SumsScale(cohort, i, c, k);
    SameSumsSameResult(cohort, cohort[i], after, after[i]);
  }

  lemma SumsScale(cohort: seq<ProviderInput>, i: nat, c: Component, k: real)
    requires NonNegative(cohort) && NonNegative(RescaledAll(cohort, c, k)) && k > 0.0 && i < |cohort| && Ratioed(c)
    requires forall e :: Active(cohort, e) <==> Active(RescaledAll(cohort, c, k), e)
    requires Active(cohort, c) && IsError(c) ==> Lowest(cohort, c) > 0.0
    ensures var after := RescaledAll(cohort, c, k);
            && after[i] in after
            && Composite(Components, after, after[i]) == Composite(Components, cohort, cohort[i])
            && CompositeHalf(Components, after, after[i]) == CompositeHalf(Components, cohort, cohort[i])
  {
    var after := RescaledAll(cohort, c, k);
    assert after[i] in after && cohort[i] in cohort;
    forall d
      ensures Contribution(after, after[i], d) == Contribution(cohort, cohort[i], d)
      ensures HalfContribution(after, after[i], d) == HalfContribution(cohort, cohort[i], d)
    {
      ComponentScales(cohort, i, c, k, d);
    }
    SumsAgree(Components, cohort, cohort[i], after, after[i]);
  }

  lemma SameSumsSameResult(a: seq<ProviderInput>, p: ProviderInput, b: seq<ProviderInput>, q: ProviderInput)
    requires NonNegative(a) && NonNegative(b) && p in a && q in b
    requires q == p.(values := q.values, ciHalf := q.ciHalf)
    requires Composite(Components, b, q) == Composite(Components, a, p)
    requires CompositeHalf(Components, b, q) == CompositeHalf(Components, a, p)
    ensures SameResult(RankOne(a, p), RankOne(b, q))
  {
    assert StatusOf(q) == StatusOf(p) && Penalty(q) == Penalty(p);
  }

  /** Everything but the raw values of the breakdown. */
  predicate SameResult(r: ProviderRanking, s: ProviderRanking) {
    s == r.(breakdown := s.breakdown)
  }

  // ---- Half-widths ---------------------------------------------------------------------

  /** What a line of the breakdown adds to the score. */
  function LineScore(line: ComponentScore): real {
    if line.excluded || line.normalized.None? then 0.0 else Times(line.weight, line.normalized.value)
  }

  /** What it adds to the half-width: its score times the relative half-width of its own value. */
  function LineHalf(line: ComponentScore, p: ProviderInput): real {
    var c := line.component;
    if !line.excluded && Ratioed(c) && c in p.ciHalf && c in p.values && p.values[c] != 0.0
    then Times(LineScore(line), Ratio(p.ciHalf[c], p.values[c]))
    else 0.0
  }

  function ScoreOfLines(lines: seq<ComponentScore>): real {
    if lines == [] then 0.0 else ScoreOfLines(lines[..|lines| - 1]) + LineScore(lines[|lines| - 1])
  }

  function HalfOfLines(lines: seq<ComponentScore>, p: ProviderInput): real {
    if lines == [] then 0.0 else HalfOfLines(lines[..|lines| - 1], p) + LineHalf(lines[|lines| - 1], p)
  }

  lemma LineSays(cohort: seq<ProviderInput>, p: ProviderInput, c: Component)
    requires NonNegative(cohort) && p in cohort
    ensures LineScore(ScoreOf(cohort, p, c)) == Contribution(cohort, p, c)
    ensures LineHalf(ScoreOf(cohort, p, c), p) == HalfContribution(cohort, p, c)
  {
    if Active(cohort, c) {
      ValueInColumn(cohort, p, c);
    }
  }

  lemma {:induction false} LinesAddUp(cs: seq<Component>, cohort: seq<ProviderInput>, p: ProviderInput)
    requires NonNegative(cohort) && p in cohort
    ensures ScoreOfLines(Breakdown(cs, cohort, p)) == Composite(cs, cohort, p)
    ensures HalfOfLines(Breakdown(cs, cohort, p), p) == CompositeHalf(cs, cohort, p)
  {
    if cs != [] {
      var n := |cs| - 1;
      LinesAddUp(cs[..n], cohort, p);
      LineSays(cohort, p, cs[n]);
      assert Breakdown(cs, cohort, p)[..|Breakdown(cs, cohort, p)| - 1] == Breakdown(cs[..n], cohort, p);
    }
  }

  function AtLeastZero(x: real): real { if x < 0.0 then 0.0 else x }
  function AtMostOne(x: real): real { if x > 1.0 then 1.0 else x }

  function CoverageFactor(p: ProviderInput): real {
    if p.coverage.Some? && p.coverage.value < 0.8 then Ratio(p.coverage.value, 0.8) else 1.0
  }

  /** The published score and interval follow from the published breakdown: the scores of its lines
      add up, and so do their half-widths. */
  lemma IntervalAddsUp(cohort: seq<ProviderInput>, p: ProviderInput)
    requires WellFormed(cohort) && p in cohort
    ensures NonNegative(cohort)
    ensures var r := RankOne(cohort, p);
            var half := Times(HalfOfLines(r.breakdown, p), CoverageFactor(p));
            r.score.Some? ==>
              && r.score.value == Times(ScoreOfLines(r.breakdown), CoverageFactor(p))
              && (r.ci.Some? <==> half > 0.0)
              && (r.ci.Some? ==> r.ci.value == Interval(AtLeastZero(r.score.value - half), AtMostOne(r.score.value + half)))
  {
    RowFits(cohort, p);
    LinesAddUp(Components, cohort, p);
    PublishedEnds(cohort, p);
  }

  /** The ends of a published interval, in terms of the score and the half-width. */
  lemma PublishedEnds(cohort: seq<ProviderInput>, p: ProviderInput)
    requires WellFormed(cohort) && p in cohort
    ensures NonNegative(cohort)
    ensures var r, half := RankOne(cohort, p), PenalisedHalf(cohort, p);
            r.score.Some? ==>
              && r.score.value == PenalisedScore(cohort, p)
              && (r.ci.Some? <==> half > 0.0)
              && (r.ci.Some? ==> r.ci.value == Interval(AtLeastZero(r.score.value - half), AtMostOne(r.score.value + half)))
  {
    RowFits(cohort, p);
    HalfNonNegative(Components, cohort, p);
    PenaltyInUnit(p);
  }

  lemma {:induction false} OnlyOne(cs: seq<Component>, cohort: seq<ProviderInput>, p: ProviderInput, c: Component)
    requires NonNegative(cohort) && p in cohort && Distinct(cs) && forall d :: d != c ==> !Active(cohort, d)
    ensures Composite(cs, cohort, p) == if c in cs then Contribution(cohort, p, c) else 0.0
    ensures CompositeHalf(cs, cohort, p) == if c in cs then HalfContribution(cohort, p, c) else 0.0
  {
    if cs != [] {
      var n := |cs| - 1;
      OnlyOne(cs[..n], cohort, p, c);
      assert c in cs <==> c in cs[..n] || c == cs[n];
      assert c == cs[n] ==> c !in cs[..n];
    }
  }

  /** A half-width is to a score as another half-width is to a value. */
  predicate InProportion(half: real, score: real, h: real, v: real) {
    half * v == score * h
  }

  lemma RelativeHalf(part: real, h: real, v: real, factor: real)
    requires v > 0.0
    ensures InProportion(Times(Times(part, Ratio(h, v)), factor), Times(part, factor), h, v)
  {
    QuotientTimes(h, v);
    var q := h / v;
    assert part * q * factor * v == part * factor * (v * q);
  }

  /** With one active component that is a ratio, the published half-width is to the score as the
      component's own half-width is to its value, at every end that is not cut off. */
  lemma HalfWidthIsRelative(cohort: seq<ProviderInput>, p: ProviderInput, c: Component)
    requires WellFormed(cohort) && p in cohort && Active(cohort, c) && Ratioed(c)
    requires forall d :: d != c ==> !Active(cohort, d)
    requires c in p.values && p.values[c] > 0.0 && c in p.ciHalf && p.ciHalf[c] > 0.0
    ensures NonNegative(cohort)
    ensures var r := RankOne(cohort, p);
            r.score.Some? && r.ci.Some? ==>
              && (r.ci.value.lower > 0.0 ==>
                    InProportion(r.score.value - r.ci.value.lower, r.score.value, p.ciHalf[c], p.values[c]))
              && (r.ci.value.upper < 1.0 ==>
                    InProportion(r.ci.value.upper - r.score.value, r.score.value, p.ciHalf[c], p.values[c]))
  {
    PublishedEnds(cohort, p);
    OneRelativeHalf(cohort, p, c);
    var r, half := RankOne(cohort, p), PenalisedHalf(cohort, p);
    if r.score.Some? && r.ci.Some? {
      if r.ci.value.lower > 0.0 {
        assert r.score.value - r.ci.value.lower == half;
      }
      if r.ci.value.upper < 1.0 {
        assert r.ci.value.upper - r.score.value == half;
      }
    }
  }

  lemma OneRelativeHalf(cohort: seq<ProviderInput>, p: ProviderInput, c: Component)
    requires NonNegative(cohort) && p in cohort && Active(cohort, c) && Ratioed(c)
    requires forall d :: d != c ==> !Active(cohort, d)
    requires c in p.values && p.values[c] > 0.0 && c in p.ciHalf
    ensures InProportion(PenalisedHalf(cohort, p), PenalisedScore(cohort, p), p.ciHalf[c], p.values[c])
  {
    ComponentListed(c);
    OnlyOne(Components, cohort, p, c);
    RelativeHalf(Contribution(cohort, p, c), p.ciHalf[c], p.values[c], Penalty(p));
  }
}
