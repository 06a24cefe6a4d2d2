/** The composite ranking of a cohort of providers: ratio-to-best normalisation, redistribution of
    the weight of missing components, coverage penalty, status, and a first-order interval. */
module Ranking {
  import opened Options
  import opened RealFacts
  import opened Intervals

  datatype Component = TempMae | PrecipF1 | RainMae | WindMae | TempBias | CoverageShare | ReliabilityShare

  datatype Direction = LowerBetter | HigherBetter | Direct

  const Components: seq<Component> :=
    [TempMae, PrecipF1, RainMae, WindMae, TempBias, CoverageShare, ReliabilityShare]

  function WeightOf(c: Component): (w: real)
    ensures w > 0.0
  {
    match c
    case TempMae => 0.30
    case PrecipF1 => 0.25
    case RainMae => 0.15
    case WindMae => 0.15
    case TempBias => 0.05
    case CoverageShare => 0.05
    case ReliabilityShare => 0.05
  }

  function DirectionOf(c: Component): Direction {
    match c
    case TempMae => LowerBetter
    case PrecipF1 => HigherBetter
    case RainMae => LowerBetter
    case WindMae => LowerBetter
    case TempBias => LowerBetter
    case CoverageShare => Direct
    case ReliabilityShare => Direct
  }

  /** Keeps the ratio to the best defined when the best is zero. */
  const Epsilon := 0.000000001

  datatype Status = Ranked | Provisional | Unranked

  /** One provider's inputs; a component or half-width that is null has no entry. */
  datatype ProviderInput = ProviderInput(
    provider: nat, values: map<Component, real>, ciHalf: map<Component, real>,
    tempSample: int, precipSample: int, days: int,
    coverage: Option<real>, reliability: Option<real>)

  datatype ComponentScore = ComponentScore(
    component: Component, value: Option<real>, normalized: Option<real>, weight: real, excluded: bool)

  datatype ProviderRanking = ProviderRanking(
    provider: nat, score: Option<real>, ci: Option<Interval>, status: Status, sample: int,
    coverage: Option<real>, reliability: Option<real>, breakdown: seq<ComponentScore>)

  // ---- Extremes ------------------------------------------------------------------------

  function Least(v: seq<real>): (m: real)
    requires v != []
    ensures m in v && forall x :: x in v ==> m <= x
  {
    if |v| == 1 then v[0]
    else
      var m := Least(v[..|v| - 1]);
      var x := v[|v| - 1];
      assert v == v[..|v| - 1] + [x];
      if x < m then x else m
  }

  function Greatest(v: seq<real>): (m: real)
    requires v != []
    ensures m in v && forall x :: x in v ==> x <= m
  {
    if |v| == 1 then v[0]
    else
      var m := Greatest(v[..|v| - 1]);
      var x := v[|v| - 1];
      assert v == v[..|v| - 1] + [x];
      if x > m then x else m
  }

  method MinOf(v: seq<real>) returns (m: real)
    requires v != []
    ensures m == Least(v)
  {
    m := v[0];
    for i := 1 to |v|
      invariant m in v[..i] && forall x :: x in v[..i] ==> m <= x
    {
      assert v[..i + 1] == v[..i] + [v[i]];
      if v[i] < m {
        m := v[i];
      }
    }
    assert v[..|v|] == v;
  }

  method MaxOf(v: seq<real>) returns (m: real)
    requires v != []
    ensures m == Greatest(v)
  {
    m := v[0];
    for i := 1 to |v|
      invariant m in v[..i] && forall x :: x in v[..i] ==> x <= m
    {
      assert v[..i + 1] == v[..i] + [v[i]];
      if v[i] > m {
        m := v[i];
      }
    }
    assert v[..|v|] == v;
  }

  // ---- Active components and their weights ---------------------------------------------

  /** A component counts only if every provider of the cohort has a value for it. */
  predicate Active(cohort: seq<ProviderInput>, c: Component) {
    cohort != [] && forall i :: 0 <= i < |cohort| ==> c in cohort[i].values
  }

  /** The total weight of the active components of a list. */
  function ActiveWeight(cs: seq<Component>, cohort: seq<ProviderInput>): (w: real)
    ensures w >= 0.0
  {
    if cs == [] then 0.0
    else
      var c := cs[|cs| - 1];
      ActiveWeight(cs[..|cs| - 1], cohort) + (if Active(cohort, c) then WeightOf(c) else 0.0)
  }

  lemma {:induction false} ActiveWeightCovers(cs: seq<Component>, cohort: seq<ProviderInput>, c: Component)
    requires c in cs && Active(cohort, c)
    ensures ActiveWeight(cs, cohort) > 0.0
  {
    var n := |cs| - 1;
    if c != cs[n] {
      assert c in cs[..n];
      ActiveWeightCovers(cs[..n], cohort, c);
    }
  }

  lemma ComponentListed(c: Component)
    ensures c in Components
  {
    var i := match c
      case TempMae => 0
      case PrecipF1 => 1
      case RainMae => 2
      case WindMae => 3
      case TempBias => 4
      case CoverageShare => 5
      case ReliabilityShare => 6;
    assert Components[i] == c;
  }

  /** A component's weight after redistribution over the active ones. */
  function WeightShare(cohort: seq<ProviderInput>, c: Component): (w: real)
    ensures w >= 0.0 && (w > 0.0 <==> Active(cohort, c))
  {
    if Active(cohort, c) then
      ComponentListed(c);
      ActiveWeightCovers(Components, cohort, c);
      QuotientSign(WeightOf(c), ActiveWeight(Components, cohort));
      Ratio(WeightOf(c), ActiveWeight(Components, cohort))
    else 0.0
  }

  function TotalShare(cs: seq<Component>, cohort: seq<ProviderInput>): real {
    if cs == [] then 0.0 else TotalShare(cs[..|cs| - 1], cohort) + WeightShare(cohort, cs[|cs| - 1])
  }

  lemma {:induction false} TotalShareScaled(cs: seq<Component>, cohort: seq<ProviderInput>, total: real)
    requires total == ActiveWeight(Components, cohort) > 0.0
    ensures TotalShare(cs, cohort) == Ratio(ActiveWeight(cs, cohort), total)
  {
    if cs != [] {
      var n := |cs| - 1;
      TotalShareScaled(cs[..n], cohort, total);
      RatioAdds(ActiveWeight(cs[..n], cohort), if Active(cohort, cs[n]) then WeightOf(cs[n]) else 0.0, total);
    }
  }

  lemma RatioAdds(a: real, b: real, d: real)
    requires d > 0.0
    ensures Ratio(a, d) + Ratio(b, d) == Ratio(a + b, d)
  {
  }

  /** The redistributed weights add up to one whenever any component is active. */
  lemma WeightsAddToOne(cohort: seq<ProviderInput>, c: Component)
    requires Active(cohort, c)
    ensures TotalShare(Components, cohort) == 1.0
  {
    ComponentListed(c);
    ActiveWeightCovers(Components, cohort, c);
    TotalShareScaled(Components, cohort, ActiveWeight(Components, cohort));
    RatioSelf(ActiveWeight(Components, cohort));
  }

  // ---- Normalisation -------------------------------------------------------------------

  ghost predicate NonNegative(cohort: seq<ProviderInput>) {
    forall i, c :: 0 <= i < |cohort| && c in cohort[i].values ==> cohort[i].values[c] >= 0.0
  }

  function Column(cohort: seq<ProviderInput>, c: Component): (v: seq<real>)
    requires Active(cohort, c)
    ensures |v| == |cohort| && forall i :: 0 <= i < |v| ==> v[i] == cohort[i].values[c]
  {
    seq(|cohort|, i requires 0 <= i < |cohort| => cohort[i].values[c])
  }

  /** The least and greatest value of an active component over the cohort. */
  function Lowest(cohort: seq<ProviderInput>, c: Component): real
    requires Active(cohort, c)
  {
    Least(Column(cohort, c))
  }

  function Highest(cohort: seq<ProviderInput>, c: Component): real
    requires Active(cohort, c)
  {
    Greatest(Column(cohort, c))
  }

  /** Moves a lower-better column off zero when its least value is zero. */
  function ShiftFor(lowest: real): real {
    if lowest == 0.0 then Epsilon else 0.0
  }

  function Normalize(d: Direction, value: real, best: real, shift: real): real
    requires d.LowerBetter? ==> value + shift != 0.0
  {
    match d
    case LowerBetter => Ratio(best, value + shift)
    case HigherBetter => if best == 0.0 then 0.0 else Ratio(value, best)
    case Direct => value
  }

  /** The normalised score of a value against the extremes of its column. */
  function Score(d: Direction, value: real, lowest: real, highest: real): real
    requires value >= lowest >= 0.0
  {
    match d
    case LowerBetter => Normalize(d, value, lowest + ShiftFor(lowest), ShiftFor(lowest))
    case HigherBetter => Normalize(d, value, highest, 0.0)
    case Direct => value
  }

  lemma ScoreInUnit(d: Direction, value: real, lowest: real, highest: real)
    requires 0.0 <= lowest <= value <= highest && (d.Direct? ==> value <= 1.0)
    ensures 0.0 <= Score(d, value, lowest, highest) <= 1.0
  {
    match d
    case LowerBetter =>
      var shift := ShiftFor(lowest);
      RatioInUnit(lowest + shift, value + shift);
    case HigherBetter =>
      if highest != 0.0 {
        RatioInUnit(value, highest);
      }
    case Direct =>
  }

  /** A provider's value of an active component lies between the column's extremes. */
  lemma ValueInColumn(cohort: seq<ProviderInput>, p: ProviderInput, c: Component)
    requires NonNegative(cohort) && Active(cohort, c) && p in cohort
    ensures c in p.values && 0.0 <= Lowest(cohort, c) <= p.values[c] <= Highest(cohort, c)
  {
    var v := Column(cohort, c);
    var i :| 0 <= i < |cohort| && cohort[i] == p;
    assert v[i] == p.values[c] && v[i] in v;
    var k :| 0 <= k < |v| && v[k] == Least(v);
    assert cohort[k].values[c] >= 0.0;
  }

  /** The normalised score of one provider in one active component. */
  function Norm(cohort: seq<ProviderInput>, p: ProviderInput, c: Component): real
    requires NonNegative(cohort) && p in cohort && Active(cohort, c)
  {
    ValueInColumn(cohort, p, c);
    Score(DirectionOf(c), p.values[c], Lowest(cohort, c), Highest(cohort, c))
  }

  lemma PartOfWhole(w: real, x: real)
    ensures w >= 0.0 && x >= 0.0 ==> w * x >= 0.0
    ensures w >= 0.0 && 0.0 <= x <= 1.0 ==> w * x <= w
  {
    ProductSign(w, x);
    ProductSign(w, 1.0 - x);
    assert w * (1.0 - x) == w - w * x;
  }

  /** A product, named, with its sign and bound. */
  function Times(w: real, x: real): (r: real)
    ensures w >= 0.0 && x >= 0.0 ==> r >= 0.0
    ensures w >= 0.0 && 0.0 <= x <= 1.0 ==> r <= w
  {
    PartOfWhole(w, x);
    w * x
  }

  /** The best value of a ratio component scores exactly one; if the highest is zero, all score zero. */
  lemma BestScoresOne(cohort: seq<ProviderInput>, p: ProviderInput, c: Component)
    requires NonNegative(cohort) && p in cohort && Active(cohort, c) && c in p.values
    ensures c in {TempMae, RainMae, WindMae, TempBias} && p.values[c] == Lowest(cohort, c) ==> Norm(cohort, p, c) == 1.0
    ensures c == PrecipF1 && p.values[c] == Highest(cohort, c) > 0.0 ==> Norm(cohort, p, c) == 1.0
    ensures c == PrecipF1 && Highest(cohort, c) == 0.0 ==> Norm(cohort, p, c) == 0.0
  {
    ValueInColumn(cohort, p, c);
    if DirectionOf(c).LowerBetter? {
      RatioSelf(Lowest(cohort, c) + ShiftFor(Lowest(cohort, c)));
    } else if DirectionOf(c).HigherBetter? && Highest(cohort, c) > 0.0 {
      RatioSelf(Highest(cohort, c));
    }
  }

  /** What an active component adds to the composite; an excluded one adds nothing. */
  function Contribution(cohort: seq<ProviderInput>, p: ProviderInput, c: Component): real
    requires NonNegative(cohort) && p in cohort
  {
    if Active(cohort, c) then Times(WeightShare(cohort, c), Norm(cohort, p, c)) else 0.0
  }

  function Composite(cs: seq<Component>, cohort: seq<ProviderInput>, p: ProviderInput): real
    requires NonNegative(cohort) && p in cohort
  {
    if cs == [] then 0.0 else Composite(cs[..|cs| - 1], cohort, p) + Contribution(cohort, p, cs[|cs| - 1])
  }

  /** How much of the composite's half-width a component's own relative half-width explains. */
  function HalfContribution(cohort: seq<ProviderInput>, p: ProviderInput, c: Component): real
    requires NonNegative(cohort) && p in cohort
  {
    if Active(cohort, c) && c in p.ciHalf && !DirectionOf(c).Direct? && p.values[c] != 0.0
    then Times(Contribution(cohort, p, c), Ratio(p.ciHalf[c], p.values[c]))
    else 0.0
  }

  function CompositeHalf(cs: seq<Component>, cohort: seq<ProviderInput>, p: ProviderInput): real
    requires NonNegative(cohort) && p in cohort
  {
    if cs == [] then 0.0 else CompositeHalf(cs[..|cs| - 1], cohort, p) + HalfContribution(cohort, p, cs[|cs| - 1])
  }

  // ---- Status, penalty, row ------------------------------------------------------------

  function CoverageOrZero(p: ProviderInput): real {
    if p.coverage.Some? then p.coverage.value else 0.0
  }

  function StatusOf(p: ProviderInput): (s: Status)
    ensures s.Ranked? <==> p.tempSample >= 30 && p.precipSample >= 30 && p.days >= 7 && CoverageOrZero(p) >= 0.8
    ensures s.Unranked? <==> p.tempSample < 10 || p.precipSample < 10 || CoverageOrZero(p) < 0.5
  {
    var cov := CoverageOrZero(p);
    if p.tempSample < 10 || p.precipSample < 10 || cov < 0.5 then Unranked
    else if p.tempSample < 30 || p.precipSample < 30 || cov < 0.8 || p.days < 7 then Provisional
    else Ranked
  }

  /** The factor that low coverage applies to the composite and its half-width. */
  function Penalty(p: ProviderInput): real {
    if p.coverage.Some? && p.coverage.value < 0.8 then Ratio(p.coverage.value, 0.8) else 1.0
  }

  function Clamp01(x: real): real {
    if x < 0.0 then 0.0 else if x > 1.0 then 1.0 else x
  }

  function PenalisedScore(cohort: seq<ProviderInput>, p: ProviderInput): real
    requires NonNegative(cohort) && p in cohort
  {
    Times(Composite(Components, cohort, p), Penalty(p))
  }

  function PenalisedHalf(cohort: seq<ProviderInput>, p: ProviderInput): real
    requires NonNegative(cohort) && p in cohort
  {
    Times(CompositeHalf(Components, cohort, p), Penalty(p))
  }

  /** One line of the breakdown: the redistributed weight and the normalised score, or exclusion. */
  function ScoreOf(cohort: seq<ProviderInput>, p: ProviderInput, c: Component): ComponentScore
    requires NonNegative(cohort) && p in cohort
  {
    if Active(cohort, c) then
      ComponentScore(c, Some(p.values[c]), Some(Norm(cohort, p, c)), WeightShare(cohort, c), false)
    else
      ComponentScore(c, if c in p.values then Some(p.values[c]) else None, None, WeightOf(c), true)
  }

  function Breakdown(cs: seq<Component>, cohort: seq<ProviderInput>, p: ProviderInput): seq<ComponentScore>
    requires NonNegative(cohort) && p in cohort
  {
    if cs == [] then []
    else
      var c := cs[|cs| - 1];
      Breakdown(cs[..|cs| - 1], cohort, p) + [ScoreOf(cohort, p, c)]
  }

  /** The row a provider gets in a cohort. */
  function RankOne(cohort: seq<ProviderInput>, p: ProviderInput): ProviderRanking
    requires NonNegative(cohort) && p in cohort
  {
    var sample := if p.tempSample < p.precipSample then p.tempSample else p.precipSample;
    var breakdown := Breakdown(Components, cohort, p);
    if StatusOf(p).Unranked? then
      ProviderRanking(p.provider, None, None, Unranked, sample, p.coverage, p.reliability, breakdown)
    else
      var composite := Clamp01(PenalisedScore(cohort, p));
      var half := PenalisedHalf(cohort, p);
      var ci := if half > 0.0 then Some(Interval(Clamp01(composite - half), Clamp01(composite + half))) else None;
      ProviderRanking(p.provider, Some(composite), ci, StatusOf(p), sample, p.coverage, p.reliability, breakdown)
  }

  // ---- What every row satisfies --------------------------------------------------------

  ghost predicate InputOk(p: ProviderInput) {
    (forall c :: c in p.values ==> 0.0 <= p.values[c] && (DirectionOf(c).Direct? ==> p.values[c] <= 1.0)) &&
    (forall c :: c in p.ciHalf ==> 0.0 <= p.ciHalf[c]) &&
    (p.coverage.Some? ==> 0.0 <= p.coverage.value <= 1.0)
  }

  /** Non-negative values and half-widths, with shares in [0, 1]. */
  ghost predicate WellFormed(cohort: seq<ProviderInput>) {
    forall i :: 0 <= i < |cohort| ==> InputOk(cohort[i])
  }

  lemma NormInUnit(cohort: seq<ProviderInput>, p: ProviderInput, c: Component)
    requires WellFormed(cohort) && p in cohort && Active(cohort, c)
    ensures NonNegative(cohort) && 0.0 <= Norm(cohort, p, c) <= 1.0
  {
    ValueInColumn(cohort, p, c);
    ScoreInUnit(DirectionOf(c), p.values[c], Lowest(cohort, c), Highest(cohort, c));
  }

  lemma ContributionWithinShare(cohort: seq<ProviderInput>, p: ProviderInput, c: Component)
    requires WellFormed(cohort) && p in cohort
    ensures NonNegative(cohort) && 0.0 <= Contribution(cohort, p, c) <= WeightShare(cohort, c)
  {
    if Active(cohort, c) {
      NormInUnit(cohort, p, c);
    }
  }

  lemma {:induction false} CompositeWithinShares(cs: seq<Component>, cohort: seq<ProviderInput>, p: ProviderInput)
    requires WellFormed(cohort) && p in cohort
    ensures NonNegative(cohort) && 0.0 <= Composite(cs, cohort, p) <= TotalShare(cs, cohort)
  {
    if cs != [] {
      CompositeWithinShares(cs[..|cs| - 1], cohort, p);
      ContributionWithinShare(cohort, p, cs[|cs| - 1]);
    }
  }

  lemma {:induction false} NoShares(cs: seq<Component>, cohort: seq<ProviderInput>)
    requires forall c :: c in cs ==> !Active(cohort, c)
    ensures TotalShare(cs, cohort) == 0.0
  {
    if cs != [] {
      NoShares(cs[..|cs| - 1], cohort);
    }
  }

  lemma CompositeInUnit(cohort: seq<ProviderInput>, p: ProviderInput)
    requires WellFormed(cohort) && p in cohort
    ensures NonNegative(cohort) && 0.0 <= Composite(Components, cohort, p) <= 1.0
  {
    CompositeWithinShares(Components, cohort, p);
    if c :| c in Components && Active(cohort, c) {
      WeightsAddToOne(cohort, c);
    } else {
      NoShares(Components, cohort);
    }
  }

  lemma {:induction false} HalfNonNegative(cs: seq<Component>, cohort: seq<ProviderInput>, p: ProviderInput)
    requires WellFormed(cohort) && p in cohort
    ensures NonNegative(cohort) && CompositeHalf(cs, cohort, p) >= 0.0
  {
    if cs != [] {
      var c := cs[|cs| - 1];
      HalfNonNegative(cs[..|cs| - 1], cohort, p);
      ContributionWithinShare(cohort, p, c);
      if Active(cohort, c) && c in p.ciHalf && p.values[c] != 0.0 {
        QuotientSign(p.ciHalf[c], p.values[c]);
      }
    }
  }

  lemma PenaltyInUnit(p: ProviderInput)
    requires InputOk(p)
    ensures 0.0 <= Penalty(p) <= 1.0
    ensures !StatusOf(p).Unranked? ==> Penalty(p) > 0.0
  {
    if p.coverage.Some? && p.coverage.value < 0.8 {
      RatioInUnit(p.coverage.value, 0.8);
      QuotientSign(p.coverage.value, 0.8);
    }
  }

  /** Every published row: a score exactly when not unranked; the penalised composite already in
      [0, 1], so the clamp changes nothing; and an interval in [0, 1] around the score. */
  lemma RowFits(cohort: seq<ProviderInput>, p: ProviderInput)
    requires WellFormed(cohort) && p in cohort
    ensures NonNegative(cohort)
    ensures var r := RankOne(cohort, p);
            && (r.score.None? <==> r.status.Unranked?)
            && (r.score.Some? ==> r.score.value == PenalisedScore(cohort, p) && 0.0 <= r.score.value <= 1.0)
            && (r.ci.Some? ==> r.score.Some? && 0.0 <= r.ci.value.lower <= r.score.value <= r.ci.value.upper <= 1.0)
  {
    CompositeInUnit(cohort, p);
    PenaltyInUnit(p);
    HalfNonNegative(Components, cohort, p);
  }

  // ---- The documented weights ----------------------------------------------------------

  lemma CompositePush(cs: seq<Component>, c: Component, cohort: seq<ProviderInput>, p: ProviderInput)
    requires NonNegative(cohort) && p in cohort
    ensures Composite(cs + [c], cohort, p) == Composite(cs, cohort, p) + Contribution(cohort, p, c)
  {
    assert (cs + [c])[..|cs + [c]| - 1] == cs;
  }

  lemma WeightPush(cs: seq<Component>, c: Component, cohort: seq<ProviderInput>)
    requires Active(cohort, c)
    ensures ActiveWeight(cs + [c], cohort) == ActiveWeight(cs, cohort) + WeightOf(c)
  {
    assert (cs + [c])[..|cs + [c]| - 1] == cs;
  }

  lemma AllWeights(cohort: seq<ProviderInput>)
    requires forall c :: Active(cohort, c)
    ensures ActiveWeight(Components, cohort) == 1.0
  {
    var cs := [TempMae];
    WeightPush([], TempMae, cohort);
    WeightPush(cs, PrecipF1, cohort);
    cs := cs + [PrecipF1];
    WeightPush(cs, RainMae, cohort);
    cs := cs + [RainMae];
    WeightPush(cs, WindMae, cohort);
    cs := cs + [WindMae];
    WeightPush(cs, TempBias, cohort);
    cs := cs + [TempBias];
    WeightPush(cs, CoverageShare, cohort);
    cs := cs + [CoverageShare];
    WeightPush(cs, ReliabilityShare, cohort);
    assert cs + [ReliabilityShare] == Components;
  }

  /** With every component present the documented weights apply unscaled. */
  lemma FullShares(cohort: seq<ProviderInput>, c: Component)
    requires forall d :: Active(cohort, d)
    ensures WeightShare(cohort, c) == WeightOf(c)
  {
    AllWeights(cohort);
  }

  /** Every component contributes to the composite exactly once. */
  lemma CompositeUnrolled(cohort: seq<ProviderInput>, p: ProviderInput)
    requires NonNegative(cohort) && p in cohort
    ensures Composite(Components, cohort, p)
            == Contribution(cohort, p, TempMae) + Contribution(cohort, p, PrecipF1) + Contribution(cohort, p, RainMae)
               + Contribution(cohort, p, WindMae) + Contribution(cohort, p, TempBias)
               + Contribution(cohort, p, CoverageShare) + Contribution(cohort, p, ReliabilityShare)
  {
    var cs := [TempMae];
    CompositePush([], TempMae, cohort, p);
    CompositePush(cs, PrecipF1, cohort, p);
    cs := cs + [PrecipF1];
    CompositePush(cs, RainMae, cohort, p);
    cs := cs + [RainMae];
    CompositePush(cs, WindMae, cohort, p);
    cs := cs + [WindMae];
    CompositePush(cs, TempBias, cohort, p);
    cs := cs + [TempBias];
    CompositePush(cs, CoverageShare, cohort, p);
    cs := cs + [CoverageShare];
    CompositePush(cs, ReliabilityShare, cohort, p);
    assert cs + [ReliabilityShare] == Components;
  }

  // ---- The computation -----------------------------------------------------------------

  method AllPresent(cohort: seq<ProviderInput>, c: Component) returns (present: bool)
    ensures present == Active(cohort, c)
  {
    present := |cohort| > 0;
    for i := 0 to |cohort|
      invariant present == (|cohort| > 0) && forall j :: 0 <= j < i ==> c in cohort[j].values
    {
      if c !in cohort[i].values {
        present := false;
        break;
      }
    }
  }

  method ActiveComponents(cohort: seq<ProviderInput>) returns (active: set<Component>, total: real)
    ensures forall c :: c in active <==> Active(cohort, c)
    ensures total == ActiveWeight(Components, cohort)
  {
    active, total := {}, 0.0;
    for k := 0 to |Components|
      invariant forall c :: c in active <==> c in Components[..k] && Active(cohort, c)
      invariant total == ActiveWeight(Components[..k], cohort)
    {
      var c := Components[k];
      assert Components[..k + 1] == Components[..k] + [c];
      var allPresent := AllPresent(cohort, c);
      if allPresent {
        active := active + {c};
        total := total + WeightOf(c);
      }
      assert Components[..k + 1][..k] == Components[..k];
    }
    assert Components[..|Components|] == Components;
    forall c ensures c in Components {
      ComponentListed(c);
    }
  }

  ghost predicate BestOk(cohort: seq<ProviderInput>, c: Component, best: map<Component, real>, shift: map<Component, real>)
    requires Active(cohort, c)
  {
    match DirectionOf(c)
    case LowerBetter =>
      c in best && c in shift && shift[c] == ShiftFor(Lowest(cohort, c)) && best[c] == Lowest(cohort, c) + shift[c]
    case HigherBetter => c in best && c in shift && shift[c] == 0.0 && best[c] == Highest(cohort, c)
    case Direct => true
  }

  /** The best value of one active ratio component, and how far its column is shifted. */
  method BestOf(cohort: seq<ProviderInput>, c: Component) returns (best: real, shift: real)
    requires Active(cohort, c) && !DirectionOf(c).Direct?
    ensures DirectionOf(c).LowerBetter? ==> shift == ShiftFor(Lowest(cohort, c)) && best == Lowest(cohort, c) + shift
    ensures DirectionOf(c).HigherBetter? ==> shift == 0.0 && best == Highest(cohort, c)
  {
    var vals := Column(cohort, c);
    shift := 0.0;
    match DirectionOf(c)
    case LowerBetter =>
      best := MinOf(vals);
      if best == 0.0 {
        shift := Epsilon;
        best := best + Epsilon;
      }
    case HigherBetter =>
      best := MaxOf(vals);
  }

  lemma BestOkFrame(cohort: seq<ProviderInput>, d: Component, best: map<Component, real>, shift: map<Component, real>,
                    c: Component, b: real, s: real)
    requires Active(cohort, d) && d != c && BestOk(cohort, d, best, shift)
    ensures BestOk(cohort, d, best[c := b], shift[c := s])
  {
  }

  /** The best value and shift of every active ratio component. */
  method BestValues(cohort: seq<ProviderInput>, active: set<Component>)
    returns (best: map<Component, real>, shift: map<Component, real>)
    requires forall c :: c in active <==> Active(cohort, c)
    ensures forall c :: Active(cohort, c) ==> BestOk(cohort, c, best, shift)
  {
    best, shift := map[], map[];
    for k := 0 to |Components|
      invariant forall c :: c in Components[..k] && Active(cohort, c) ==> BestOk(cohort, c, best, shift)
    {
      var c := Components[k];
      assert Components[..k + 1] == Components[..k] + [c];
      if c in active && !DirectionOf(c).Direct? {
        var b, s := BestOf(cohort, c);
        forall d | d in Components[..k] && d != c && Active(cohort, d)
          ensures BestOk(cohort, d, best[c := b], shift[c := s])
        {
          BestOkFrame(cohort, d, best, shift, c, b, s);
        }
        best, shift := best[c := b], shift[c := s];
        assert BestOk(cohort, c, best, shift);
      }
    }
    assert Components[..|Components|] == Components;
    forall c ensures c in Components {
      ComponentListed(c);
    }
  }

  function Entry(m: map<Component, real>, c: Component): real {
    if c in m then m[c] else 0.0
  }

  /** Normalising against the best values found gives the component's normalised score. */
  lemma NormIs(cohort: seq<ProviderInput>, p: ProviderInput, c: Component, best: map<Component, real>,
               shift: map<Component, real>)
    requires NonNegative(cohort) && p in cohort && Active(cohort, c) && BestOk(cohort, c, best, shift)
    ensures c in p.values
    ensures DirectionOf(c).LowerBetter? ==> p.values[c] + Entry(shift, c) != 0.0
    ensures Normalize(DirectionOf(c), p.values[c], Entry(best, c), Entry(shift, c)) == Norm(cohort, p, c)
  {
    ValueInColumn(cohort, p, c);
  }

  /** One component of one provider: what it adds to the composite and to the half-width, and its
      line of the breakdown. */
  method ScoreComponent(ghost cohort: seq<ProviderInput>, p: ProviderInput, c: Component, active: bool, total: real,
                        best: map<Component, real>, shift: map<Component, real>)
    returns (part: real, half: real, line: ComponentScore)
    requires NonNegative(cohort) && p in cohort && active == Active(cohort, c)
    requires active ==> BestOk(cohort, c, best, shift)
    requires total == ActiveWeight(Components, cohort)
    ensures part == Contribution(cohort, p, c) && half == HalfContribution(cohort, p, c)
    ensures line == ScoreOf(cohort, p, c)
  {
    part, half := 0.0, 0.0;
    if !active {
      line := ComponentScore(c, if c in p.values then Some(p.values[c]) else None, None, WeightOf(c), true);
      return;
    }
    ComponentListed(c);
    ActiveWeightCovers(Components, cohort, c);
    NormIs(cohort, p, c, best, shift);
    var w := Ratio(WeightOf(c), total);
    var norm := Normalize(DirectionOf(c), p.values[c], Entry(best, c), Entry(shift, c));
    part := Times(w, norm);
    if c in p.ciHalf && !DirectionOf(c).Direct? && p.values[c] != 0.0 {
      half := Times(part, Ratio(p.ciHalf[c], p.values[c]));
    }
    line := ComponentScore(c, Some(p.values[c]), Some(norm), w, false);
  }

  /** One provider's weighted sum, half-width and component breakdown. */
  method ScoreProvider(ghost cohort: seq<ProviderInput>, p: ProviderInput, active: set<Component>, total: real,
                       best: map<Component, real>, shift: map<Component, real>)
    returns (composite: real, half: real, breakdown: seq<ComponentScore>)
    requires NonNegative(cohort) && p in cohort
    requires forall c :: c in active <==> Active(cohort, c)
    requires forall c :: Active(cohort, c) ==> BestOk(cohort, c, best, shift)
    requires total == ActiveWeight(Components, cohort)
    ensures composite == Composite(Components, cohort, p)
    ensures half == CompositeHalf(Components, cohort, p)
    ensures breakdown == Breakdown(Components, cohort, p)
  {
    composite, half, breakdown := 0.0, 0.0, [];
    for k := 0 to |Components|
      invariant composite == Composite(Components[..k], cohort, p)
      invariant half == CompositeHalf(Components[..k], cohort, p)
      invariant breakdown == Breakdown(Components[..k], cohort, p)
    {
      var c := Components[k];
      assert Components[..k + 1][..k] == Components[..k];
      var part, halfPart, line := ScoreComponent(cohort, p, c, c in active, total, best, shift);
      composite, half, breakdown := composite + part, half + halfPart, breakdown + [line];
    }
    assert Components[..|Components|] == Components;
  }

  /** The row of one provider, from its weighted sum and half-width. */
  method AssembleRow(p: ProviderInput, sum: real, sumHalf: real, breakdown: seq<ComponentScore>)
    returns (r: ProviderRanking)
    ensures r.provider == p.provider && r.status == StatusOf(p) && r.coverage == p.coverage &&
            r.reliability == p.reliability && r.breakdown == breakdown
    ensures r.sample <= p.tempSample && r.sample <= p.precipSample && r.sample in {p.tempSample, p.precipSample}
    ensures r.status.Unranked? ==> r.score.None? && r.ci.None?
    ensures !r.status.Unranked? ==>
              && r.score == Some(Clamp01(Times(sum, Penalty(p))))
              && r.ci == if Times(sumHalf, Penalty(p)) > 0.0
                         then Some(Interval(Clamp01(r.score.value - Times(sumHalf, Penalty(p))),
                                            Clamp01(r.score.value + Times(sumHalf, Penalty(p)))))
                         else None
  {
    var composite, half := sum, sumHalf;
    var sample := if p.tempSample < p.precipSample then p.tempSample else p.precipSample;
    r := ProviderRanking(p.provider, None, None, StatusOf(p), sample, p.coverage, p.reliability, breakdown);
    if r.status.Unranked? {
      return;
    }
    if p.coverage.Some? && p.coverage.value < 0.8 {
      var penalty := Ratio(p.coverage.value, 0.8);
      composite, half := Times(composite, penalty), Times(half, penalty);
    }
    composite := Clamp01(composite);
    r := r.(score := Some(composite));
    if half > 0.0 {
      r := r.(ci := Some(Interval(Clamp01(composite - half), Clamp01(composite + half))));
    }
  }

  /** Rank every provider of a cohort, in the cohort's order. */
  method RankCohort(cohort: seq<ProviderInput>) returns (out: seq<ProviderRanking>)
    requires NonNegative(cohort)
    ensures |out| == |cohort| && forall i :: 0 <= i < |cohort| ==> out[i] == RankOne(cohort, cohort[i])
  {
    var active, total := ActiveComponents(cohort);
    var best, shift := BestValues(cohort, active);
    out := [];
    for i := 0 to |cohort|
      invariant |out| == i && forall k :: 0 <= k < i ==> out[k] == RankOne(cohort, cohort[k])
    {
      var sum, half, breakdown := ScoreProvider(cohort, cohort[i], active, total, best, shift);
      var r := AssembleRow(cohort[i], sum, half, breakdown);
      out := out + [r];
    }
  }

  // ---- Order of the cohort -------------------------------------------------------------

  ghost predicate SameProviders(a: seq<ProviderInput>, b: seq<ProviderInput>) {
    forall p :: p in a <==> p in b
  }

  lemma ActiveIgnoresOrder(a: seq<ProviderInput>, b: seq<ProviderInput>, c: Component)
    requires SameProviders(a, b) && Active(a, c)
    ensures Active(b, c) && Lowest(a, c) == Lowest(b, c) && Highest(a, c) == Highest(b, c)
  {
    assert a[0] in b;
    forall i | 0 <= i < |b|
      ensures c in b[i].values
    {
      assert b[i] in a;
    }
    ColumnWithin(a, b, c);
    ColumnWithin(b, a, c);
  }

  lemma ColumnWithin(a: seq<ProviderInput>, b: seq<ProviderInput>, c: Component)
    requires SameProviders(a, b) && Active(a, c) && Active(b, c)
    ensures forall x :: x in Column(a, c) ==> x in Column(b, c)
  {
    forall x | x in Column(a, c)
      ensures x in Column(b, c)
    {
      var i :| 0 <= i < |a| && Column(a, c)[i] == x;
      assert a[i] in b;
      var j :| 0 <= j < |b| && b[j] == a[i];
      assert Column(b, c)[j] == x;
    }
  }

  lemma ActivesAgree(a: seq<ProviderInput>, b: seq<ProviderInput>)
    requires SameProviders(a, b)
    ensures forall c :: Active(a, c) <==> Active(b, c)
  {
    forall c
      ensures Active(a, c) <==> Active(b, c)
    {
      if Active(a, c) {
        ActiveIgnoresOrder(a, b, c);
      }
      if Active(b, c) {
        ActiveIgnoresOrder(b, a, c);
      }
    }
  }

  lemma {:induction false} WeightIgnoresOrder(cs: seq<Component>, a: seq<ProviderInput>, b: seq<ProviderInput>)
    requires forall c :: Active(a, c) <==> Active(b, c)
    ensures ActiveWeight(cs, a) == ActiveWeight(cs, b)
  {
    if cs != [] {
      WeightIgnoresOrder(cs[..|cs| - 1], a, b);
    }
  }

  lemma ComponentIgnoresOrder(a: seq<ProviderInput>, b: seq<ProviderInput>, p: ProviderInput, c: Component)
    requires NonNegative(a) && NonNegative(b) && SameProviders(a, b) && p in a
    ensures Active(a, c) <==> Active(b, c)
    ensures WeightShare(a, c) == WeightShare(b, c)
    ensures Active(a, c) ==> Norm(a, p, c) == Norm(b, p, c)
  {
    ActivesAgree(a, b);
    WeightIgnoresOrder(Components, a, b);
    if Active(a, c) {
      ActiveIgnoresOrder(a, b, c);
    }
  }

  lemma {:induction false} SumsIgnoreOrder(cs: seq<Component>, a: seq<ProviderInput>, b: seq<ProviderInput>, p: ProviderInput)
    requires NonNegative(a) && NonNegative(b) && SameProviders(a, b) && p in a
    ensures Composite(cs, a, p) == Composite(cs, b, p)
    ensures CompositeHalf(cs, a, p) == CompositeHalf(cs, b, p)
    ensures Breakdown(cs, a, p) == Breakdown(cs, b, p)
  {
    if cs != [] {
      SumsIgnoreOrder(cs[..|cs| - 1], a, b, p);
      ComponentIgnoresOrder(a, b, p, cs[|cs| - 1]);
    }
  }

  /** A provider's row depends only on which providers are in the cohort, not on their order. */
  lemma RankIgnoresOrder(a: seq<ProviderInput>, b: seq<ProviderInput>, p: ProviderInput)
    requires NonNegative(a) && NonNegative(b) && SameProviders(a, b) && p in a
    ensures RankOne(a, p) == RankOne(b, p)
  {
    SumsIgnoreOrder(Components, a, b, p);
  }
}
