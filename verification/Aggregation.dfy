/** From matched pairs to metric rows: one batch of rows per cell and period.

    `Meaning` says what every row's value is in terms of the pairs alone; the batch that
    `ComputeRows` assembles from streaming accumulators is proved to report exactly that, once per
    key, with the row-level constraints of the metric table. */
module Aggregation {
  import opened Options
  import opened RealFacts
  import opened Sums
  import WeightedSums
  import opened Intervals
  import opened Evaluation
  import opened Categorical
  import Observations
  import P = Publication

  type Term = WeightedSums.Term

  datatype Variable = Temperature | WindSpeed | Humidity | Pressure | Precipitation | AllVariables

  datatype Kind =
    | MeanAbsolute | RootMeanSquare | SignedBias | RainAll | RainWet
    | RecallRate | PrecisionRate | F1Score | FalseAlarms | Threat | Agreement
    | BrierScore | Coverage | Reliability

  /** The cell and period that a batch of rows is computed for. */
  datatype Scope = Scope(provider: nat, location: nat, horizon: int, start: int, end: int)

  datatype Key = Key(scope: Scope, variable: Variable, kind: Kind)

  datatype Metric = Metric(key: Key, value: Option<real>, ci: Option<Interval>, sample: int)

  /** A matched pair as read for aggregation: forecast and observed values side by side. */
  datatype PairRecord = PairRecord(
    provenance: Observations.Provenance, quality: Observations.Quality,
    fTemperature: Option<real>, fWindSpeed: Option<real>, fHumidity: Option<real>,
    fPressure: Option<real>, fPrecip: Option<real>, fProbability: Option<real>,
    oTemperature: Option<real>, oWindSpeed: Option<real>, oHumidity: Option<real>,
    oPressure: Option<real>, oPrecip: Option<real>)

  /** Snapshot counts per variable, scheduled slots and successful collections. */
  datatype Counts = Counts(
    temperature: nat, windSpeed: nat, humidity: nat, pressure: nat, precipitation: nat,
    scheduled: nat, success: nat)

  // ---- Which pairs count, and for how much ---------------------------------------------

  function ProvenanceWeight(p: Observations.Provenance): (w: real)
    ensures 0.0 <= w <= 1.0 && (w == 0.0 <==> p.Unrecognized?)
  {
    match p
    case Station => 1.0
    case Interpolated => 0.8
    case Reanalysis => 0.8
    case ProviderEstimated => 0.5
    case Unrecognized => 0.0
  }

  function W(p: PairRecord): real { ProvenanceWeight(p.provenance) }

  /** The error accumulators: four variables, and rain amount over all hours and wet hours. */
  datatype Channel = Temp | Wind | Humid | Press | RainAllHours | RainWetHours

  function ForecastOf(ch: Channel, p: PairRecord): Option<real> {
    match ch
    case Temp => p.fTemperature
    case Wind => p.fWindSpeed
    case Humid => p.fHumidity
    case Press => p.fPressure
    case RainAllHours => p.fPrecip
    case RainWetHours => p.fPrecip
  }

  function ObservedOf(ch: Channel, p: PairRecord): Option<real> {
    match ch
    case Temp => p.oTemperature
    case Wind => p.oWindSpeed
    case Humid => p.oHumidity
    case Press => p.oPressure
    case RainAllHours => p.oPrecip
    case RainWetHours => p.oPrecip
  }

  /** Both sides known and the observation not suspect; wet hours also need observed rain. */
  predicate Eligible(ch: Channel, p: PairRecord) {
    ForecastOf(ch, p).Some? && ObservedOf(ch, p).Some? && !p.quality.Suspect? &&
    (ch.RainWetHours? ==> ObservedRain(p.oPrecip))
  }

  /** What a pair contributes to a channel. */
  function ErrorIn(ch: Channel): PairRecord -> Option<Term> {
    (p: PairRecord) =>
      if Eligible(ch, p) then Some(WeightedSums.Term(W(p), ForecastOf(ch, p).value - ObservedOf(ch, p).value))
      else None
  }

  predicate ForecastRain(probability: Option<real>, amount: Option<real>) {
    (probability.Some? && probability.value >= 0.5) || (amount.Some? && amount.value > 0.0)
  }

  predicate ObservedRain(amount: Option<real>) {
    amount.Some? && amount.value >= 0.1
  }

  function RainOutcome(p: PairRecord): Option<Outcome> {
    if p.oPrecip.Some? && !p.quality.Suspect?
    then Some(Outcome(W(p), ForecastRain(p.fProbability, p.fPrecip), ObservedRain(p.oPrecip)))
    else None
  }

  function RainProbability(p: PairRecord): Option<Term> {
    if p.oPrecip.Some? && !p.quality.Suspect? && p.fProbability.Some?
    then Some(BrierTerm(p.fProbability.value, ObservedRain(p.oPrecip), W(p)))
    else None
  }

  function Listed<T>(o: Option<T>): seq<T> {
    if o.None? then [] else [o.value]
  }

  /** What the pairs contribute, in order, through a selection. */
  function Selected<T>(pairs: seq<PairRecord>, f: PairRecord -> Option<T>): seq<T> {
    if pairs == [] then [] else Selected(pairs[..|pairs| - 1], f) + Listed(f(pairs[|pairs| - 1]))
  }

  lemma SelectedPush<T>(pairs: seq<PairRecord>, p: PairRecord, f: PairRecord -> Option<T>)
    ensures Selected(pairs + [p], f) == Selected(pairs, f) + Listed(f(p))
  {
    assert (pairs + [p])[..|pairs + [p]| - 1] == pairs;
  }

  function Errors(pairs: seq<PairRecord>, ch: Channel): seq<Term> {
    Selected(pairs, ErrorIn(ch))
  }

  /** Every selection weighs its pairs by provenance, hence never negatively. */
  lemma {:induction false} TermsNonNegative(pairs: seq<PairRecord>, f: PairRecord -> Option<Term>)
    requires forall i :: 0 <= i < |pairs| ==> f(pairs[i]).Some? ==> f(pairs[i]).value.w >= 0.0
    ensures WeightedSums.NonNegative(Selected(pairs, f))
  {
    if pairs != [] {
      TermsNonNegative(pairs[..|pairs| - 1], f);
    }
  }

  lemma {:induction false} OutcomesNonNegative(pairs: seq<PairRecord>)
    ensures Categorical.NonNegative(Selected(pairs, RainOutcome))
  {
    if pairs != [] {
      OutcomesNonNegative(pairs[..|pairs| - 1]);
    }
  }

  /** A rain probability is only scored where the occurrence is. */
  lemma {:induction false} ProbabilitiesWithinOutcomes(pairs: seq<PairRecord>)
    ensures |Selected(pairs, RainProbability)| <= |Selected(pairs, RainOutcome)|
  {
    if pairs != [] {
      ProbabilitiesWithinOutcomes(pairs[..|pairs| - 1]);
    }
  }

  // ---- What every row means ------------------------------------------------------------

  function ErrorsOf(pairs: seq<PairRecord>, v: Variable): seq<Term> {
    match v
    case Temperature => Errors(pairs, Temp)
    case WindSpeed => Errors(pairs, Wind)
    case Humidity => Errors(pairs, Humid)
    case Pressure => Errors(pairs, Press)
    case Precipitation => Errors(pairs, RainAllHours)
    case AllVariables => []
  }

  /** A count over the scheduled slots, at most one, missing when nothing was scheduled. */
  function Rate(count: nat, scheduled: nat): (r: Option<real>)
    ensures r.None? <==> scheduled == 0
    ensures r.Some? ==> 0.0 <= r.value <= 1.0 && (r.value == 1.0 <==> count >= scheduled)
  {
    if scheduled == 0 then None
    else
      var a, d := count as real, scheduled as real;
      QuotientSign(a, d);
      QuotientTimes(a, d);
      ScaleOrder(d, 1.0, a / d);
      ScaleOrder(d, a / d, 1.0);
      Some(if a / d > 1.0 then 1.0 else a / d)
  }

  function DeliveredOf(c: Counts, v: Variable): nat {
    match v
    case Temperature => c.temperature
    case WindSpeed => c.windSpeed
    case Humidity => c.humidity
    case Pressure => c.pressure
    case Precipitation => c.precipitation
    case AllVariables => 0
  }

  predicate IsRatio(k: Kind) {
    k in {RecallRate, PrecisionRate, F1Score, FalseAlarms, Threat, Agreement}
  }

  /** What each occurrence ratio is a share of. */
  ghost function Whole(k: Kind): Outcome -> real {
    match k
    case RecallRate => Observed
    case PrecisionRate => Forecast
    case F1Score => Both
    case FalseAlarms => Dry
    case Threat => Either
    case _ => Total
  }

  /** The part of that whole which each ratio counts. */
  ghost function Part(k: Kind): Outcome -> real {
    match k
    case F1Score => TwiceHit
    case FalseAlarms => FalseAlarm
    case Agreement => Agreed
    case _ => Hit
  }

  /** The value a row with this variable and kind reports, from the pairs and counts alone. */
  ghost function Meaning(pairs: seq<PairRecord>, c: Counts, sqrt: real -> real, v: Variable, k: Kind): Option<real> {
    match k
    case MeanAbsolute => MeanOf(ErrorsOf(pairs, v), WeightedSums.TimesAbs)
    case RootMeanSquare => RootMean(ErrorsOf(pairs, v), sqrt)
    case SignedBias => MeanOf(ErrorsOf(pairs, v), WeightedSums.Times)
    case RainAll => MeanOf(Errors(pairs, RainAllHours), WeightedSums.TimesAbs)
    case RainWet => MeanOf(Errors(pairs, RainWetHours), WeightedSums.TimesAbs)
    case BrierScore => MeanOf(Selected(pairs, RainProbability), WeightedSums.Times)
    case Coverage => Rate(DeliveredOf(c, v), c.scheduled)
    case Reliability => Rate(c.success, c.scheduled)
    case _ => Share(Selected(pairs, RainOutcome), Part(k), Whole(k))
  }

  /** The number of pairs, or of scheduled slots, that a row with a value rests on. */
  ghost function SampleOf(pairs: seq<PairRecord>, c: Counts, v: Variable, k: Kind): nat {
    match k
    case MeanAbsolute => |ErrorsOf(pairs, v)|
    case RootMeanSquare => |ErrorsOf(pairs, v)|
    case SignedBias => |ErrorsOf(pairs, v)|
    case RainAll => |Errors(pairs, RainAllHours)|
    case RainWet => |Errors(pairs, RainWetHours)|
    case Coverage => c.scheduled
    case Reliability => c.scheduled
    case _ => |Selected(pairs, RainOutcome)|
  }

  /** What the interval of a row with a value is: the moment interval on the row's own terms for
      errors and the Brier score, the score interval on the ratio's own denominator for ratios. */
  ghost predicate IntervalMeans(ci: Option<Interval>, value: real, pairs: seq<PairRecord>, v: Variable, k: Kind) {
    match k
    case MeanAbsolute => IntervalFor(ci, Some(value), WeightedSums.AbsTerms(ErrorsOf(pairs, v)))
    case RootMeanSquare => IntervalFor(ci, Some(value), WeightedSums.AbsTerms(ErrorsOf(pairs, v)))
    case SignedBias => IntervalFor(ci, Some(value), ErrorsOf(pairs, v))
    case RainAll => IntervalFor(ci, Some(value), WeightedSums.AbsTerms(Errors(pairs, RainAllHours)))
    case RainWet => IntervalFor(ci, Some(value), WeightedSums.AbsTerms(Errors(pairs, RainWetHours)))
    case BrierScore => IntervalFor(ci, Some(value), Selected(pairs, RainProbability))
    case Coverage => ci.None?
    case Reliability => ci.None?
    case _ => ScoreInterval(ci, value, Sum(Selected(pairs, RainOutcome), Whole(k)))
  }

  /** Exactly the rates the score test does not reject at this denominator, all within [0, 1]. */
  ghost predicate ScoreInterval(ci: Option<Interval>, value: real, denom: real) {
    ci.Some? && 0.0 <= ci.value.lower <= value <= ci.value.upper <= 1.0 &&
    forall x :: ci.value.lower <= x <= ci.value.upper <==> Compatible(value, denom, x)
  }

  /** The table's own constraints on a row: a value exactly when there is a sample, and an
      interval, where there is one, that brackets the value. */
  predicate RowOk(m: Metric) {
    m.sample >= 0 && (m.value.None? <==> m.sample == 0) &&
    (m.ci.Some? ==> m.value.Some? && m.ci.value.lower <= m.value.value <= m.ci.value.upper)
  }

  /** A row that satisfies the table and reports what its key means. */
  ghost predicate Reports(m: Metric, pairs: seq<PairRecord>, c: Counts, sqrt: real -> real) {
    RowOk(m) &&
    m.value == Meaning(pairs, c, sqrt, m.key.variable, m.key.kind) &&
    (m.value.Some? ==>
       m.sample == SampleOf(pairs, c, m.key.variable, m.key.kind) &&
       IntervalMeans(m.ci, m.value.value, pairs, m.key.variable, m.key.kind))
  }

  // ---- Building rows -------------------------------------------------------------------

  function MakeMetric(key: Key, value: Option<real>, ci: Option<Interval>, n: nat): (m: Metric)
    ensures m.key == key && m.value == value
    ensures value.Some? ==> m.ci == ci && m.sample == n
    ensures value.None? ==> m.ci.None? && m.sample == 0
    ensures RowOk(m) <==> value.None? ||
                          (n > 0 && (ci.Some? ==> ci.value.lower <= value.value <= ci.value.upper))
  {
    if value.None? then Metric(key, None, None, 0) else Metric(key, value, ci, n)
  }

  /** A row that rests on the moments of a list of terms. */
  ghost predicate MomentRow(m: Metric, key: Key, value: Option<real>, s: seq<Term>, n: nat) {
    m.key == key && m.value == value && RowOk(m) &&
    (value.Some? ==> m.sample == n && IntervalFor(m.ci, value, s))
  }

  lemma MakesMomentRow(key: Key, value: Option<real>, ci: Option<Interval>, s: seq<Term>, n: nat)
    requires IntervalFor(ci, value, s) && (value.Some? ==> n > 0)
    ensures MomentRow(MakeMetric(key, value, ci, n), key, value, s, n)
  {
  }

  lemma WeighedMeansPresent(s: seq<Term>)
    ensures Sum(s, WeightedSums.Weight) != 0.0 ==> |s| > 0
  {
  }

  /** A row that is a ratio of weights with its score interval. */
  ghost predicate ScoreRow(m: Metric, key: Key, value: Option<real>, denom: real, n: nat) {
    m.key == key && m.value == value && RowOk(m) &&
    (value.Some? ==> m.sample == n && ScoreInterval(m.ci, value.value, denom))
  }

  /** A proportion of a positive weight, over at least one pair. */
  predicate IsRate(p: real, denom: real, n: nat) {
    0.0 <= p <= 1.0 && denom > 0.0 && n > 0
  }

  method RatioRow(key: Key, value: Option<real>, denom: real, n: nat, sqrt: real -> real) returns (m: Metric)
    requires SquareRoot(sqrt)
    ensures m.key == key && m.value == value
    ensures (value.Some? ==> IsRate(value.value, denom, n)) ==> ScoreRow(m, key, value, denom, n)
  {
    if value.None? {
      return MakeMetric(key, None, None, 0);
    }
    var lower, upper := Wilson(value.value, denom, sqrt);
    m := MakeMetric(key, value, Some(Interval(lower, upper)), n);
  }

  method RatelessRow(key: Key, numerator: nat, denom: nat) returns (m: Metric)
    ensures m.key == key && m.value == Rate(numerator, denom) && RowOk(m) && m.ci.None?
    ensures m.sample == denom
  {
    if denom <= 0 {
      return MakeMetric(key, None, None, 0);
    }
    var v := numerator as real / denom as real;
    if v > 1.0 {
      v := 1.0;
    }
    m := MakeMetric(key, Some(v), None, denom);
  }

  method MeanAbsoluteRow(key: Key, c: Continuous, sqrt: real -> real) returns (m: Metric)
    requires SquareRoot(sqrt) && c.Valid() && WeightedSums.NonNegative(c.pairs)
    ensures MomentRow(m, key, MeanOf(c.pairs, WeightedSums.TimesAbs), WeightedSums.AbsTerms(c.pairs), |c.pairs|)
  {
    WeighedMeansPresent(c.pairs);
    var ci := c.MAECI(sqrt);
    MakesMomentRow(key, c.MAE(), ci, WeightedSums.AbsTerms(c.pairs), c.n);
    m := MakeMetric(key, c.MAE(), ci, c.n);
  }

  ghost predicate ErrorRows(rows: seq<Metric>, scope: Scope, v: Variable, s: seq<Term>, sqrt: real -> real) {
    |rows| == 3 &&
    MomentRow(rows[0], Key(scope, v, MeanAbsolute), MeanOf(s, WeightedSums.TimesAbs), WeightedSums.AbsTerms(s), |s|) &&
    MomentRow(rows[1], Key(scope, v, RootMeanSquare), RootMean(s, sqrt), WeightedSums.AbsTerms(s), |s|) &&
    MomentRow(rows[2], Key(scope, v, SignedBias), MeanOf(s, WeightedSums.Times), s, |s|)
  }

  method ContinuousRows(scope: Scope, v: Variable, c: Continuous, sqrt: real -> real) returns (rows: seq<Metric>)
    requires SquareRoot(sqrt) && c.Valid() && WeightedSums.NonNegative(c.pairs)
    ensures ErrorRows(rows, scope, v, c.pairs, sqrt)
  {
    WeighedMeansPresent(c.pairs);
    var mae := MeanAbsoluteRow(Key(scope, v, MeanAbsolute), c, sqrt);
    var rmse := c.RMSECI(sqrt);
    var bias := c.BiasCI(sqrt);
    MakesMomentRow(Key(scope, v, RootMeanSquare), c.RMSE(sqrt), rmse, WeightedSums.AbsTerms(c.pairs), c.n);
    MakesMomentRow(Key(scope, v, SignedBias), c.Bias(), bias, c.pairs, c.n);
    rows := [mae,
             MakeMetric(Key(scope, v, RootMeanSquare), c.RMSE(sqrt), rmse, c.n),
             MakeMetric(Key(scope, v, SignedBias), c.Bias(), bias, c.n)];
  }

  // ---- The accumulators of one cell and period -----------------------------------------

  lemma ErrorsPush(pairs: seq<PairRecord>, p: PairRecord, ch: Channel)
    ensures Errors(pairs + [p], ch) == Errors(pairs, ch) + Listed(ErrorIn(ch)(p))
  {
    SelectedPush(pairs, p, ErrorIn(ch));
  }

  lemma ErrorsNonNegative(pairs: seq<PairRecord>, ch: Channel)
    ensures WeightedSums.NonNegative(Errors(pairs, ch))
  {
    TermsNonNegative(pairs, ErrorIn(ch));
  }

  method AddError(c: Continuous, ch: Channel, p: PairRecord)
    requires c.Valid()
    modifies c
    ensures c.Valid() && c.pairs == old(c.pairs) + Listed(ErrorIn(ch)(p))
  {
    if Eligible(ch, p) {
      c.Add(ForecastOf(ch, p).value, ObservedOf(ch, p).value, ProvenanceWeight(p.provenance));
    }
  }

  method AccumulateErrors(pairs: seq<PairRecord>, ch: Channel) returns (c: Continuous)
    ensures fresh(c) && c.Valid() && c.pairs == Errors(pairs, ch)
  {
    c := new Continuous();
    for i := 0 to |pairs|
      invariant fresh(c) && c.Valid() && c.pairs == Errors(pairs[..i], ch)
    {
      ErrorsPush(pairs[..i], pairs[i], ch);
      assert pairs[..i + 1] == pairs[..i] + [pairs[i]];
      AddError(c, ch, pairs[i]);
    }
    assert pairs[..|pairs|] == pairs;
  }

  method AddOutcome(occ: Confusion, p: PairRecord) returns (counted: nat)
    requires occ.Valid()
    modifies occ
    ensures occ.Valid() && occ.outcomes == old(occ.outcomes) + Listed(RainOutcome(p))
    ensures counted == |Listed(RainOutcome(p))|
  {
    counted := 0;
    if p.oPrecip.Some? && !p.quality.Suspect? {
      occ.Add(ForecastRain(p.fProbability, p.fPrecip), ObservedRain(p.oPrecip), ProvenanceWeight(p.provenance));
      counted := 1;
    }
  }

  method AccumulateOutcomes(pairs: seq<PairRecord>) returns (occ: Confusion, occN: nat)
    ensures fresh(occ) && occ.Valid() && occ.outcomes == Selected(pairs, RainOutcome)
    ensures occN == |occ.outcomes|
  {
    occ := new Confusion();
    occN := 0;
    for i := 0 to |pairs|
      invariant fresh(occ) && occ.Valid() && occ.outcomes == Selected(pairs[..i], RainOutcome)
      invariant occN == |occ.outcomes|
    {
      SelectedPush(pairs[..i], pairs[i], RainOutcome);
      assert pairs[..i + 1] == pairs[..i] + [pairs[i]];
      var counted := AddOutcome(occ, pairs[i]);
      occN := occN + counted;
    }
    assert pairs[..|pairs|] == pairs;
  }

  method AddProbability(brier: Brier, p: PairRecord)
    requires brier.Valid()
    modifies brier
    ensures brier.Valid() && brier.pairs == old(brier.pairs) + Listed(RainProbability(p))
  {
    if p.oPrecip.Some? && !p.quality.Suspect? && p.fProbability.Some? {
      brier.Add(p.fProbability.value, ObservedRain(p.oPrecip), ProvenanceWeight(p.provenance));
    }
  }

  method AccumulateProbabilities(pairs: seq<PairRecord>) returns (brier: Brier)
    ensures fresh(brier) && brier.Valid() && brier.pairs == Selected(pairs, RainProbability)
  {
    brier := new Brier();
    for i := 0 to |pairs|
      invariant fresh(brier) && brier.Valid() && brier.pairs == Selected(pairs[..i], RainProbability)
    {
      SelectedPush(pairs[..i], pairs[i], RainProbability);
      assert pairs[..i + 1] == pairs[..i] + [pairs[i]];
      AddProbability(brier, pairs[i]);
    }
    assert pairs[..|pairs|] == pairs;
  }

  // ---- The batch -----------------------------------------------------------------------

  /** Rows of one scope that all report what their keys mean. */
  ghost predicate AllReport(rows: seq<Metric>, scope: Scope, pairs: seq<PairRecord>, c: Counts, sqrt: real -> real) {
    forall i :: 0 <= i < |rows| ==> rows[i].key.scope == scope && Reports(rows[i], pairs, c, sqrt)
  }

  function KeysOf(rows: seq<Metric>): seq<(Variable, Kind)> {
    seq(|rows|, i requires 0 <= i < |rows| => (rows[i].key.variable, rows[i].key.kind))
  }

  lemma ErrorRowsReport(rows: seq<Metric>, scope: Scope, v: Variable, pairs: seq<PairRecord>, c: Counts,
                        sqrt: real -> real)
    requires ErrorRows(rows, scope, v, ErrorsOf(pairs, v), sqrt)
    ensures AllReport(rows, scope, pairs, c, sqrt)
    ensures KeysOf(rows) == ErrorKeys(v)
  {
  }

  /** The rows of one continuous variable. */
  method VariableRows(scope: Scope, v: Variable, ch: Channel, pairs: seq<PairRecord>, ghost counts: Counts,
                      sqrt: real -> real) returns (rows: seq<Metric>)
    requires SquareRoot(sqrt)
    requires ErrorsOf(pairs, v) == Errors(pairs, ch)
    ensures AllReport(rows, scope, pairs, counts, sqrt)
    ensures KeysOf(rows) == ErrorKeys(v)
  {
    var c := AccumulateErrors(pairs, ch);
    ErrorsNonNegative(pairs, ch);
    rows := ContinuousRows(scope, v, c, sqrt);
    ErrorRowsReport(rows, scope, v, pairs, counts, sqrt);
  }

  method RainRow(scope: Scope, k: Kind, ch: Channel, pairs: seq<PairRecord>, ghost counts: Counts,
                 sqrt: real -> real) returns (m: Metric)
    requires SquareRoot(sqrt)
    requires (k == RainAll && ch == RainAllHours) || (k == RainWet && ch == RainWetHours)
    ensures m.key == Key(scope, Precipitation, k) && Reports(m, pairs, counts, sqrt)
  {
    var c := AccumulateErrors(pairs, ch);
    ErrorsNonNegative(pairs, ch);
    m := MeanAbsoluteRow(Key(scope, Precipitation, k), c, sqrt);
  }

  /** The two rain-amount rows. */
  method RainRows(scope: Scope, pairs: seq<PairRecord>, ghost counts: Counts, sqrt: real -> real)
    returns (rows: seq<Metric>)
    requires SquareRoot(sqrt)
    ensures AllReport(rows, scope, pairs, counts, sqrt)
    ensures KeysOf(rows) == [(Precipitation, RainAll), (Precipitation, RainWet)]
  {
    var everyHour := RainRow(scope, RainAll, RainAllHours, pairs, counts, sqrt);
    var wetHours := RainRow(scope, RainWet, RainWetHours, pairs, counts, sqrt);
    rows := [everyHour, wetHours];
  }

  /** Every ratio of the matrix is a proportion of its own positive denominator. */
  lemma ShareIsRate(s: seq<Outcome>, k: Kind)
    requires Categorical.NonNegative(s) && IsRatio(k)
    ensures var p := Share(s, Part(k), Whole(k)); p.Some? ==> IsRate(p.value, Sum(s, Whole(k)), |s|)
  {
    assert Within(s, Part(k), Whole(k));
    ShareInUnit(s, Part(k), Whole(k));
  }

  method RatioOf(occ: Confusion, k: Kind) returns (value: Option<real>, denom: real)
    requires occ.Valid() && IsRatio(k)
    ensures value == Share(occ.outcomes, Part(k), Whole(k))
    ensures denom == Sum(occ.outcomes, Whole(k))
  {
    CellsPartition(occ.outcomes);
    match k
    case RecallRate => return occ.Recall(), occ.TP + occ.FN;
    case PrecisionRate => return occ.Precision(), occ.TP + occ.FP;
    case F1Score => return occ.F1(), 2.0 * occ.TP + occ.FP + occ.FN;
    case FalseAlarms => return occ.FalseAlarmRate(), occ.FP + occ.TN;
    case Threat => return occ.ThreatScore(), occ.TP + occ.FP + occ.FN;
    case Agreement => return occ.OccurrenceAgreement(), occ.N();
  }

  /** The row of one occurrence ratio, with its score interval on its own denominator. */
  method OccurrenceRow(scope: Scope, k: Kind, occ: Confusion, occN: nat, ghost pairs: seq<PairRecord>,
                       ghost counts: Counts, sqrt: real -> real) returns (m: Metric)
    requires SquareRoot(sqrt) && IsRatio(k)
    requires occ.Valid() && occ.outcomes == Selected(pairs, RainOutcome) && occN == |occ.outcomes|
    ensures m.key == Key(scope, Precipitation, k) && Reports(m, pairs, counts, sqrt)
  {
    OutcomesNonNegative(pairs);
    ShareIsRate(occ.outcomes, k);
    var value, denom := RatioOf(occ, k);
    m := RatioRow(Key(scope, Precipitation, k), value, denom, occN, sqrt);
  }

  const OccurrenceKeys: seq<(Variable, Kind)> :=
    [(Precipitation, RecallRate), (Precipitation, PrecisionRate), (Precipitation, F1Score),
     (Precipitation, FalseAlarms), (Precipitation, Threat), (Precipitation, Agreement),
     (Precipitation, BrierScore)]

  /** The occurrence ratios and the Brier score. */
  method OccurrenceRows(scope: Scope, pairs: seq<PairRecord>, ghost counts: Counts, sqrt: real -> real)
    returns (rows: seq<Metric>)
    requires SquareRoot(sqrt)
    ensures AllReport(rows, scope, pairs, counts, sqrt)
    ensures KeysOf(rows) == OccurrenceKeys
  {
    var occ, occN := AccumulateOutcomes(pairs);
    var recall := OccurrenceRow(scope, RecallRate, occ, occN, pairs, counts, sqrt);
    var precision := OccurrenceRow(scope, PrecisionRate, occ, occN, pairs, counts, sqrt);
    var f1 := OccurrenceRow(scope, F1Score, occ, occN, pairs, counts, sqrt);
    var alarms := OccurrenceRow(scope, FalseAlarms, occ, occN, pairs, counts, sqrt);
    var threat := OccurrenceRow(scope, Threat, occ, occN, pairs, counts, sqrt);
    var agreement := OccurrenceRow(scope, Agreement, occ, occN, pairs, counts, sqrt);
    var brier := BrierRow(scope, pairs, occN, counts, sqrt);
    rows := [recall, precision, f1, alarms, threat, agreement, brier];
  }

  lemma ProbabilitiesNonNegative(pairs: seq<PairRecord>)
    ensures WeightedSums.NonNegative(Selected(pairs, RainProbability))
  {
    TermsNonNegative(pairs, RainProbability);
  }

  method BrierRow(scope: Scope, pairs: seq<PairRecord>, occN: nat, ghost counts: Counts, sqrt: real -> real)
    returns (m: Metric)
    requires SquareRoot(sqrt) && occN == |Selected(pairs, RainOutcome)|
    ensures m.key == Key(scope, Precipitation, BrierScore) && Reports(m, pairs, counts, sqrt)
  {
    var brier := AccumulateProbabilities(pairs);
    ProbabilitiesNonNegative(pairs);
    ProbabilitiesWithinOutcomes(pairs);
    WeighedMeansPresent(brier.pairs);
    var ci := brier.ScoreCI(sqrt);
    MakesMomentRow(Key(scope, Precipitation, BrierScore), brier.Score(), ci, brier.pairs, occN);
    m := MakeMetric(Key(scope, Precipitation, BrierScore), brier.Score(), ci, occN);
  }

  const RateKeys: seq<(Variable, Kind)> :=
    [(Temperature, Coverage), (WindSpeed, Coverage), (Humidity, Coverage), (Pressure, Coverage),
     (Precipitation, Coverage), (AllVariables, Reliability)]

  /** Coverage per variable, and collection reliability. */
  method RateRows(scope: Scope, ghost pairs: seq<PairRecord>, counts: Counts, ghost sqrt: real -> real)
    returns (rows: seq<Metric>)
    ensures AllReport(rows, scope, pairs, counts, sqrt)
    ensures KeysOf(rows) == RateKeys
  {
    var temperature := RatelessRow(Key(scope, Temperature, Coverage), counts.temperature, counts.scheduled);
    var wind := RatelessRow(Key(scope, WindSpeed, Coverage), counts.windSpeed, counts.scheduled);
    var humidity := RatelessRow(Key(scope, Humidity, Coverage), counts.humidity, counts.scheduled);
    var pressure := RatelessRow(Key(scope, Pressure, Coverage), counts.pressure, counts.scheduled);
    var rain := RatelessRow(Key(scope, Precipitation, Coverage), counts.precipitation, counts.scheduled);
    var reliability := RatelessRow(Key(scope, AllVariables, Reliability), counts.success, counts.scheduled);
    rows := [temperature, wind, humidity, pressure, rain, reliability];
  }

  function ErrorKeys(v: Variable): seq<(Variable, Kind)> {
    [(v, MeanAbsolute), (v, RootMeanSquare), (v, SignedBias)]
  }

  /** Every key of a batch, in the order its rows are written. */
  function BatchKeys(): seq<(Variable, Kind)> {
    ErrorKeys(Temperature) + ErrorKeys(WindSpeed) + ErrorKeys(Humidity) + ErrorKeys(Pressure) +
    [(Precipitation, RainAll), (Precipitation, RainWet)] + OccurrenceKeys + RateKeys
  }

  lemma BatchKeysDistinct()
    ensures |BatchKeys()| == 27
    ensures forall i, j :: 0 <= i < j < |BatchKeys()| ==> BatchKeys()[i] != BatchKeys()[j]
  {
  }

  ghost predicate DistinctKeys(rows: seq<Metric>) {
    forall i, j :: 0 <= i < j < |rows| ==> rows[i].key != rows[j].key
  }

  lemma ReportsJoin(a: seq<Metric>, b: seq<Metric>, scope: Scope, pairs: seq<PairRecord>, c: Counts, sqrt: real -> real)
    requires AllReport(a, scope, pairs, c, sqrt) && AllReport(b, scope, pairs, c, sqrt)
    ensures AllReport(a + b, scope, pairs, c, sqrt)
    ensures KeysOf(a + b) == KeysOf(a) + KeysOf(b)
  {
  }

  /** Every metric row of one cell and period. */
  method ComputeRows(scope: Scope, pairs: seq<PairRecord>, counts: Counts, sqrt: real -> real)
    returns (rows: seq<Metric>)
    requires SquareRoot(sqrt)
    ensures AllReport(rows, scope, pairs, counts, sqrt)
    ensures KeysOf(rows) == BatchKeys() && DistinctKeys(rows)
  {
    rows := VariableRows(scope, Temperature, Temp, pairs, counts, sqrt);
    var more := VariableRows(scope, WindSpeed, Wind, pairs, counts, sqrt);
    ReportsJoin(rows, more, scope, pairs, counts, sqrt);
    rows := rows + more;
    more := VariableRows(scope, Humidity, Humid, pairs, counts, sqrt);
    ReportsJoin(rows, more, scope, pairs, counts, sqrt);
    rows := rows + more;
    more := VariableRows(scope, Pressure, Press, pairs, counts, sqrt);
    ReportsJoin(rows, more, scope, pairs, counts, sqrt);
    rows := rows + more;
    more := RainRows(scope, pairs, counts, sqrt);
    ReportsJoin(rows, more, scope, pairs, counts, sqrt);
    rows := rows + more;
    more := OccurrenceRows(scope, pairs, counts, sqrt);
    ReportsJoin(rows, more, scope, pairs, counts, sqrt);
    rows := rows + more;
    more := RateRows(scope, pairs, counts, sqrt);
    ReportsJoin(rows, more, scope, pairs, counts, sqrt);
    rows := rows + more;
    KeysMakeDistinct(rows);
  }

  lemma KeysMakeDistinct(rows: seq<Metric>)
    requires KeysOf(rows) == BatchKeys()
    ensures DistinctKeys(rows)
  {
    BatchKeysDistinct();
    forall i, j | 0 <= i < j < |rows|
      ensures rows[i].key != rows[j].key
    {
      assert KeysOf(rows)[i] != KeysOf(rows)[j];
    }
  }

  // ---- Publishing the batch ------------------------------------------------------------

  function Stamped(rows: seq<Metric>, ids: seq<nat>): seq<P.Row<Key, Metric>>
    requires |rows| == |ids|
  {
    seq(|rows|, i requires 0 <= i < |rows| => P.Row(ids[i], rows[i].key, rows[i], None))
  }

  /** Identifiers that are pairwise distinct and occur nowhere in the table. */
  ghost predicate UnusedIds(t: seq<P.Row<Key, Metric>>, ids: seq<nat>) {
    (forall i, j :: 0 <= i < j < |ids| ==> ids[i] != ids[j]) &&
    (forall i, j :: 0 <= i < |ids| && 0 <= j < |t| ==> ids[i] != t[j].id)
  }

  lemma StampedIsNew(t: seq<P.Row<Key, Metric>>, rows: seq<Metric>, ids: seq<nat>)
    requires P.DistinctIds(t) && |rows| == |ids| && UnusedIds(t, ids) && DistinctKeys(rows)
    ensures P.NewRows(t, Stamped(rows, ids)) && P.DistinctKeys(Stamped(rows, ids))
  {
  }

  /** The one live row of a key reports what these pairs and counts make of it. */
  ghost predicate Published(t: seq<P.Row<Key, Metric>>, key: Key, pairs: seq<PairRecord>, c: Counts, sqrt: real -> real) {
    P.OneLive(t, key) && forall i :: P.LiveAt(t, i, key) ==> t[i].content.key == key && Reports(t[i].content, pairs, c, sqrt)
  }

  lemma BatchIsPublished(t: seq<P.Row<Key, Metric>>, rows: seq<Metric>, ids: seq<nat>, scope: Scope,
                         pairs: seq<PairRecord>, c: Counts, sqrt: real -> real, j: nat)
    requires P.DistinctIds(t) && |rows| == |ids| && UnusedIds(t, ids) && DistinctKeys(rows)
    requires AllReport(rows, scope, pairs, c, sqrt) && j < |rows|
    ensures Published(P.Publish(t, Stamped(rows, ids)), rows[j].key, pairs, c, sqrt)
  {
    var batch := Stamped(rows, ids);
    var key := rows[j].key;
    StampedIsNew(t, rows, ids);
    assert batch[j].key == key;
    P.OneLiveExactlyWhen(t, batch, key);
    P.NewRowLiveExactly(t, batch, j);
    assert P.LiveAt(P.Publish(t, batch), |t| + j, key);
  }

  /** Recompute one cell and period: afterwards each of its keys has exactly one live row, which
      reports the pairs and counts just read, and no other cell's rows have changed. */
  method AggregateCellPeriod(store: P.Store<Key, Metric>, scope: Scope, pairs: seq<PairRecord>, counts: Counts,
                             ids: seq<nat>, sqrt: real -> real) returns (written: nat)
    requires SquareRoot(sqrt) && P.Inv(store.table)
    requires |ids| == |BatchKeys()| && UnusedIds(store.table, ids)
    modifies store
    ensures P.Inv(store.table) && written == |BatchKeys()|
    ensures forall j :: 0 <= j < |BatchKeys()| ==>
                          Published(store.table, Key(scope, BatchKeys()[j].0, BatchKeys()[j].1), pairs, counts, sqrt)
    ensures forall i :: 0 <= i < |old(store.table)| && old(store.table[i].key.scope) != scope ==>
                          |store.table| > i && store.table[i] == old(store.table[i])
  {
    var rows := ComputeRows(scope, pairs, counts, sqrt);
    ghost var before := store.table;
    assert |KeysOf(rows)| == |rows|;
    var batch := Stamped(rows, ids);
    StampedIsNew(before, rows, ids);
    store.PublishBatch(batch);
    written := |rows|;
    forall j | 0 <= j < |BatchKeys()|
      ensures Published(store.table, Key(scope, BatchKeys()[j].0, BatchKeys()[j].1), pairs, counts, sqrt)
    {
      BatchIsPublished(before, rows, ids, scope, pairs, counts, sqrt, j);
      assert KeysOf(rows)[j] == BatchKeys()[j];
    }
    forall i | 0 <= i < |before| && before[i].key.scope != scope
      ensures store.table[i] == before[i]
    {
      P.OtherKeysUnchanged(before, batch, i);
    }
  }
}
