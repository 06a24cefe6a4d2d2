/** What the metric rows of a cell and period say, in the fields of the pairs themselves.

    A row of a variable depends on that variable's own forecast and observed field, on provenance and
    on quality, and on nothing else; its value is a weighted mean or share written out over those
    fields.  Rows are those of one batch, in the order it writes them. */
module RowFields {
  import opened Options
  import opened RealFacts
  import opened Sums
  import opened Intervals
  import opened Evaluation
  import opened Categorical
  import opened Aggregation
  import Observations
  import WeightedSums

  // ---- Comparisons ---------------------------------------------------------------------

  /** One forecast and one observed value of a pair, side by side. */
  datatype Compared = Compared(provenance: Observations.Provenance, quality: Observations.Quality, forecast: Option<real>, observed: Option<real>)

  function Temperatures(p: PairRecord): Compared {
    Compared(p.provenance, p.quality, p.fTemperature, p.oTemperature)
  }

  function WindSpeeds(p: PairRecord): Compared {
    Compared(p.provenance, p.quality, p.fWindSpeed, p.oWindSpeed)
  }

  function Humidities(p: PairRecord): Compared {
    Compared(p.provenance, p.quality, p.fHumidity, p.oHumidity)
  }

  function Pressures(p: PairRecord): Compared {
    Compared(p.provenance, p.quality, p.fPressure, p.oPressure)
  }

  function RainAmounts(p: PairRecord): Compared {
    Compared(p.provenance, p.quality, p.fPrecip, p.oPrecip)
  }

  /** Rain amounts where at least a tenth of a millimetre fell. */
  function WetAmounts(p: PairRecord): Compared {
    Compared(p.provenance, p.quality, p.fPrecip,
             if p.oPrecip.Some? && p.oPrecip.value >= 0.1 then p.oPrecip else None)
  }

  /** Stations count fully, interpolated and reanalysed data four fifths, a provider's own estimate
      half, an unknown source nothing. */
  function SourceWeight(p: Observations.Provenance): real {
    if p.Station? then 1.0
    else if p.Interpolated? || p.Reanalysis? then 0.8
    else if p.ProviderEstimated? then 0.5
    else 0.0
  }

  /** Both values are known and the observation is not suspect. */
  predicate Known(x: Compared) {
    x.forecast.Some? && x.observed.Some? && !x.quality.Suspect?
  }

  function WeightIn(x: Compared): real {
    if Known(x) then SourceWeight(x.provenance) else 0.0
  }

  function AbsoluteIn(x: Compared): real {
    if !Known(x) then 0.0
    else if x.forecast.value >= x.observed.value then SourceWeight(x.provenance) * (x.forecast.value - x.observed.value)
    else SourceWeight(x.provenance) * (x.observed.value - x.forecast.value)
  }

  function SquareIn(x: Compared): real {
    if !Known(x) then 0.0
    else
      SourceWeight(x.provenance) * (x.forecast.value - x.observed.value) * (x.forecast.value - x.observed.value)
  }

  function SignedIn(x: Compared): real {
    if Known(x) then SourceWeight(x.provenance) * (x.forecast.value - x.observed.value) else 0.0
  }

  function On(view: PairRecord -> Compared, f: Compared -> real): PairRecord -> real {
    (p: PairRecord) => f(view(p))
  }

  /** The weighted mean of a quantity over the pairs, missing when nothing weighs. */
  function MeanIn(pairs: seq<PairRecord>, view: PairRecord -> Compared, f: Compared -> real): Option<real> {
    var total := Sum(pairs, On(view, WeightIn));
    if total == 0.0 then None else Some(Sum(pairs, On(view, f)) / total)
  }

  function CountIn(pairs: seq<PairRecord>, view: PairRecord -> Compared): nat {
    if pairs == [] then 0
    else CountIn(pairs[..|pairs| - 1], view) + if Known(view(pairs[|pairs| - 1])) then 1 else 0
  }

  // ---- Sums over a selection are sums over the pairs -----------------------------------

  function Through<T>(f: PairRecord -> Option<T>, h: T -> real): PairRecord -> real {
    (p: PairRecord) => if f(p).None? then 0.0 else h(f(p).value)
  }

  lemma {:induction false} SumSelected<T>(pairs: seq<PairRecord>, f: PairRecord -> Option<T>, h: T -> real)
    ensures Sum(Selected(pairs, f), h) == Sum(pairs, Through(f, h))
  {
    if pairs != [] {
      var n := |pairs| - 1;
      SumSelected(pairs[..n], f, h);
      if f(pairs[n]).Some? {
        SumPush(Selected(pairs[..n], f), f(pairs[n]).value, h);
      } else {
        assert Selected(pairs, f) == Selected(pairs[..n], f);
      }
    }
  }

  lemma {:induction false} SumSame(pairs: seq<PairRecord>, f: PairRecord -> real, g: PairRecord -> real)
    requires forall p :: f(p) == g(p)
    ensures Sum(pairs, f) == Sum(pairs, g)
  {
    if pairs != [] {
      SumSame(pairs[..|pairs| - 1], f, g);
    }
  }

  /** Two lists of pairs that a selection cannot tell apart give the same contributions. */
  lemma {:induction false} SelectedSame<T>(a: seq<PairRecord>, b: seq<PairRecord>, f: PairRecord -> Option<T>)
    requires |a| == |b| && forall i :: 0 <= i < |a| ==> f(a[i]) == f(b[i])
    ensures Selected(a, f) == Selected(b, f)
  {
    if a != [] {
      SelectedSame(a[..|a| - 1], b[..|b| - 1], f);
    }
  }

  // ---- Errors --------------------------------------------------------------------------

  function TermOf(x: Compared): Option<Term> {
    if Known(x) then Some(WeightedSums.Term(SourceWeight(x.provenance), x.forecast.value - x.observed.value)) else None
  }

  /** The channel compares the fields that the view names. */
  ghost predicate Compares(ch: Channel, view: PairRecord -> Compared) {
    forall p {:trigger view(p)} :: ErrorIn(ch)(p) == TermOf(view(p))
  }

  lemma ChannelsCompare()
    ensures Compares(Temp, Temperatures) && Compares(Wind, WindSpeeds) && Compares(Humid, Humidities)
    ensures Compares(Press, Pressures) && Compares(RainAllHours, RainAmounts) && Compares(RainWetHours, WetAmounts)
  {
  }

  /** A quantity of the terms, told of the comparisons they come from. */
  ghost predicate Contributes(h: Term -> real, f: Compared -> real) {
    forall x :: f(x) == if TermOf(x).None? then 0.0 else h(TermOf(x).value)
  }

  lemma ErrorsContribute()
    ensures Contributes(WeightedSums.Weight, WeightIn) && Contributes(WeightedSums.TimesAbs, AbsoluteIn)
    ensures Contributes(WeightedSums.Times, SignedIn) && Contributes(WeightedSums.TimesSq, SquareIn)
  {
  }

  lemma SumErrors(pairs: seq<PairRecord>, ch: Channel, view: PairRecord -> Compared, h: Term -> real, f: Compared -> real)
    requires Compares(ch, view)
    requires Contributes(h, f)
    ensures Sum(Errors(pairs, ch), h) == Sum(pairs, On(view, f))
  {
    SumSelected(pairs, ErrorIn(ch), h);
    forall p ensures Through(ErrorIn(ch), h)(p) == On(view, f)(p) {
      assert ErrorIn(ch)(p) == TermOf(view(p));
    }
    SumSame(pairs, Through(ErrorIn(ch), h), On(view, f));
  }

  lemma {:induction false} CountErrors(pairs: seq<PairRecord>, ch: Channel, view: PairRecord -> Compared)
    requires Compares(ch, view)
    ensures |Errors(pairs, ch)| == CountIn(pairs, view)
  {
    if pairs != [] {
      CountErrors(pairs[..|pairs| - 1], ch, view);
      assert ErrorIn(ch)(pairs[|pairs| - 1]) == TermOf(view(pairs[|pairs| - 1]));
    }
  }

  lemma MeansOfErrors(pairs: seq<PairRecord>, ch: Channel, view: PairRecord -> Compared)
    requires Compares(ch, view)
    ensures MeanOf(Errors(pairs, ch), WeightedSums.TimesAbs) == MeanIn(pairs, view, AbsoluteIn)
    ensures MeanOf(Errors(pairs, ch), WeightedSums.Times) == MeanIn(pairs, view, SignedIn)
    ensures MeanOf(Errors(pairs, ch), WeightedSums.TimesSq) == MeanIn(pairs, view, SquareIn)
  {
    ErrorsContribute();
    SumErrors(pairs, ch, view, WeightedSums.Weight, WeightIn);
    SumErrors(pairs, ch, view, WeightedSums.TimesAbs, AbsoluteIn);
    SumErrors(pairs, ch, view, WeightedSums.Times, SignedIn);
    SumErrors(pairs, ch, view, WeightedSums.TimesSq, SquareIn);
  }

  // ---- Rain occurrence -----------------------------------------------------------------

  /** Rain was forecast: at even odds or better, or any amount of it. */
  predicate RainSaid(p: PairRecord) {
    || (p.fProbability.Some? && p.fProbability.value >= 0.5)
    || (p.fPrecip.Some? && p.fPrecip.value > 0.0)
  }

  predicate RainFell(p: PairRecord) {
    p.oPrecip.Some? && p.oPrecip.value >= 0.1
  }

  /** The weight of a pair whose observed rain is known. */
  function RainWeight(p: PairRecord): real {
    if p.oPrecip.Some? && !p.quality.Suspect? then SourceWeight(p.provenance) else 0.0
  }

  function SaidAndFell(p: PairRecord): real { if RainSaid(p) && RainFell(p) then RainWeight(p) else 0.0 }
  function TwiceSaidAndFell(p: PairRecord): real { if RainSaid(p) && RainFell(p) then 2.0 * RainWeight(p) else 0.0 }
  function SaidNotFell(p: PairRecord): real { if RainSaid(p) && !RainFell(p) then RainWeight(p) else 0.0 }
  function Fell(p: PairRecord): real { if RainFell(p) then RainWeight(p) else 0.0 }
  function NotFell(p: PairRecord): real { if RainFell(p) then 0.0 else RainWeight(p) }
  function Said(p: PairRecord): real { if RainSaid(p) then RainWeight(p) else 0.0 }
  function SaidPlusFell(p: PairRecord): real { Said(p) + Fell(p) }
  function SaidOrFell(p: PairRecord): real { if RainSaid(p) || RainFell(p) then RainWeight(p) else 0.0 }
  function SaidAsFell(p: PairRecord): real { if RainSaid(p) == RainFell(p) then RainWeight(p) else 0.0 }

  /** The weight of a part of the pairs over that of a whole, missing when the whole weighs nothing. */
  function ShareIn(pairs: seq<PairRecord>, part: PairRecord -> real, whole: PairRecord -> real): Option<real> {
    if Sum(pairs, whole) == 0.0 then None else Some(Sum(pairs, part) / Sum(pairs, whole))
  }

  function RainCount(pairs: seq<PairRecord>): nat {
    if pairs == [] then 0
    else
      var p := pairs[|pairs| - 1];
      RainCount(pairs[..|pairs| - 1]) + if p.oPrecip.Some? && !p.quality.Suspect? then 1 else 0
  }

  lemma {:induction false} CountOutcomes(pairs: seq<PairRecord>)
    ensures |Selected(pairs, RainOutcome)| == RainCount(pairs)
  {
    if pairs != [] {
      CountOutcomes(pairs[..|pairs| - 1]);
    }
  }

  ghost predicate Weighs(h: Outcome -> real, f: PairRecord -> real) {
    forall p :: f(p) == if RainOutcome(p).None? then 0.0 else h(RainOutcome(p).value)
  }

  lemma SumOutcomes(pairs: seq<PairRecord>, h: Outcome -> real, f: PairRecord -> real)
    requires Weighs(h, f)
    ensures Sum(Selected(pairs, RainOutcome), h) == Sum(pairs, f)
  {
    SumSelected(pairs, RainOutcome, h);
    forall p ensures Through(RainOutcome, h)(p) == f(p) {
      assert Through(RainOutcome, h)(p) == if RainOutcome(p).None? then 0.0 else h(RainOutcome(p).value);
    }
    SumSame(pairs, Through(RainOutcome, h), f);
  }

  lemma HitsWeigh()
    ensures Weighs(Hit, SaidAndFell) && Weighs(TwiceHit, TwiceSaidAndFell) && Weighs(FalseAlarm, SaidNotFell)
    ensures Weighs(Either, SaidOrFell) && Weighs(Agreed, SaidAsFell)
  {
  }

  lemma SidesWeigh()
    ensures Weighs(Observed, Fell) && Weighs(Dry, NotFell) && Weighs(Forecast, Said) && Weighs(Total, RainWeight)
    ensures Weighs(Both, SaidPlusFell)
  {
  }

  /** What each ratio is of what, in the fields of the pairs. */
  ghost function RatioIn(pairs: seq<PairRecord>, k: Kind): Option<real> {
    match k
    case RecallRate => ShareIn(pairs, SaidAndFell, Fell)
    case PrecisionRate => ShareIn(pairs, SaidAndFell, Said)
    case F1Score => ShareIn(pairs, TwiceSaidAndFell, SaidPlusFell)
    case FalseAlarms => ShareIn(pairs, SaidNotFell, NotFell)
    case Threat => ShareIn(pairs, SaidAndFell, SaidOrFell)
    case _ => ShareIn(pairs, SaidAsFell, RainWeight)
  }

  lemma RatiosInFields(pairs: seq<PairRecord>, k: Kind)
    requires IsRatio(k)
    ensures Share(Selected(pairs, RainOutcome), Part(k), Whole(k)) == RatioIn(pairs, k)
  {
    HitsWeigh();
    SidesWeigh();
    match k
    case RecallRate => SumOutcomes(pairs, Hit, SaidAndFell); SumOutcomes(pairs, Observed, Fell);
    case PrecisionRate => SumOutcomes(pairs, Hit, SaidAndFell); SumOutcomes(pairs, Forecast, Said);
    case F1Score => SumOutcomes(pairs, TwiceHit, TwiceSaidAndFell); SumOutcomes(pairs, Both, SaidPlusFell);
    case FalseAlarms => SumOutcomes(pairs, FalseAlarm, SaidNotFell); SumOutcomes(pairs, Dry, NotFell);
    case Threat => SumOutcomes(pairs, Hit, SaidAndFell); SumOutcomes(pairs, Either, SaidOrFell);
    case Agreement => SumOutcomes(pairs, Agreed, SaidAsFell); SumOutcomes(pairs, Total, RainWeight);
  }

  /** The weight of a pair whose probability of rain can be scored. */
  function ProbabilityWeight(p: PairRecord): real {
    if p.fProbability.Some? then RainWeight(p) else 0.0
  }

  /** The weighted square of the distance between the probability and what happened. */
  function ProbabilityMiss(p: PairRecord): real {
    if p.fProbability.None? then 0.0
    else if RainFell(p) then RainWeight(p) * ((1.0 - p.fProbability.value) * (1.0 - p.fProbability.value))
    else RainWeight(p) * (p.fProbability.value * p.fProbability.value)
  }

  lemma BrierInFields(pairs: seq<PairRecord>)
    ensures MeanOf(Selected(pairs, RainProbability), WeightedSums.Times) == ShareIn(pairs, ProbabilityMiss, ProbabilityWeight)
  {
    SumSelected(pairs, RainProbability, WeightedSums.Times);
    SumSelected(pairs, RainProbability, WeightedSums.Weight);
    forall p ensures Through(RainProbability, WeightedSums.Times)(p) == ProbabilityMiss(p) {
      MissIsTerm(p);
    }
    SumSame(pairs, Through(RainProbability, WeightedSums.Times), ProbabilityMiss);
    forall p ensures Through(RainProbability, WeightedSums.Weight)(p) == ProbabilityWeight(p) {
      assert RainProbability(p).Some? ==> RainProbability(p).value.w == W(p);
    }
    SumSame(pairs, Through(RainProbability, WeightedSums.Weight), ProbabilityWeight);
  }

  lemma MissIsTerm(p: PairRecord)
    ensures Through(RainProbability, WeightedSums.Times)(p) == ProbabilityMiss(p)
  {
    assert Through(RainProbability, WeightedSums.Times)(p) ==
           if RainProbability(p).None? then 0.0 else WeightedSums.Times(RainProbability(p).value);
    if p.fProbability.Some? {
      var x := p.fProbability.value;
      assert (x - 1.0) * (x - 1.0) == (1.0 - x) * (1.0 - x);
      if p.oPrecip.None? || p.quality.Suspect? {
        assert RainWeight(p) == 0.0;
      }
    }
  }

  // ---- Rates ---------------------------------------------------------------------------

  /** A count over a number of slots, at most one, missing without slots. */
  function AtMostAll(count: nat, slots: nat): Option<real> {
    if slots == 0 then None
    else if count >= slots then Some(1.0)
    else Some(count as real / slots as real)
  }

  lemma RateIs(count: nat, slots: nat)
    ensures Rate(count, slots) == AtMostAll(count, slots)
  {
  }

  // ---- What every row says -------------------------------------------------------------

  /** A row with a value rests on n pairs or slots. */
  predicate RestsOn(m: Metric, n: nat) {
    m.value.Some? ==> m.sample == n
  }

  function RootOf(x: Option<real>, sqrt: real -> real): Option<real> {
    if x.None? then None else Some(sqrt(x.value))
  }

  /** The mean absolute error, root mean square error or bias of what the view compares. */
  ghost predicate ErrorSays(m: Metric, pairs: seq<PairRecord>, view: PairRecord -> Compared, sqrt: real -> real) {
    && RestsOn(m, CountIn(pairs, view))
    && m.value == match m.key.kind
                  case RootMeanSquare => RootOf(MeanIn(pairs, view, SquareIn), sqrt)
                  case SignedBias => MeanIn(pairs, view, SignedIn)
                  case _ => MeanIn(pairs, view, AbsoluteIn)
  }

  predicate CoverageSays(m: Metric, count: nat, slots: nat) {
    m.value == AtMostAll(count, slots) && RestsOn(m, slots)
  }

  ghost predicate ErrorKind(k: Kind) {
    k == MeanAbsolute || k == RootMeanSquare || k == SignedBias
  }

  ghost predicate TemperatureSays(m: Metric, pairs: seq<PairRecord>, c: Counts, sqrt: real -> real) {
    && (ErrorKind(m.key.kind) ==> ErrorSays(m, pairs, Temperatures, sqrt))
    && (m.key.kind == Coverage ==> CoverageSays(m, c.temperature, c.scheduled))
  }

  ghost predicate WindSpeedSays(m: Metric, pairs: seq<PairRecord>, c: Counts, sqrt: real -> real) {
    && (ErrorKind(m.key.kind) ==> ErrorSays(m, pairs, WindSpeeds, sqrt))
    && (m.key.kind == Coverage ==> CoverageSays(m, c.windSpeed, c.scheduled))
  }

  ghost predicate HumiditySays(m: Metric, pairs: seq<PairRecord>, c: Counts, sqrt: real -> real) {
    && (ErrorKind(m.key.kind) ==> ErrorSays(m, pairs, Humidities, sqrt))
    && (m.key.kind == Coverage ==> CoverageSays(m, c.humidity, c.scheduled))
  }

  ghost predicate PressureSays(m: Metric, pairs: seq<PairRecord>, c: Counts, sqrt: real -> real) {
    && (ErrorKind(m.key.kind) ==> ErrorSays(m, pairs, Pressures, sqrt))
    && (m.key.kind == Coverage ==> CoverageSays(m, c.pressure, c.scheduled))
  }

  ghost predicate RainSays(m: Metric, pairs: seq<PairRecord>, c: Counts, sqrt: real -> real) {
    && (m.key.kind == RainAll ==> ErrorSays(m, pairs, RainAmounts, sqrt))
    && (m.key.kind == RainWet ==> ErrorSays(m, pairs, WetAmounts, sqrt))
    && (IsRatio(m.key.kind) ==> m.value == RatioIn(pairs, m.key.kind) && RestsOn(m, RainCount(pairs)))
    && (m.key.kind == BrierScore ==>
          m.value == ShareIn(pairs, ProbabilityMiss, ProbabilityWeight) && RestsOn(m, RainCount(pairs)))
    && (m.key.kind == Coverage ==> CoverageSays(m, c.precipitation, c.scheduled))
  }

  ghost predicate ReliabilitySays(m: Metric, c: Counts) {
    m.key.kind == Reliability ==> CoverageSays(m, c.success, c.scheduled)
  }

  /** What the row of a key says, in the fields of the pairs and the counts. */
  ghost predicate SaysInFields(m: Metric, pairs: seq<PairRecord>, c: Counts, sqrt: real -> real) {
    match m.key.variable
    case Temperature => TemperatureSays(m, pairs, c, sqrt)
    case WindSpeed => WindSpeedSays(m, pairs, c, sqrt)
    case Humidity => HumiditySays(m, pairs, c, sqrt)
    case Pressure => PressureSays(m, pairs, c, sqrt)
    case Precipitation => RainSays(m, pairs, c, sqrt)
    case AllVariables => ReliabilitySays(m, c)
  }

  lemma ErrorInFields(m: Metric, pairs: seq<PairRecord>, c: Counts, sqrt: real -> real, ch: Channel, view: PairRecord -> Compared)
    requires Reports(m, pairs, c, sqrt) && ErrorKind(m.key.kind)
    requires ErrorsOf(pairs, m.key.variable) == Errors(pairs, ch) && Compares(ch, view)
    ensures ErrorSays(m, pairs, view, sqrt)
  {
    MeansOfErrors(pairs, ch, view);
    CountErrors(pairs, ch, view);
  }

  lemma RainInFields(m: Metric, pairs: seq<PairRecord>, c: Counts, sqrt: real -> real)
    requires Reports(m, pairs, c, sqrt) && m.key.variable == Precipitation
    ensures RainSays(m, pairs, c, sqrt)
  {
    ChannelsCompare();
    MeansOfErrors(pairs, RainAllHours, RainAmounts);
    CountErrors(pairs, RainAllHours, RainAmounts);
    MeansOfErrors(pairs, RainWetHours, WetAmounts);
    CountErrors(pairs, RainWetHours, WetAmounts);
    CountOutcomes(pairs);
    if IsRatio(m.key.kind) {
      RatiosInFields(pairs, m.key.kind);
    } else if m.key.kind == BrierScore {
      BrierInFields(pairs);
    } else if m.key.kind == Coverage {
      RateIs(c.precipitation, c.scheduled);
    }
  }

  /** Every row of a batch says what the fields of the pairs and the counts say. */
  lemma RowsInFields(rows: seq<Metric>, scope: Scope, pairs: seq<PairRecord>, c: Counts, sqrt: real -> real, m: Metric)
    requires AllReport(rows, scope, pairs, c, sqrt) && m in rows
    ensures SaysInFields(m, pairs, c, sqrt)
  {
    ChannelsCompare();
    RateIs(DeliveredOf(c, m.key.variable), c.scheduled);
    RateIs(c.success, c.scheduled);
    if m.key.variable == Precipitation {
      RainInFields(m, pairs, c, sqrt);
    } else if ErrorKind(m.key.kind) {
      match m.key.variable
      case Temperature => ErrorInFields(m, pairs, c, sqrt, Temp, Temperatures);
      case WindSpeed => ErrorInFields(m, pairs, c, sqrt, Wind, WindSpeeds);
      case Humidity => ErrorInFields(m, pairs, c, sqrt, Humid, Humidities);
      case Pressure => ErrorInFields(m, pairs, c, sqrt, Press, Pressures);
      case _ =>
    }
  }

  /** In particular an error is zero when the forecast was right wherever both values are known. */
  lemma RightMeansZero(pairs: seq<PairRecord>, view: PairRecord -> Compared)
    requires forall i :: 0 <= i < |pairs| && Known(view(pairs[i])) ==> view(pairs[i]).forecast == view(pairs[i]).observed
    ensures MeanIn(pairs, view, AbsoluteIn).Some? ==> MeanIn(pairs, view, AbsoluteIn).value == 0.0
  {
    NothingOff(pairs, view);
  }

  lemma {:induction false} NothingOff(pairs: seq<PairRecord>, view: PairRecord -> Compared)
    requires forall i :: 0 <= i < |pairs| && Known(view(pairs[i])) ==> view(pairs[i]).forecast == view(pairs[i]).observed
    ensures Sum(pairs, On(view, AbsoluteIn)) == 0.0
  {
    if pairs != [] {
      var last := view(pairs[|pairs| - 1]);
      NothingOff(pairs[..|pairs| - 1], view);
      assert Known(last) ==> last.forecast.value - last.observed.value == 0.0;
    }
  }

  // ---- What a row depends on -----------------------------------------------------------

  /** Two pairs that agree on everything a row of this key may look at. */
  predicate Agree(v: Variable, k: Kind, p: PairRecord, q: PairRecord) {
    && p.provenance == q.provenance && p.quality == q.quality
    && match v
       case Temperature => p.fTemperature == q.fTemperature && p.oTemperature == q.oTemperature
       case WindSpeed => p.fWindSpeed == q.fWindSpeed && p.oWindSpeed == q.oWindSpeed
       case Humidity => p.fHumidity == q.fHumidity && p.oHumidity == q.oHumidity
       case Pressure => p.fPressure == q.fPressure && p.oPressure == q.oPressure
       case Precipitation =>
         && p.oPrecip == q.oPrecip
         && (k == BrierScore || p.fPrecip == q.fPrecip)
         && (k == RainAll || k == RainWet || p.fProbability == q.fProbability)
       case AllVariables => true
  }

  ghost predicate AllAgree(v: Variable, k: Kind, a: seq<PairRecord>, b: seq<PairRecord>) {
    |a| == |b| && forall i :: 0 <= i < |a| ==> Agree(v, k, a[i], b[i])
  }

  /** A key of a row made from pairs. */
  predicate FromPairs(v: Variable, k: Kind) {
    if v == Precipitation then k == RainAll || k == RainWet || k == BrierScore || IsRatio(k)
    else v != AllVariables && (k == MeanAbsolute || k == RootMeanSquare || k == SignedBias)
  }

  lemma SameErrors(v: Variable, k: Kind, a: seq<PairRecord>, b: seq<PairRecord>, ch: Channel, view: PairRecord -> Compared)
    requires AllAgree(v, k, a, b) && Compares(ch, view)
    requires forall i :: 0 <= i < |a| ==> view(a[i]) == view(b[i])
    ensures Errors(a, ch) == Errors(b, ch)
  {
    SelectedSame(a, b, ErrorIn(ch));
  }

  lemma SameVariableErrors(v: Variable, k: Kind, a: seq<PairRecord>, b: seq<PairRecord>)
    requires AllAgree(v, k, a, b) && v != Precipitation && v != AllVariables
    ensures ErrorsOf(a, v) == ErrorsOf(b, v)
  {
    ChannelsCompare();
    match v
    case Temperature => SameErrors(v, k, a, b, Temp, Temperatures);
    case WindSpeed => SameErrors(v, k, a, b, Wind, WindSpeeds);
    case Humidity => SameErrors(v, k, a, b, Humid, Humidities);
    case Pressure => SameErrors(v, k, a, b, Press, Pressures);
  }

  lemma SameRain(k: Kind, a: seq<PairRecord>, b: seq<PairRecord>)
    requires AllAgree(Precipitation, k, a, b)
    ensures k == RainAll ==> Errors(a, RainAllHours) == Errors(b, RainAllHours)
    ensures k == RainWet ==> Errors(a, RainWetHours) == Errors(b, RainWetHours)
    ensures IsRatio(k) ==> Selected(a, RainOutcome) == Selected(b, RainOutcome)
    ensures k == BrierScore ==> Selected(a, RainProbability) == Selected(b, RainProbability)
    ensures |Selected(a, RainOutcome)| == |Selected(b, RainOutcome)|
  {
    ChannelsCompare();
    if k == RainAll {
      SameErrors(Precipitation, k, a, b, RainAllHours, RainAmounts);
    } else if k == RainWet {
      SameErrors(Precipitation, k, a, b, RainWetHours, WetAmounts);
    } else if IsRatio(k) {
      SelectedSame(a, b, RainOutcome);
    } else if k == BrierScore {
      SelectedSame(a, b, RainProbability);
    }
    CountOutcomes(a);
    CountOutcomes(b);
    SameCount(k, a, b);
  }

  lemma {:induction false} SameCount(k: Kind, a: seq<PairRecord>, b: seq<PairRecord>)
    requires AllAgree(Precipitation, k, a, b)
    ensures RainCount(a) == RainCount(b)
  {
    if a != [] {
      SameCount(k, a[..|a| - 1], b[..|b| - 1]);
    }
  }

  lemma HalfUnique(g: real, h: real, n: real)
    requires g >= 0.0 && h >= 0.0 && n > 0.0 && g * g * n == h * h * n
    ensures g == h
  {
    assert g * g == h * h by {
      assert (g * g - h * h) * n == 0.0;
    }
    SquareOrder(g, h);
    SquareOrder(h, g);
  }

  lemma MomentIntervalUnique(x: Option<Interval>, y: Option<Interval>, mean: Option<real>, s: seq<Term>)
    requires IntervalFor(x, mean, s) && IntervalFor(y, mean, s)
    ensures x == y
  {
    if x.Some? {
      assert |s| > 0;
      HalfUnique(x.value.upper - mean.value, y.value.upper - mean.value, |s| as real);
    }
  }

  lemma ScoreIntervalUnique(x: Option<Interval>, y: Option<Interval>, value: real, denom: real)
    requires ScoreInterval(x, value, denom) && ScoreInterval(y, value, denom)
    ensures x == y
  {
    assert Compatible(value, denom, x.value.lower) && Compatible(value, denom, x.value.upper);
    assert Compatible(value, denom, y.value.lower) && Compatible(value, denom, y.value.upper);
  }

  /** Two rows of one key over pairs that agree on its own fields are the same row. */
  lemma RowsDependOnOwnFields(
    m: Metric, m': Metric, a: seq<PairRecord>, b: seq<PairRecord>, c: Counts, c': Counts, sqrt: real -> real)
    requires Reports(m, a, c, sqrt) && Reports(m', b, c', sqrt) && m.key == m'.key
    requires FromPairs(m.key.variable, m.key.kind) && AllAgree(m.key.variable, m.key.kind, a, b)
    ensures m == m'
  {
    var v, k := m.key.variable, m.key.kind;
    if v == Precipitation {
      SameRain(k, a, b);
    } else {
      SameVariableErrors(v, k, a, b);
    }
    assert m.value == m'.value;
    if m.value.Some? {
      SameInterval(m, m', a, b);
    }
  }

  lemma SameInterval(m: Metric, m': Metric, a: seq<PairRecord>, b: seq<PairRecord>)
    requires m.key == m'.key && m.value == m'.value && m.value.Some? && FromPairs(m.key.variable, m.key.kind)
    requires IntervalMeans(m.ci, m.value.value, a, m.key.variable, m.key.kind)
    requires IntervalMeans(m'.ci, m.value.value, b, m.key.variable, m.key.kind)
    requires m.key.variable != Precipitation ==> ErrorsOf(a, m.key.variable) == ErrorsOf(b, m.key.variable)
    requires m.key.kind == RainAll ==> Errors(a, RainAllHours) == Errors(b, RainAllHours)
    requires m.key.kind == RainWet ==> Errors(a, RainWetHours) == Errors(b, RainWetHours)
    requires IsRatio(m.key.kind) ==> Selected(a, RainOutcome) == Selected(b, RainOutcome)
    requires m.key.kind == BrierScore ==> Selected(a, RainProbability) == Selected(b, RainProbability)
    ensures m.ci == m'.ci
  {
    var v, k := m.key.variable, m.key.kind;
    if IsRatio(k) {
      ScoreIntervalUnique(m.ci, m'.ci, m.value.value, Sum(Selected(a, RainOutcome), Whole(k)));
      return;
    }
    match k
    case MeanAbsolute => MomentIntervalUnique(m.ci, m'.ci, m.value, WeightedSums.AbsTerms(ErrorsOf(a, v)));
    case RootMeanSquare => MomentIntervalUnique(m.ci, m'.ci, m.value, WeightedSums.AbsTerms(ErrorsOf(a, v)));
    case SignedBias => MomentIntervalUnique(m.ci, m'.ci, m.value, ErrorsOf(a, v));
    case RainAll => MomentIntervalUnique(m.ci, m'.ci, m.value, WeightedSums.AbsTerms(Errors(a, RainAllHours)));
    case RainWet => MomentIntervalUnique(m.ci, m'.ci, m.value, WeightedSums.AbsTerms(Errors(a, RainWetHours)));
    case BrierScore => MomentIntervalUnique(m.ci, m'.ci, m.value, Selected(a, RainProbability));
    case _ =>
  }
}
