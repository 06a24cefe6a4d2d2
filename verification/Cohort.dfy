/** From live metric rows to ranked, published providers: the cohort of one cell.

    `BuildCohort` folds metric rows into per-provider inputs. With at most one row per provider,
    variable and metric, the inputs, and so the rows every provider is ranked with, are proved
    independent of the order in which the rows are read. */
module Cohort {
  import opened Options
  import opened RealFacts
  import opened Intervals
  import opened Ranking
  import WeightedSums
  import opened Sums
  import opened Evaluation
  import opened Aggregation
  import P = Publication

  /** What is gathered for one provider while rows are read. */
  datatype Acc = Acc(
    values: map<Component, real>, ciHalf: map<Component, real>, tempSample: int, precipSample: int,
    coverages: seq<real>)

  /** The component that a metric row feeds, if any. */
  function Role(v: Variable, k: Kind): Option<Component> {
    match (v, k)
    case (Temperature, MeanAbsolute) => Some(TempMae)
    case (Temperature, SignedBias) => Some(TempBias)
    case (Precipitation, F1Score) => Some(PrecipF1)
    case (Precipitation, RainAll) => Some(RainMae)
    case (WindSpeed, MeanAbsolute) => Some(WindMae)
    case (_, Coverage) => Some(CoverageShare)
    case (AllVariables, Reliability) => Some(ReliabilityShare)
    case _ => None
  }

  function RoleOf(m: Metric): Option<Component> { Role(m.key.variable, m.key.kind) }

  function ProviderOf(m: Metric): nat { m.key.scope.provider }

  function HalfOf(m: Metric): Option<real> {
    if m.ci.None? then None else Some((m.ci.value.upper - m.ci.value.lower) / 2.0)
  }

  function Put(m: map<Component, real>, c: Component, v: Option<real>): map<Component, real> {
    if v.Some? then m[c := v.value] else m - {c}
  }

  /** The bias enters by its size. */
  function ValueFor(c: Component, m: Metric): Option<real> {
    if c == TempBias && m.value.Some? then Some(WeightedSums.Abs(m.value.value)) else m.value
  }

  /** Coverage and reliability carry no half-width. */
  function HalfFor(c: Component, m: Metric): Option<real> {
    if DirectionOf(c).Direct? then None else HalfOf(m)
  }

  /** The effect of a row that feeds component `c`. Coverages are collected; a missing bias leaves
      the entry as it is and any other missing value clears it; the temperature error and the F1
      score also set the sample counts. */
  function Feed(a: Acc, m: Metric, c: Component): Acc {
    if c == CoverageShare then
      if m.value.Some? then a.(coverages := a.coverages + [m.value.value]) else a
    else
      a.(values := if c == TempBias && m.value.None? then a.values else Put(a.values, c, ValueFor(c, m)),
         ciHalf := if DirectionOf(c).Direct? then a.ciHalf else Put(a.ciHalf, c, HalfOf(m)),
         tempSample := if c == TempMae then m.sample else a.tempSample,
         precipSample := if c == PrecipF1 then m.sample else a.precipSample)
  }

  function Step(a: Acc, m: Metric): Acc {
    match RoleOf(m)
    case Some(c) => Feed(a, m, c)
    case None => a
  }

  const NoRows: Acc := Acc(map[], map[], 0, 0, [])

  /** What the rows of one provider amount to, in the order they are read. */
  function AccOf(rows: seq<Metric>, provider: nat): Acc {
    if rows == [] then NoRows
    else
      var last := rows[|rows| - 1];
      var front := AccOf(rows[..|rows| - 1], provider);
      if ProviderOf(last) == provider then Step(front, last) else front
  }

  /** The lowest of the coverages, if any is known. */
  function CoverageOf(a: Acc): Option<real> {
    if a.coverages == [] then None else Some(Least(a.coverages))
  }

  function InputFrom(a: Acc, provider: nat, days: int): ProviderInput {
    var values := Put(a.values, CoverageShare, CoverageOf(a));
    ProviderInput(provider, values, a.ciHalf, a.tempSample, a.precipSample, days, CoverageOf(a),
                  if ReliabilityShare in values then Some(values[ReliabilityShare]) else None)
  }

  function InputOf(rows: seq<Metric>, provider: nat, days: int): ProviderInput {
    InputFrom(AccOf(rows, provider), provider, days)
  }

  ghost predicate HasRow(rows: seq<Metric>, provider: nat) {
    exists i :: 0 <= i < |rows| && ProviderOf(rows[i]) == provider
  }

  /** Per-provider inputs, one per provider with a row. */
  ghost predicate CohortOf(cohort: seq<ProviderInput>, rows: seq<Metric>, days: int) {
    && (forall i :: 0 <= i < |cohort| ==> cohort[i] == InputOf(rows, cohort[i].provider, days))
    && (forall i, j :: 0 <= i < j < |cohort| ==> cohort[i].provider != cohort[j].provider)
    && (forall p {:trigger HasRow(rows, p)} :: HasRow(rows, p) <==> InputOf(rows, p, days) in cohort)
  }

  lemma HasRowPush(rows: seq<Metric>, m: Metric, p: nat)
    ensures HasRow(rows + [m], p) <==> HasRow(rows, p) || ProviderOf(m) == p
  {
    var all := rows + [m];
    if HasRow(rows, p) {
      var i :| 0 <= i < |rows| && ProviderOf(rows[i]) == p;
      assert all[i] == rows[i];
    }
    assert all[|rows|] == m;
    if HasRow(all, p) {
      var i :| 0 <= i < |all| && ProviderOf(all[i]) == p;
      assert i < |rows| ==> rows[i] == all[i];
    }
  }

  /** No row of a provider means nothing gathered for it. */
  lemma {:induction false} NoRowNoAcc(rows: seq<Metric>, p: nat)
    requires !HasRow(rows, p)
    ensures AccOf(rows, p) == NoRows
  {
    if rows != [] {
      var n := |rows| - 1;
      assert rows == rows[..n] + [rows[n]];
      HasRowPush(rows[..n], rows[n], p);
      NoRowNoAcc(rows[..n], p);
    }
  }

  method GatherRows(rows: seq<Metric>) returns (provs: map<nat, Acc>, order: seq<nat>)
    ensures forall p :: p in provs <==> HasRow(rows, p)
    ensures forall p :: p in provs ==> provs[p] == AccOf(rows, p)
    ensures forall p :: p in order <==> p in provs
    ensures forall i, j :: 0 <= i < j < |order| ==> order[i] != order[j]
  {
    provs, order := map[], [];
    for i := 0 to |rows|
      invariant forall p :: p in provs <==> HasRow(rows[..i], p)
      invariant forall p :: p in provs ==> provs[p] == AccOf(rows[..i], p)
      invariant forall p :: p in order <==> p in provs
      invariant forall i, j :: 0 <= i < j < |order| ==> order[i] != order[j]
    {
      var m := rows[i];
      var p := ProviderOf(m);
      assert rows[..i + 1] == rows[..i] + [m];
      assert rows[..i + 1][..i] == rows[..i];
      forall q
        ensures HasRow(rows[..i + 1], q) <==> HasRow(rows[..i], q) || p == q
      {
        HasRowPush(rows[..i], m, q);
      }
      if p !in provs {
        NoRowNoAcc(rows[..i], p);
        provs := provs[p := NoRows];
        order := order + [p];
      }
      provs := provs[p := Step(provs[p], m)];
    }
    assert rows[..|rows|] == rows;
  }

  method BuildCohort(rows: seq<Metric>, days: int) returns (cohort: seq<ProviderInput>)
    ensures CohortOf(cohort, rows, days)
  {
    var provs, order := GatherRows(rows);
    cohort := [];
    for k := 0 to |order|
      invariant |cohort| == k && forall j :: 0 <= j < k ==> cohort[j] == InputOf(rows, order[j], days)
    {
      var a := provs[order[k]];
      var coverage: Option<real> := None;
      if |a.coverages| > 0 {
        var m := MinOf(a.coverages);
        coverage := Some(m);
      }
      var values := Put(a.values, CoverageShare, coverage);
      var reliability := if ReliabilityShare in values then Some(values[ReliabilityShare]) else None;
      cohort := cohort + [ProviderInput(order[k], values, a.ciHalf, a.tempSample, a.precipSample, days, coverage, reliability)];
    }
    forall p
      ensures HasRow(rows, p) <==> InputOf(rows, p, days) in cohort
    {
      if HasRow(rows, p) {
        var j :| 0 <= j < |order| && order[j] == p;
        assert cohort[j] == InputOf(rows, p, days);
      }
      if InputOf(rows, p, days) in cohort {
        var j :| 0 <= j < |cohort| && cohort[j] == InputOf(rows, p, days);
        assert order[j] in order;
      }
    }
  }

  // ---- Order of the rows ---------------------------------------------------------------

  /** At most one row per provider, variable and metric. */
  ghost predicate OneRowPerMetric(rows: seq<Metric>) {
    forall i, j :: 0 <= i < j < |rows| && ProviderOf(rows[i]) == ProviderOf(rows[j]) ==>
                     rows[i].key.variable != rows[j].key.variable || rows[i].key.kind != rows[j].key.kind
  }

  ghost predicate Feeds(rows: seq<Metric>, p: nat, c: Component, m: Metric) {
    m in rows && ProviderOf(m) == p && RoleOf(m) == Some(c)
  }

  predicate EntryIs(m: map<Component, real>, c: Component, v: Option<real>) {
    if v.Some? then c in m && m[c] == v.value else c !in m
  }

  /** What one component of a provider ends up with, said without reference to order. */
  ghost predicate Captures(a: Acc, rows: seq<Metric>, p: nat, c: Component) {
    && (forall m :: Feeds(rows, p, c, m) && c != CoverageShare ==>
          && EntryIs(a.values, c, ValueFor(c, m)) && EntryIs(a.ciHalf, c, HalfFor(c, m))
          && (c == TempMae ==> a.tempSample == m.sample) && (c == PrecipF1 ==> a.precipSample == m.sample))
    && ((forall m :: !Feeds(rows, p, c, m)) || c == CoverageShare ==>
          && c !in a.values && c !in a.ciHalf
          && (c == TempMae ==> a.tempSample == 0) && (c == PrecipF1 ==> a.precipSample == 0))
    && (c == CoverageShare ==>
          forall x {:trigger x in a.coverages} :: x in a.coverages <==> exists m :: Feeds(rows, p, c, m) && m.value == Some(x))
  }

  lemma FeedsPush(rows: seq<Metric>, m: Metric, p: nat, c: Component)
    ensures forall x :: Feeds(rows + [m], p, c, x) <==> Feeds(rows, p, c, x) || (x == m && ProviderOf(m) == p && RoleOf(m) == Some(c))
  {
  }

  /** A role other than coverage is one variable and one metric, so a second row cannot feed it. */
  lemma FedOnce(rows: seq<Metric>, m: Metric, p: nat, c: Component, x: Metric)
    requires OneRowPerMetric(rows + [m]) && ProviderOf(m) == p && RoleOf(m) == Some(c) && c != CoverageShare
    ensures !Feeds(rows, p, c, x)
  {
    var all := rows + [m];
    forall i | 0 <= i < |rows|
      ensures !(ProviderOf(rows[i]) == p && RoleOf(rows[i]) == Some(c))
    {
      assert all[i] == rows[i] && all[|rows|] == m;
    }
  }

  /** A row leaves every component but its own alone. */
  lemma StepLeaves(a: Acc, m: Metric, c: Component)
    requires RoleOf(m) != Some(c)
    ensures var b := Step(a, m);
            && (c in a.values <==> c in b.values) && (c in a.values ==> a.values[c] == b.values[c])
            && (c in a.ciHalf <==> c in b.ciHalf) && (c in a.ciHalf ==> a.ciHalf[c] == b.ciHalf[c])
            && (c == TempMae ==> a.tempSample == b.tempSample) && (c == PrecipF1 ==> a.precipSample == b.precipSample)
            && (c == CoverageShare ==> a.coverages == b.coverages)
  {
  }

  lemma StepSets(a: Acc, m: Metric, c: Component)
    requires RoleOf(m) == Some(c) && c != CoverageShare && c !in a.values && c !in a.ciHalf
    ensures var b := Step(a, m);
            && EntryIs(b.values, c, ValueFor(c, m)) && EntryIs(b.ciHalf, c, HalfFor(c, m))
            && (c == TempMae ==> b.tempSample == m.sample) && (c == PrecipF1 ==> b.precipSample == m.sample)
  {
  }

  lemma StepCaptures(a: Acc, rows: seq<Metric>, m: Metric, p: nat, c: Component)
    requires OneRowPerMetric(rows + [m]) && ProviderOf(m) == p && Captures(a, rows, p, c)
    ensures Captures(Step(a, m), rows + [m], p, c)
  {
    if c == CoverageShare {
      CoverageStep(a, rows, m, p);
    } else if RoleOf(m) == Some(c) {
      OwnStep(a, rows, m, p, c);
    } else {
      FeedsPush(rows, m, p, c);
      StepLeaves(a, m, c);
      KeepsCapture(a, rows, Step(a, m), rows + [m], p, c);
    }
  }

  lemma OwnStep(a: Acc, rows: seq<Metric>, m: Metric, p: nat, c: Component)
    requires OneRowPerMetric(rows + [m]) && ProviderOf(m) == p && RoleOf(m) == Some(c) && c != CoverageShare
    requires Captures(a, rows, p, c)
    ensures Captures(Step(a, m), rows + [m], p, c)
  {
    FeedsPush(rows, m, p, c);
    forall x
      ensures !Feeds(rows, p, c, x)
    {
      FedOnce(rows, m, p, c, x);
    }
    StepSets(a, m, c);
    assert Feeds(rows + [m], p, c, m);
  }

  lemma KeepsCapture(a: Acc, rows: seq<Metric>, b: Acc, more: seq<Metric>, p: nat, c: Component)
    requires Captures(a, rows, p, c) && c != CoverageShare
    requires forall x :: Feeds(more, p, c, x) <==> Feeds(rows, p, c, x)
    requires (c in a.values <==> c in b.values) && (c in a.values ==> a.values[c] == b.values[c])
    requires (c in a.ciHalf <==> c in b.ciHalf) && (c in a.ciHalf ==> a.ciHalf[c] == b.ciHalf[c])
    requires (c == TempMae ==> a.tempSample == b.tempSample) && (c == PrecipF1 ==> a.precipSample == b.precipSample)
    ensures Captures(b, more, p, c)
  {
    if x :| Feeds(rows, p, c, x) {
      assert Feeds(more, p, c, x);
    }
  }

  lemma CoverageStep(a: Acc, rows: seq<Metric>, m: Metric, p: nat)
    requires ProviderOf(m) == p && Captures(a, rows, p, CoverageShare)
    ensures Captures(Step(a, m), rows + [m], p, CoverageShare)
  {
    FeedsPush(rows, m, p, CoverageShare);
    var b := Step(a, m);
    forall x
      ensures x in b.coverages <==> exists y :: Feeds(rows + [m], p, CoverageShare, y) && y.value == Some(x)
    {
      if x in a.coverages {
        var y :| Feeds(rows, p, CoverageShare, y) && y.value == Some(x);
        assert Feeds(rows + [m], p, CoverageShare, y);
      }
      if x in b.coverages && x !in a.coverages {
        assert Feeds(rows + [m], p, CoverageShare, m);
      }
      if y :| Feeds(rows + [m], p, CoverageShare, y) && y.value == Some(x) {
        assert Feeds(rows, p, CoverageShare, y) || y == m;
      }
    }
  }

  lemma OtherProviderCaptures(a: Acc, rows: seq<Metric>, m: Metric, p: nat, c: Component)
    requires ProviderOf(m) != p && Captures(a, rows, p, c)
    ensures Captures(a, rows + [m], p, c)
  {
    FeedsPush(rows, m, p, c);
    forall x
      ensures Feeds(rows + [m], p, c, x) <==> Feeds(rows, p, c, x)
    {
    }
  }

  lemma {:induction false} AccCaptures(rows: seq<Metric>, p: nat, c: Component)
    requires OneRowPerMetric(rows)
    ensures Captures(AccOf(rows, p), rows, p, c)
  {
    if rows != [] {
      var n := |rows| - 1;
      var front, m := rows[..n], rows[n];
      assert rows == front + [m];
      AccCaptures(front, p, c);
      if ProviderOf(m) == p {
        StepCaptures(AccOf(front, p), front, m, p, c);
      } else {
        OtherProviderCaptures(AccOf(front, p), front, m, p, c);
      }
    }
  }

  ghost predicate SameRows(a: seq<Metric>, b: seq<Metric>) {
    forall m :: m in a <==> m in b
  }

  lemma EntriesAgree(x: Acc, y: Acc, a: seq<Metric>, b: seq<Metric>, p: nat, c: Component)
    requires SameRows(a, b) && Captures(x, a, p, c) && Captures(y, b, p, c)
    ensures c in x.values <==> c in y.values
    ensures c in x.values ==> x.values[c] == y.values[c]
    ensures c in x.ciHalf <==> c in y.ciHalf
    ensures c in x.ciHalf ==> x.ciHalf[c] == y.ciHalf[c]
    ensures c == TempMae ==> x.tempSample == y.tempSample
    ensures c == PrecipF1 ==> x.precipSample == y.precipSample
  {
    if m :| Feeds(a, p, c, m) {
      assert Feeds(b, p, c, m);
    } else {
      forall m
        ensures !Feeds(b, p, c, m)
      {
        assert !Feeds(a, p, c, m);
      }
    }
  }

  lemma CoveragesAgree(x: Acc, y: Acc, a: seq<Metric>, b: seq<Metric>, p: nat)
    requires SameRows(a, b) && Captures(x, a, p, CoverageShare) && Captures(y, b, p, CoverageShare)
    ensures forall v :: v in x.coverages ==> v in y.coverages
  {
    forall v | v in x.coverages
      ensures v in y.coverages
    {
      var m :| Feeds(a, p, CoverageShare, m) && m.value == Some(v);
      assert Feeds(b, p, CoverageShare, m);
    }
  }

  lemma LowestAgrees(x: seq<real>, y: seq<real>)
    requires forall v :: v in x <==> v in y
    ensures x == [] <==> y == []
    ensures x != [] ==> Least(x) == Least(y)
  {
    if x != [] {
      var v: real := Least(x);
      assert v in y;
    }
    if y != [] {
      var v: real := Least(y);
      assert v in x;
    }
  }

  /** A provider's input is the same for every order in which the rows are read. */
  lemma InputIgnoresOrder(a: seq<Metric>, b: seq<Metric>, p: nat, days: int)
    requires OneRowPerMetric(a) && OneRowPerMetric(b) && SameRows(a, b)
    ensures InputOf(a, p, days) == InputOf(b, p, days)
  {
    var x, y := AccOf(a, p), AccOf(b, p);
    forall c
      ensures c in x.values <==> c in y.values
      ensures c in x.values ==> x.values[c] == y.values[c]
      ensures c in x.ciHalf <==> c in y.ciHalf
      ensures c in x.ciHalf ==> x.ciHalf[c] == y.ciHalf[c]
    {
      ComponentAgrees(a, b, p, c);
    }
    assert x.values == y.values && x.ciHalf == y.ciHalf;
    ComponentAgrees(a, b, p, TempMae);
    ComponentAgrees(a, b, p, PrecipF1);
    AccCaptures(a, p, CoverageShare);
    AccCaptures(b, p, CoverageShare);
    CoveragesAgree(x, y, a, b, p);
    CoveragesAgree(y, x, b, a, p);
    LowestAgrees(x.coverages, y.coverages);
    assert CoverageOf(x) == CoverageOf(y);
  }

  lemma ComponentAgrees(a: seq<Metric>, b: seq<Metric>, p: nat, c: Component)
    requires OneRowPerMetric(a) && OneRowPerMetric(b) && SameRows(a, b)
    ensures var x, y := AccOf(a, p), AccOf(b, p);
            && (c in x.values <==> c in y.values) && (c in x.values ==> x.values[c] == y.values[c])
            && (c in x.ciHalf <==> c in y.ciHalf) && (c in x.ciHalf ==> x.ciHalf[c] == y.ciHalf[c])
            && (c == TempMae ==> x.tempSample == y.tempSample) && (c == PrecipF1 ==> x.precipSample == y.precipSample)
  {
    AccCaptures(a, p, c);
    AccCaptures(b, p, c);
    EntriesAgree(AccOf(a, p), AccOf(b, p), a, b, p, c);
  }

  /** Both cohorts hold the same providers with the same inputs. */
  lemma CohortIgnoresOrder(a: seq<Metric>, b: seq<Metric>, ca: seq<ProviderInput>, cb: seq<ProviderInput>, days: int)
    requires OneRowPerMetric(a) && OneRowPerMetric(b) && SameRows(a, b)
    requires CohortOf(ca, a, days) && CohortOf(cb, b, days)
    ensures SameProviders(ca, cb)
  {
    forall q
      ensures q in ca <==> q in cb
    {
      InputIgnoresOrder(a, b, q.provider, days);
      RowsAgree(a, b, q.provider);
      assert HasRow(a, q.provider) <==> InputOf(a, q.provider, days) in ca;
      assert HasRow(b, q.provider) <==> InputOf(b, q.provider, days) in cb;
    }
  }

  lemma RowsAgree(a: seq<Metric>, b: seq<Metric>, p: nat)
    requires SameRows(a, b)
    ensures HasRow(a, p) <==> HasRow(b, p)
  {
    if HasRow(a, p) {
      var i :| 0 <= i < |a| && ProviderOf(a[i]) == p;
      assert a[i] in b;
    }
    if HasRow(b, p) {
      var i :| 0 <= i < |b| && ProviderOf(b[i]) == p;
      assert b[i] in a;
    }
  }

  /** Reading the live rows in another order ranks every provider with the same row. */
  lemma RankingIgnoresRowOrder(a: seq<Metric>, b: seq<Metric>, ca: seq<ProviderInput>, cb: seq<ProviderInput>,
                               days: int, p: ProviderInput)
    requires OneRowPerMetric(a) && OneRowPerMetric(b) && SameRows(a, b)
    requires CohortOf(ca, a, days) && CohortOf(cb, b, days)
    requires NonNegative(ca) && NonNegative(cb) && p in ca
    ensures p in cb && RankOne(ca, p) == RankOne(cb, p)
  {
    CohortIgnoresOrder(a, b, ca, cb, days);
    RankIgnoresOrder(ca, cb, p);
  }

  // ---- Rows that aggregation writes are fit to rank ------------------------------------

  /** Errors that enter by size are non-negative, scores and shares lie in [0, 1]. */
  predicate RowInRange(m: Metric) {
    RowOk(m) &&
    (m.value.Some? ==>
       && (m.key.kind in {MeanAbsolute, RainAll} ==> m.value.value >= 0.0)
       && (m.key.kind in {F1Score, Coverage, Reliability} ==> 0.0 <= m.value.value <= 1.0))
  }

  lemma MeanAbsoluteNonNegative(s: seq<WeightedSums.Term>)
    requires WeightedSums.NonNegative(s)
    ensures MeanOf(s, WeightedSums.TimesAbs).Some? ==> MeanOf(s, WeightedSums.TimesAbs).value >= 0.0
  {
    WeightedSums.ErrorWithinAbs(s);
    WeightedSums.WeightsNonNegative(s);
    if Sum(s, WeightedSums.Weight) != 0.0 {
      QuotientSign(Sum(s, WeightedSums.TimesAbs), Sum(s, WeightedSums.Weight));
    }
  }

  lemma ErrorsOfNonNegative(pairs: seq<PairRecord>, v: Variable)
    ensures WeightedSums.NonNegative(ErrorsOf(pairs, v))
  {
    ErrorsNonNegative(pairs, Temp);
    ErrorsNonNegative(pairs, Wind);
    ErrorsNonNegative(pairs, Humid);
    ErrorsNonNegative(pairs, Press);
    ErrorsNonNegative(pairs, RainAllHours);
  }

  /** Every row that reports what its key means is in range. */
  lemma ReportedRowInRange(m: Metric, pairs: seq<PairRecord>, c: Counts, sqrt: real -> real)
    requires Reports(m, pairs, c, sqrt)
    ensures RowInRange(m)
  {
    match m.key.kind
    case MeanAbsolute =>
      ErrorsOfNonNegative(pairs, m.key.variable);
      MeanAbsoluteNonNegative(ErrorsOf(pairs, m.key.variable));
    case RainAll =>
      ErrorsNonNegative(pairs, RainAllHours);
      MeanAbsoluteNonNegative(Errors(pairs, RainAllHours));
    case F1Score =>
      OutcomesNonNegative(pairs);
      ShareIsRate(Selected(pairs, RainOutcome), F1Score);
    case _ =>
  }

  ghost predicate AccInRange(a: Acc) {
    && (forall c :: c in a.values ==> a.values[c] >= 0.0 && (DirectionOf(c).Direct? ==> a.values[c] <= 1.0))
    && (forall c :: c in a.ciHalf ==> a.ciHalf[c] >= 0.0)
    && (forall i :: 0 <= i < |a.coverages| ==> 0.0 <= a.coverages[i] <= 1.0)
  }

  lemma StepInRange(a: Acc, m: Metric)
    requires AccInRange(a) && RowInRange(m)
    ensures AccInRange(Step(a, m))
  {
  }

  ghost predicate RowsInRange(rows: seq<Metric>) {
    forall i :: 0 <= i < |rows| ==> RowInRange(rows[i])
  }

  lemma {:induction false} GatheredInRange(rows: seq<Metric>, p: nat)
    requires RowsInRange(rows)
    ensures AccInRange(AccOf(rows, p))
  {
    if rows != [] {
      var n := |rows| - 1;
      GatheredInRange(rows[..n], p);
      StepInRange(AccOf(rows[..n], p), rows[n]);
    }
  }

  /** A cohort built from such rows meets everything ranking asks of its inputs. */
  lemma CohortWellFormed(cohort: seq<ProviderInput>, rows: seq<Metric>, days: int)
    requires RowsInRange(rows) && CohortOf(cohort, rows, days)
    ensures WellFormed(cohort) && NonNegative(cohort)
  {
    forall i | 0 <= i < |cohort|
      ensures InputOk(cohort[i])
    {
      GatheredInRange(rows, cohort[i].provider);
    }
    assert forall i :: 0 <= i < |cohort| ==> InputOk(cohort[i]);
  }

  // ---- Ranking one cell ----------------------------------------------------------------

  function KeyFor(cell: Scope, provider: nat): Scope { cell.(provider := provider) }

  function RankedRows(ranked: seq<ProviderRanking>, cell: Scope, firstId: nat): seq<P.Row<Scope, ProviderRanking>> {
    seq(|ranked|, i requires 0 <= i < |ranked| =>
      P.Row(firstId + i, KeyFor(cell, ranked[i].provider), ranked[i], None))
  }

  ghost predicate IdsBelow(t: seq<P.Row<Scope, ProviderRanking>>, firstId: nat) {
    forall i :: 0 <= i < |t| ==> t[i].id < firstId
  }

  /** The one live row of a provider in a cell is the row its input gets in this cohort. */
  ghost predicate PublishedRank(t: seq<P.Row<Scope, ProviderRanking>>, cell: Scope, cohort: seq<ProviderInput>, p: ProviderInput)
    requires NonNegative(cohort) && p in cohort
  {
    P.OneLive(t, KeyFor(cell, p.provider)) &&
    forall i :: P.LiveAt(t, i, KeyFor(cell, p.provider)) ==> t[i].content == RankOne(cohort, p)
  }

  lemma BatchRanks(t: seq<P.Row<Scope, ProviderRanking>>, ranked: seq<ProviderRanking>, cell: Scope, firstId: nat, j: nat)
    requires P.DistinctIds(t) && IdsBelow(t, firstId) && j < |ranked|
    requires forall a, b :: 0 <= a < b < |ranked| ==> ranked[a].provider != ranked[b].provider
    ensures var batch := RankedRows(ranked, cell, firstId);
            && P.NewRows(t, batch) && P.DistinctKeys(batch)
            && P.OneLive(P.Publish(t, batch), KeyFor(cell, ranked[j].provider))
            && forall i :: P.LiveAt(P.Publish(t, batch), i, KeyFor(cell, ranked[j].provider)) ==>
                             P.Publish(t, batch)[i].content == ranked[j]
  {
    var batch := RankedRows(ranked, cell, firstId);
    var key := KeyFor(cell, ranked[j].provider);
    assert batch[j].key == key;
    P.OneLiveExactlyWhen(t, batch, key);
    P.NewRowLiveExactly(t, batch, j);
    assert P.LiveAt(P.Publish(t, batch), |t| + j, key);
  }

  lemma RankedRowsAreNew(t: seq<P.Row<Scope, ProviderRanking>>, ranked: seq<ProviderRanking>, cell: Scope, firstId: nat)
    requires P.DistinctIds(t) && IdsBelow(t, firstId)
    requires forall a, b :: 0 <= a < b < |ranked| ==> ranked[a].provider != ranked[b].provider
    ensures P.NewRows(t, RankedRows(ranked, cell, firstId)) && P.DistinctKeys(RankedRows(ranked, cell, firstId))
  {
  }

  /** Rank one cell from its live metric rows and publish: every provider with a row then has
      exactly one live ranking row, the one its input gets in this cohort. */
  method RankCell(store: P.Store<Scope, ProviderRanking>, cell: Scope, rows: seq<Metric>, days: int, firstId: nat)
    returns (cohort: seq<ProviderInput>)
    requires RowsInRange(rows) && P.Inv(store.table) && IdsBelow(store.table, firstId)
    modifies store
    ensures P.Inv(store.table) && CohortOf(cohort, rows, days) && WellFormed(cohort) && NonNegative(cohort)
    ensures forall j :: 0 <= j < |cohort| ==> PublishedRank(store.table, cell, cohort, cohort[j])
  {
    cohort := BuildCohort(rows, days);
    CohortWellFormed(cohort, rows, days);
    var ranked := RankCohort(cohort);
    ghost var before := store.table;
    RankedRowsAreNew(before, ranked, cell, firstId);
    store.PublishBatch(RankedRows(ranked, cell, firstId));
    forall j | 0 <= j < |cohort|
      ensures PublishedRank(store.table, cell, cohort, cohort[j])
    {
      BatchRanks(before, ranked, cell, firstId, j);
    }
  }
}
