/** Which metric row a ranking reads for what, by variable and metric. */
module CohortFields {
  import opened Options
  import opened Intervals
  import opened Ranking
  import opened Aggregation
  import opened Cohort

  /** The row of a provider for this variable and metric. */
  predicate IsRow(m: Metric, p: nat, v: Variable, k: Kind) {
    m.key.scope.provider == p && m.key.variable == v && m.key.kind == k
  }

  /** The component takes the row's value, and half the width of its interval. */
  predicate Enters(input: ProviderInput, c: Component, m: Metric) {
    && (m.value.Some? <==> c in input.values) && (m.value.Some? ==> input.values[c] == m.value.value)
    && (m.ci.Some? <==> c in input.ciHalf)
    && (m.ci.Some? ==> input.ciHalf[c] == (m.ci.value.upper - m.ci.value.lower) / 2.0)
  }

  predicate Absent(input: ProviderInput, c: Component) {
    c !in input.values && c !in input.ciHalf
  }

  /** The component is read from the rows of this variable and metric, and from no other. */
  ghost predicate ReadFrom(rows: seq<Metric>, input: ProviderInput, c: Component, v: Variable, k: Kind) {
    && (forall m :: m in rows && IsRow(m, input.provider, v, k) ==> Enters(input, c, m))
    && ((forall m :: m in rows ==> !IsRow(m, input.provider, v, k)) ==> Absent(input, c))
  }

  /** The component is fed by this variable and metric alone. */
  ghost predicate FedBy(c: Component, v: Variable, k: Kind) {
    forall m: Metric :: RoleOf(m) == Some(c) <==> m.key.variable == v && m.key.kind == k
  }

  lemma Roles()
    ensures FedBy(TempMae, Temperature, MeanAbsolute) && FedBy(WindMae, WindSpeed, MeanAbsolute)
    ensures FedBy(RainMae, Precipitation, RainAll) && FedBy(PrecipF1, Precipitation, F1Score)
  {
  }

  lemma FeedsMeans(rows: seq<Metric>, p: nat, c: Component, v: Variable, k: Kind, m: Metric)
    requires FedBy(c, v, k)
    ensures Feeds(rows, p, c, m) <==> m in rows && IsRow(m, p, v, k)
  {
    assert RoleOf(m) == Some(c) <==> m.key.variable == v && m.key.kind == k;
  }

  lemma EntryRead(rows: seq<Metric>, p: nat, days: int, c: Component, v: Variable, k: Kind)
    requires OneRowPerMetric(rows) && c in {TempMae, WindMae, RainMae, PrecipF1} && FedBy(c, v, k)
    ensures ReadFrom(rows, InputOf(rows, p, days), c, v, k)
  {
    var input := InputOf(rows, p, days);
    forall m | m in rows && IsRow(m, p, v, k) ensures Enters(input, c, m) {
      FeedsMeans(rows, p, c, v, k, m);
      RowEnters(rows, p, days, c, m);
    }
    if forall m :: m in rows ==> !IsRow(m, p, v, k) {
      forall m ensures !Feeds(rows, p, c, m) {
        FeedsMeans(rows, p, c, v, k, m);
      }
      NothingEnters(rows, p, days, c);
    }
  }

  lemma NothingEnters(rows: seq<Metric>, p: nat, days: int, c: Component)
    requires OneRowPerMetric(rows) && c in {TempMae, WindMae, RainMae, PrecipF1} && forall m :: !Feeds(rows, p, c, m)
    ensures Absent(InputOf(rows, p, days), c)
  {
    AccCaptures(rows, p, c);
  }

  lemma RowEnters(rows: seq<Metric>, p: nat, days: int, c: Component, m: Metric)
    requires OneRowPerMetric(rows) && c in {TempMae, WindMae, RainMae, PrecipF1} && Feeds(rows, p, c, m)
    ensures Enters(InputOf(rows, p, days), c, m)
  {
    AccCaptures(rows, p, c);
    var a := AccOf(rows, p);
    assert EntryIs(a.values, c, ValueFor(c, m)) && EntryIs(a.ciHalf, c, HalfFor(c, m));
  }

  /** Temperature, wind and rain errors and the precipitation F1 come from their own rows, with the
      half-width of their interval; the sample counts are those of the temperature error and the F1. */
  lemma ErrorsReadByName(rows: seq<Metric>, p: nat, days: int)
    requires OneRowPerMetric(rows)
    ensures var input := InputOf(rows, p, days);
            && ReadFrom(rows, input, TempMae, Temperature, MeanAbsolute)
            && ReadFrom(rows, input, WindMae, WindSpeed, MeanAbsolute)
            && ReadFrom(rows, input, RainMae, Precipitation, RainAll)
            && ReadFrom(rows, input, PrecipF1, Precipitation, F1Score)
    ensures var input := InputOf(rows, p, days);
            && (forall m :: m in rows && IsRow(m, p, Temperature, MeanAbsolute) ==> input.tempSample == m.sample)
            && (forall m :: m in rows && IsRow(m, p, Precipitation, F1Score) ==> input.precipSample == m.sample)
  {
    Roles();
    EntryRead(rows, p, days, TempMae, Temperature, MeanAbsolute);
    EntryRead(rows, p, days, WindMae, WindSpeed, MeanAbsolute);
    EntryRead(rows, p, days, RainMae, Precipitation, RainAll);
    EntryRead(rows, p, days, PrecipF1, Precipitation, F1Score);
    SamplesRead(rows, p);
  }

  lemma SamplesRead(rows: seq<Metric>, p: nat)
    requires OneRowPerMetric(rows)
    ensures forall m :: m in rows && IsRow(m, p, Temperature, MeanAbsolute) ==> AccOf(rows, p).tempSample == m.sample
    ensures forall m :: m in rows && IsRow(m, p, Precipitation, F1Score) ==> AccOf(rows, p).precipSample == m.sample
  {
    AccCaptures(rows, p, TempMae);
    AccCaptures(rows, p, PrecipF1);
    forall m | m in rows && IsRow(m, p, Temperature, MeanAbsolute) ensures AccOf(rows, p).tempSample == m.sample {
      assert Feeds(rows, p, TempMae, m);
    }
    forall m | m in rows && IsRow(m, p, Precipitation, F1Score) ensures AccOf(rows, p).precipSample == m.sample {
      assert Feeds(rows, p, PrecipF1, m);
    }
  }

  /** The bias enters by its size, with the half-width of its interval. */
  lemma BiasReadBySize(rows: seq<Metric>, p: nat, days: int, m: Metric)
    requires OneRowPerMetric(rows) && m in rows && IsRow(m, p, Temperature, SignedBias)
    ensures var input := InputOf(rows, p, days);
            && (m.value.Some? <==> TempBias in input.values)
            && (m.value.Some? ==>
                  input.values[TempBias] == if m.value.value < 0.0 then -m.value.value else m.value.value)
            && (m.ci.Some? <==> TempBias in input.ciHalf)
            && (m.ci.Some? ==> input.ciHalf[TempBias] == (m.ci.value.upper - m.ci.value.lower) / 2.0)
  {
    AccCaptures(rows, p, TempBias);
    assert Feeds(rows, p, TempBias, m);
  }

  /** Reliability enters as it is. */
  lemma ReliabilityRead(rows: seq<Metric>, p: nat, days: int, m: Metric)
    requires OneRowPerMetric(rows) && m in rows && IsRow(m, p, AllVariables, Reliability)
    ensures InputOf(rows, p, days).reliability == m.value
  {
    AccCaptures(rows, p, ReliabilityShare);
    assert Feeds(rows, p, ReliabilityShare, m);
  }

  /** Coverage is the lowest known coverage of any variable, and counts as a component too. */
  lemma CoverageIsLowest(rows: seq<Metric>, p: nat, days: int)
    requires OneRowPerMetric(rows)
    ensures var input := InputOf(rows, p, days);
            && (forall m :: m in rows && m.key.scope.provider == p && m.key.kind == Coverage && m.value.Some? ==>
                  input.coverage.Some? && input.coverage.value <= m.value.value)
            && (input.coverage.Some? ==>
                  exists m :: m in rows && m.key.scope.provider == p && m.key.kind == Coverage && m.value == input.coverage)
            && (CoverageShare in input.values <==> input.coverage.Some?)
            && (input.coverage.Some? ==> input.values[CoverageShare] == input.coverage.value)
  {
    AccCaptures(rows, p, CoverageShare);
    var a, input := AccOf(rows, p), InputOf(rows, p, days);
    forall m | m in rows && m.key.scope.provider == p && m.key.kind == Coverage && m.value.Some?
      ensures input.coverage.Some? && input.coverage.value <= m.value.value
    {
      var x := m.value.value;
      assert Feeds(rows, p, CoverageShare, m) && m.value == Some(x);
      assert x in a.coverages;
    }
    if input.coverage.Some? {
      assert input.coverage.value in a.coverages;
      var m :| Feeds(rows, p, CoverageShare, m) && m.value == input.coverage;
    }
  }
}
