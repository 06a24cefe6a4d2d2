/** Observation collection and matching as one interleaved system.

    Any number of observation transactions are in flight; each reads the live rows once and
    commits later, possibly against rows that have changed since.  One matching batch runs at a
    time; its scan, each candidate lookup, its rematch query and its inserts are separate
    database steps, between which observations and snapshots go on arriving. */
module Lineage {
  import opened Options
  import opened Observations
  import opened Matching

  datatype Matcher =
    | Idle
    | Scanning(todo: seq<Snapshot>, matches: set<Pair>)
    | Rematching(targets: set<Pair>)

  datatype State = State(
    observations: Table, snapshots: set<Snapshot>, pairs: set<Pair>, plans: seq<seq<Item>>, matcher: Matcher)

  datatype Event =
    | ObserveRead(w: Window, fetched: seq<Observation>)
    | ObserveCommit(k: nat)
    | ObserveDrop(k: nat)
    | Collect(snapshot: Snapshot)
    | ScanChunk(chunk: seq<Snapshot>)
    | FindOne
    | InsertMatches
    | ListTargets(chosen: set<Pair>)
    | InsertTargets
    | MatcherFails

  const Initial: State := State([], {}, {}, [], Idle)

  /** Ids come from a generator that never repeats, so in-flight rows collide with nothing. */
  ghost predicate FreshIds(s: State, fetched: seq<Observation>) {
    forall a, k, j :: 0 <= a < |s.plans| && 0 <= k < |s.plans[a]| && 0 <= j < |fetched| ==>
      s.plans[a][k].row.id != fetched[j].id
  }

  ghost predicate DistinctSnapshots(todo: seq<Snapshot>) {
    forall i, j :: 0 <= i < j < |todo| ==> todo[i].id != todo[j].id
  }

  ghost predicate Enabled(s: State, e: Event) {
    match e
    case ObserveRead(w, fetched) => Fetched(s.observations, w, fetched) && FreshIds(s, fetched)
    case ObserveCommit(k) => k < |s.plans|
    case ObserveDrop(k) => k < |s.plans|
    case Collect(snapshot) => forall x :: x in s.snapshots ==> x.id != snapshot.id
    case ScanChunk(chunk) =>
      && s.matcher.Idle? && DistinctSnapshots(chunk)
      && forall x :: x in chunk ==> x in s.snapshots && !Matched(s.pairs, x.id)
    case FindOne => s.matcher.Scanning? && s.matcher.todo != []
    case InsertMatches => s.matcher.Scanning? && s.matcher.todo == []
    case ListTargets(chosen) => s.matcher.Idle? && chosen <= Targets(s.observations, s.pairs)
    case InsertTargets => s.matcher.Rematching?
    case MatcherFails => true
  }

  function Without(plans: seq<seq<Item>>, k: nat): seq<seq<Item>>
    requires k < |plans|
  {
    plans[..k] + plans[k + 1..]
  }

  ghost function Apply(s: State, e: Event): State
    requires Enabled(s, e)
  {
    match e
    case ObserveRead(w, fetched) => s.(plans := s.plans + [Plan(s.observations, w, fetched)])
    case ObserveCommit(k) =>
      var after := Commit(s.observations, s.plans[k]);
      s.(observations := if after.Some? then after.value else s.observations, plans := Without(s.plans, k))
    case ObserveDrop(k) => s.(plans := Without(s.plans, k))
    case Collect(snapshot) => s.(snapshots := s.snapshots + {snapshot})
    case ScanChunk(chunk) => s.(matcher := Scanning(chunk, {}))
    case FindOne =>
      var snapshot := s.matcher.todo[0];
      s.(matcher := Scanning(s.matcher.todo[1..], s.matcher.matches + ChosenPair(s.observations, snapshot)))
    case InsertMatches => s.(pairs := s.pairs + s.matcher.matches, matcher := Idle)
    case ListTargets(chosen) => s.(matcher := Rematching(chosen))
    case InsertTargets => s.(pairs := s.pairs + s.matcher.targets, matcher := Idle)
    case MatcherFails => s.(matcher := Idle)
  }

  // ---- The invariant -------------------------------------------------------------------

  ghost predicate PlansOk(t: Table, plans: seq<seq<Item>>) {
    && (forall a :: 0 <= a < |plans| ==> PlanOk(t, plans[a]))
    && (forall a, b, k, l :: 0 <= a < b < |plans| && 0 <= k < |plans[a]| && 0 <= l < |plans[b]| ==>
          plans[a][k].row.id != plans[b][l].row.id)
  }

  ghost predicate MatcherOk(t: Table, pairs: set<Pair>, m: Matcher) {
    match m
    case Idle => true
    case Scanning(todo, matches) =>
      && FreshMatches(t, pairs, matches)
      && DistinctSnapshots(todo)
      && (forall x :: x in todo ==> !Matched(pairs, x.id) && !Matched(matches, x.id))
    case Rematching(targets) => Repairings(t, pairs, targets)
  }

  ghost predicate Inv(s: State) {
    && Chained(s.observations)
    && OnChains(s.observations, s.pairs)
    && PlansOk(s.observations, s.plans)
    && MatcherOk(s.observations, s.pairs, s.matcher)
  }

  // ---- Observation steps ---------------------------------------------------------------

  lemma PlanIdsFresh(s: State, w: Window, fetched: seq<Observation>, a: int, k: int, l: int)
    requires FreshIds(s, fetched) && 0 <= a < |s.plans| && 0 <= k < |s.plans[a]|
    requires 0 <= l < |Plan(s.observations, w, fetched)|
    ensures s.plans[a][k].row.id != Plan(s.observations, w, fetched)[l].row.id
  {
    var j := PlanOrigin(CurrentInWindow(s.observations, w), fetched, Plan(s.observations, w, fetched)[l]);
  }

  lemma PlansPush(t: Table, plans: seq<seq<Item>>, plan: seq<Item>)
    requires PlansOk(t, plans) && PlanOk(t, plan)
    requires forall a, k, l :: 0 <= a < |plans| && 0 <= k < |plans[a]| && 0 <= l < |plan| ==>
               plans[a][k].row.id != plan[l].row.id
    ensures PlansOk(t, plans + [plan])
  {
  }

  lemma ReadKeeps(s: State, w: Window, fetched: seq<Observation>)
    requires Inv(s) && Enabled(s, ObserveRead(w, fetched))
    ensures Inv(Apply(s, ObserveRead(w, fetched)))
  {
    var plan := Plan(s.observations, w, fetched);
    PlanIsOk(s.observations, w, fetched);
    forall a, k, l | 0 <= a < |s.plans| && 0 <= k < |s.plans[a]| && 0 <= l < |plan|
      ensures s.plans[a][k].row.id != plan[l].row.id
    {
      PlanIdsFresh(s, w, fetched, a, k, l);
    }
    PlansPush(s.observations, s.plans, plan);
  }

  lemma DropKeeps(t: Table, plans: seq<seq<Item>>, k: nat)
    requires PlansOk(t, plans) && k < |plans|
    ensures PlansOk(t, Without(plans, k))
    ensures forall b, m, l :: 0 <= b < |Without(plans, k)| && 0 <= m < |plans[k]| && 0 <= l < |Without(plans, k)[b]| ==>
              plans[k][m].row.id != Without(plans, k)[b][l].row.id
  {
    var rest := Without(plans, k);
    assert forall b :: 0 <= b < |rest| ==> rest[b] == plans[if b < k then b else b + 1];
  }

  lemma CommittedIds(t: Table, items: seq<Item>, i: int)
    requires Chained(t) && PlanOk(t, items) && Commit(t, items).Some?
    requires |t| <= i < |Commit(t, items).value|
    ensures exists k :: 0 <= k < |items| && Commit(t, items).value[i].id == items[k].row.id
  {
    var t1 := SupersedeAll(t, Corrections(items)).value;
    InsertedFrom(t1, Rows(items), i);
    var k :| 0 <= k < |items| && Rows(items)[k] == Commit(t, items).value[i];
  }

  lemma OthersSurvive(t: Table, items: seq<Item>, t': Table, other: seq<Item>)
    requires Chained(t) && PlanOk(t, items) && Commit(t, items) == Some(t')
    requires PlanOk(t, other)
    requires forall k, l :: 0 <= k < |items| && 0 <= l < |other| ==> items[k].row.id != other[l].row.id
    ensures PlanOk(t', other)
  {
    CommitKeepsChains(t, items);
    forall i, l | 0 <= i < |t'| && 0 <= l < |other| ensures t'[i].id != other[l].row.id {
      if i >= |t| {
        CommittedIds(t, items, i);
      }
    }
    PlanSurvives(t, t', other);
  }

  lemma UsableSurvives(t: Table, t': Table, p: Pair)
    requires Evolves(t, t') && Usable(t, p)
    ensures Usable(t', p)
  {
    var i :| PairFits(t, p, i);
    assert PairFits(t', p, i);
  }

  lemma SameChainSurvives(t: Table, t': Table, p: Pair, q: Pair)
    requires DistinctIds(t') && Evolves(t, t') && Usable(t, p) && Usable(t, q) && SameChain(t, p, q)
    ensures SameChain(t', p, q)
  {
    var i :| PairFits(t, p, i);
    var j :| PairFits(t, q, j);
    assert t'[i].key == t'[j].key;
  }

  lemma MatcherSurvives(t: Table, t': Table, pairs: set<Pair>, m: Matcher)
    requires DistinctIds(t') && Evolves(t, t') && OnChains(t, pairs) && MatcherOk(t, pairs, m)
    ensures MatcherOk(t', pairs, m)
  {
    match m
    case Idle =>
    case Scanning(todo, matches) =>
      forall q | q in matches ensures Usable(t', q) {
        UsableSurvives(t, t', q);
      }
    case Rematching(targets) =>
      forall q | q in targets ensures exists p :: Extends(t', pairs, p, q) {
        var p :| Extends(t, pairs, p, q);
        UsableSurvives(t, t', q);
        SameChainSurvives(t, t', p, q);
        assert Extends(t', pairs, p, q);
      }
  }

  lemma CommitKeeps(s: State, k: nat)
    requires Inv(s) && Enabled(s, ObserveCommit(k))
    ensures Inv(Apply(s, ObserveCommit(k)))
  {
    var t, items, rest := s.observations, s.plans[k], Without(s.plans, k);
    DropKeeps(t, s.plans, k);
    if Commit(t, items).Some? {
      var t' := Commit(t, items).value;
      CommitKeepsChains(t, items);
      forall b | 0 <= b < |rest| ensures PlanOk(t', rest[b]) {
        OthersSurvive(t, items, t', rest[b]);
      }
      ChainsSurvive(t, t', s.pairs);
      MatcherSurvives(t, t', s.pairs, s.matcher);
    }
  }

  // ---- Matching steps ------------------------------------------------------------------

  lemma FindKeeps(s: State)
    requires Inv(s) && Enabled(s, FindOne)
    ensures Inv(Apply(s, FindOne))
  {
    var t, snap, rest := s.observations, s.matcher.todo[0], s.matcher.todo[1..];
    ChoiceFits(t, snap);
    var found := ChosenPair(t, snap);
    forall q | q in found ensures Usable(t, q) && q.snapshot == snap {
      var i :| 0 <= i < |t| && t[i] == Choice(t, snap).value;
      assert PairFits(t, q, i);
    }
    forall x | x in rest ensures x in s.matcher.todo && x.id != snap.id {
      var i :| 0 <= i < |rest| && rest[i] == x;
      assert s.matcher.todo[i + 1] == x;
    }
    assert forall q :: q in s.matcher.matches ==> q.snapshot.id != snap.id;
  }

  lemma ListKeeps(s: State, chosen: set<Pair>)
    requires Inv(s) && Enabled(s, ListTargets(chosen))
    ensures Inv(Apply(s, ListTargets(chosen)))
  {
    forall q | q in chosen ensures exists p :: Extends(s.observations, s.pairs, p, q) {
      TargetExtends(s.observations, s.pairs, q);
    }
  }

  /** Every step of the interleaved system keeps the invariant. */
  lemma StepKeepsInvariant(s: State, e: Event)
    requires Inv(s) && Enabled(s, e)
    ensures Inv(Apply(s, e))
  {
    match e
    case ObserveRead(w, fetched) => ReadKeeps(s, w, fetched);
    case ObserveCommit(k) => CommitKeeps(s, k);
    case ObserveDrop(k) => DropKeeps(s.observations, s.plans, k);
    case Collect(snapshot) =>
    case ScanChunk(chunk) =>
    case FindOne => FindKeeps(s);
    case InsertMatches => MatchesKeepChains(s.observations, s.pairs, s.matcher.matches);
    case ListTargets(chosen) => ListKeeps(s, chosen);
    case InsertTargets => RepairingsKeepChains(s.observations, s.pairs, s.matcher.targets);
    case MatcherFails =>
  }

  // ---- Runs ----------------------------------------------------------------------------

  ghost predicate Run(states: seq<State>, events: seq<Event>) {
    && |states| == |events| + 1
    && states[0] == Initial
    && forall k :: 0 <= k < |events| ==> Enabled(states[k], events[k]) && states[k + 1] == Apply(states[k], events[k])
  }

  lemma {:induction false} RunKeepsInvariant(states: seq<State>, events: seq<Event>, k: nat)
    requires Run(states, events) && k < |states|
    ensures Inv(states[k])
    decreases k
  {
    if k > 0 {
      RunKeepsInvariant(states, events, k - 1);
      assert Enabled(states[k - 1], events[k - 1]);
      StepKeepsInvariant(states[k - 1], events[k - 1]);
    }
  }

  /** The pairs that aggregation reads: to live observations that are not suspect. */
  ghost predicate Counted(s: State, p: Pair) {
    p in s.pairs && exists i :: PairFits(s.observations, p, i) && Live(s.observations[i])
  }

  /** In every reachable state of every interleaving no snapshot is counted twice. */
  lemma NoSnapshotCountedTwice(states: seq<State>, events: seq<Event>, k: nat, p: Pair, q: Pair)
    requires Run(states, events) && k < |states|
    requires Counted(states[k], p) && Counted(states[k], q) && p.snapshot.id == q.snapshot.id
    ensures p == q
  {
    RunKeepsInvariant(states, events, k);
    AtMostOneLivePair(states[k].observations, states[k].pairs, p, q);
  }

  /** All pairs of one snapshot lie on one supersession chain, which ends in a live row. */
  lemma PairsLieOnOneChain(states: seq<State>, events: seq<Event>, k: nat, p: Pair, q: Pair) returns (i: int, j: int, live: int)
    requires Run(states, events) && k < |states|
    requires p in states[k].pairs && q in states[k].pairs && p.snapshot.id == q.snapshot.id
    ensures PairFits(states[k].observations, p, i) && PairFits(states[k].observations, q, j)
    ensures var t := states[k].observations;
            if i <= j then Reaches(t, i, j) && Reaches(t, j, live) else Reaches(t, j, i) && Reaches(t, i, live)
    ensures 0 <= live < |states[k].observations| && Live(states[k].observations[live])
  {
    RunKeepsInvariant(states, events, k);
    var t := states[k].observations;
    assert SameChain(t, p, q);
    i :| PairFits(t, p, i);
    j :| PairFits(t, q, j);
    if i <= j {
      OneChainPerKey(t, i, j);
      live := ChainEnd(t, j);
    } else {
      OneChainPerKey(t, j, i);
      live := ChainEnd(t, i);
    }
  }

  /** Once a rematch finds nothing to do, every matched snapshot is counted exactly once. */
  lemma QuietMeansCountedOnce(states: seq<State>, events: seq<Event>, k: nat, p: Pair) returns (q: Pair)
    requires Run(states, events) && k < |states|
    requires p in states[k].pairs && Targets(states[k].observations, states[k].pairs) == {}
    ensures Counted(states[k], q) && q.snapshot == p.snapshot
    ensures forall r :: Counted(states[k], r) && r.snapshot.id == p.snapshot.id ==> r == q
  {
    RunKeepsInvariant(states, events, k);
    q := FixpointIsLive(states[k].observations, states[k].pairs, p);
    forall r | Counted(states[k], r) && r.snapshot.id == p.snapshot.id ensures r == q {
      AtMostOneLivePair(states[k].observations, states[k].pairs, r, q);
    }
  }

  // ---- Nothing is lost or skipped ------------------------------------------------------

  lemma RunStep(states: seq<State>, events: seq<Event>, k: nat)
    requires Run(states, events) && k < |events|
    ensures Enabled(states[k], events[k]) && states[k + 1] == Apply(states[k], events[k])
  {
  }

  /** Collected snapshots and pairs stay for good. */
  lemma {:induction false} NothingIsLost(states: seq<State>, events: seq<Event>, i: nat, k: nat)
    requires Run(states, events) && i <= k < |states|
    ensures states[i].snapshots <= states[k].snapshots && states[i].pairs <= states[k].pairs
    decreases k
  {
    if i < k {
      NothingIsLost(states, events, i, k - 1);
      RunStep(states, events, k - 1);
    }
  }

  lemma CollectedIsThere(states: seq<State>, events: seq<Event>, i: nat, k: nat)
    requires Run(states, events) && i < k < |states| && events[i].Collect?
    ensures events[i].snapshot in states[k].snapshots
  {
    RunStep(states, events, i);
    NothingIsLost(states, events, i + 1, k);
  }

  /** The scan that began with event a is still under way in every state up to k. */
  ghost predicate ScanningSince(states: seq<State>, events: seq<Event>, a: nat, k: nat) {
    && a < |events| && a < k < |states| && events[a].ScanChunk?
    && forall i :: a < i <= k ==> states[i].matcher.Scanning?
  }

  /** At state m the snapshot had no answer, or the pair was made of its best one. */
  ghost predicate LookedUp(s: State, x: Snapshot, matches: set<Pair>) {
    || (forall o :: o in s.observations ==> !Answers(o, x))
    || exists q :: q in matches && q.snapshot == x && PairedToBest(s.observations, q)
  }

  ghost predicate Handled(states: seq<State>, a: nat, k: nat, x: Snapshot)
    requires k < |states| && states[k].matcher.Scanning?
  {
    exists m :: a < m < k && LookedUp(states[m], x, states[k].matcher.matches)
  }

  lemma FindLooksUp(s: State, x: Snapshot)
    requires Enabled(s, FindOne) && s.matcher.todo[0] == x
    ensures Apply(s, FindOne).matcher.Scanning? && LookedUp(s, x, Apply(s, FindOne).matcher.matches)
  {
    ChoiceIsBest(s.observations, x);
    if Choice(s.observations, x).Some? {
      var o := Choice(s.observations, x).value;
      var q := Pair(x, o.id);
      assert BestAnswer(s.observations, x, o);
      assert PairedToBest(s.observations, q) && q in Apply(s, FindOne).matcher.matches;
    }
  }

  lemma MatchesGrow(s: State, e: Event)
    requires Enabled(s, e) && s.matcher.Scanning? && Apply(s, e).matcher.Scanning?
    ensures s.matcher.matches <= Apply(s, e).matcher.matches
    ensures Apply(s, e).matcher.todo == (if e == FindOne then s.matcher.todo[1..] else s.matcher.todo)
  {
  }

  lemma {:induction false} ScanHandles(states: seq<State>, events: seq<Event>, a: nat, k: nat, x: Snapshot)
    requires Run(states, events) && ScanningSince(states, events, a, k) && x in events[a].chunk
    ensures x in states[k].matcher.todo || Handled(states, a, k, x)
    decreases k
  {
    RunStep(states, events, k - 1);
    if k > a + 1 {
      var s := states[k - 1];
      assert s.matcher.Scanning?;
      ScanHandles(states, events, a, k - 1, x);
      MatchesGrow(s, events[k - 1]);
      if x !in s.matcher.todo {
        var m :| a < m < k - 1 && LookedUp(states[m], x, s.matcher.matches);
        assert LookedUp(states[m], x, states[k].matcher.matches);
      } else if x !in states[k].matcher.todo {
        assert s.matcher.todo == [s.matcher.todo[0]] + s.matcher.todo[1..];
        FindLooksUp(s, x);
        assert LookedUp(states[k - 1], x, states[k].matcher.matches);
      }
    }
  }

  /** When a scan's matches are inserted, every snapshot of its chunk was looked up while it ran: it had
      no answer then, or it is now paired with what was then its best one. */
  lemma ScanSkipsNothing(states: seq<State>, events: seq<Event>, a: nat, k: nat, x: Snapshot) returns (m: nat)
    requires Run(states, events) && ScanningSince(states, events, a, k) && x in events[a].chunk
    requires k < |events| && events[k] == InsertMatches
    ensures a < m < k && LookedUp(states[m], x, states[k + 1].pairs)
  {
    RunStep(states, events, k);
    ScanHandles(states, events, a, k, x);
    m :| a < m < k && LookedUp(states[m], x, states[k].matcher.matches);
  }
}
