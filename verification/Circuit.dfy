/** The provider circuit breaker: five recorded failures in a row open it, a probe is admitted a
    minute after the last of them, and a recorded success closes it. */
module Circuit {
  import opened Options

  datatype State = Closed | HalfOpen | Open

  const FailureThreshold := 5
  const ProbeDelay := 60

  /** The stored row of a provider's breaker. */
  datatype Row = Row(state: State, failures: nat, lastFailureAt: Option<int>, openedAt: Option<int>,
                     nextProbeAt: Option<int>)

  const Fresh := Row(Closed, 0, None, None, None)

  datatype Decision = Decision(allowed: bool, probe: bool, state: State, retryAt: Option<int>)

  // ---- One call ------------------------------------------------------------------------

  class ProviderCircuit {
    var state: State
    var failures: nat
    var lastFailureAt: Option<int>
    var openedAt: Option<int>
    var nextProbeAt: Option<int>

    constructor (row: Row)
      ensures Stored() == row
    {
      state, failures := row.state, row.failures;
      lastFailureAt, openedAt, nextProbeAt := row.lastFailureAt, row.openedAt, row.nextProbeAt;
    }

    function Stored(): Row
      reads this
    {
      Row(state, failures, lastFailureAt, openedAt, nextProbeAt)
    }

    method Evaluate(now: int) returns (d: Decision)
      modifies this
      ensures Stored() == AfterEvaluate(old(Stored()), now)
      ensures d.allowed == Admits(old(Stored()), now) && d.state == state
      ensures d.probe <==> d.allowed && d.state == HalfOpen
      ensures !d.allowed ==> d.retryAt == nextProbeAt
    {
      match state
      case Open =>
        if nextProbeAt.Some? && now >= nextProbeAt.value {
          state := HalfOpen;
          return Decision(true, true, HalfOpen, None);
        }
        return Decision(false, false, Open, nextProbeAt);
      case HalfOpen =>
        return Decision(true, true, HalfOpen, None);
      case Closed =>
        return Decision(true, false, Closed, None);
    }

    method ApplySuccess(now: int) returns (prev: State)
      modifies this
      ensures Stored() == AfterSuccess(old(Stored())) && prev == old(state)
    {
      prev := state;
      state, failures := Closed, 0;
      openedAt, nextProbeAt := None, None;
    }

    method ApplyFailure(now: int) returns (prev: State)
      modifies this
      ensures Stored() == AfterFailure(old(Stored()), now) && prev == old(state)
    {
      prev := state;
      failures := failures + 1;
      lastFailureAt := Some(now);
      if failures >= FailureThreshold {
        state := Open;
        openedAt := Some(now);
        nextProbeAt := Some(now + ProbeDelay);
      }
    }
  }

  /** Refused only while open and before the probe time. */
  predicate Admits(r: Row, now: int) {
    r.state != Open || (r.nextProbeAt.Some? && now >= r.nextProbeAt.value)
  }

  function AfterEvaluate(r: Row, now: int): Row {
    if r.state == Open && Admits(r, now) then r.(state := HalfOpen) else r
  }

  function AfterSuccess(r: Row): Row {
    r.(state := Closed, failures := 0, openedAt := None, nextProbeAt := None)
  }

  function AfterFailure(r: Row, now: int): Row {
    var more := r.(failures := r.failures + 1, lastFailureAt := Some(now));
    if more.failures >= FailureThreshold
    then more.(state := Open, openedAt := Some(now), nextProbeAt := Some(now + ProbeDelay))
    else more
  }

  // ---- The stored breakers -------------------------------------------------------------

  datatype Transition = Transition(provider: nat, changed: bool, before: State, now: State, failures: nat)

  class CircuitService {
    var rows: map<nat, Row>

    constructor ()
      ensures rows == map[]
    {
      rows := map[];
    }

    /** A provider without a row has a closed breaker. */
    function Get(provider: nat): Row
      reads this
    {
      if provider in rows then rows[provider] else Fresh
    }

    method Evaluate(provider: nat, now: int) returns (d: Decision)
      modifies this
      ensures Get(provider) == AfterEvaluate(old(Get(provider)), now)
      ensures d.allowed == Admits(old(Get(provider)), now)
      ensures forall p :: p != provider ==> Get(p) == old(Get(p))
    {
      var circuit := new ProviderCircuit(Get(provider));
      var before := circuit.state;
      d := circuit.Evaluate(now);
      if circuit.state != before {
        rows := rows[provider := circuit.Stored()];
      }
    }

    method RecordSuccess(provider: nat, now: int) returns (t: Transition)
      modifies this
      ensures Get(provider) == AfterSuccess(old(Get(provider)))
      ensures forall p :: p != provider ==> Get(p) == old(Get(p))
      ensures t == Transition(provider, old(Get(provider)).state != Closed, old(Get(provider)).state, Closed, 0)
    {
      var circuit := new ProviderCircuit(Get(provider));
      var prev := circuit.ApplySuccess(now);
      rows := rows[provider := circuit.Stored()];
      t := Transition(provider, prev != circuit.state, prev, circuit.state, circuit.failures);
    }

    method RecordFailure(provider: nat, now: int) returns (t: Transition)
      modifies this
      ensures Get(provider) == AfterFailure(old(Get(provider)), now)
      ensures forall p :: p != provider ==> Get(p) == old(Get(p))
      ensures t.provider == provider && t.before == old(Get(provider)).state && t.now == Get(provider).state
      ensures t.changed <==> t.before != t.now
      ensures t.failures == old(Get(provider)).failures + 1
    {
      var circuit := new ProviderCircuit(Get(provider));
      var prev := circuit.ApplyFailure(now);
      rows := rows[provider := circuit.Stored()];
      t := Transition(provider, prev != circuit.state, prev, circuit.state, circuit.failures);
    }
  }

  // ---- Whole runs ----------------------------------------------------------------------

  datatype Event = Evaluated(at: int) | Succeeded(at: int) | Failed(at: int)

  function After(r: Row, e: Event): Row {
    match e
    case Evaluated(now) => AfterEvaluate(r, now)
    case Succeeded(now) => AfterSuccess(r)
    case Failed(now) => AfterFailure(r, now)
  }

  function Run(events: seq<Event>): Row {
    if events == [] then Fresh else After(Run(events[..|events| - 1]), events[|events| - 1])
  }

  /** Recorded failures since the last recorded success. */
  function Streak(events: seq<Event>): nat {
    if events == [] || events[|events| - 1].Succeeded? then 0
    else Streak(events[..|events| - 1]) + (if events[|events| - 1].Failed? then 1 else 0)
  }

  /** When the latest of those failures was recorded. */
  function LastFailure(events: seq<Event>): Option<int> {
    if events == [] || events[|events| - 1].Succeeded? then None
    else if events[|events| - 1].Failed? then Some(events[|events| - 1].at)
    else LastFailure(events[..|events| - 1])
  }

  /** When a failure was last recorded, successes since or not. */
  function LastEver(events: seq<Event>): Option<int> {
    if events == [] then None
    else if events[|events| - 1].Failed? then Some(events[|events| - 1].at)
    else LastEver(events[..|events| - 1])
  }

  /** In every reachable state the counter is the streak; the breaker is closed exactly while the
      streak is below five; otherwise it opened at the last failure of the streak and its probe time
      is a minute after. No assumption on the clock. */
  lemma {:induction false} RunFits(events: seq<Event>)
    ensures var r := Run(events);
            && r.failures == Streak(events) && r.lastFailureAt == LastEver(events)
            && (r.state == Closed <==> Streak(events) < 5)
            && (r.state != Closed ==>
                  && LastFailure(events).Some? && r.openedAt == LastFailure(events)
                  && r.nextProbeAt == Some(LastFailure(events).value + 60))
            && (r.state == Closed ==> r.openedAt.None? && r.nextProbeAt.None?)
  {
    if events != [] {
      RunFits(events[..|events| - 1]);
    }
  }

  /** Times never run backwards. */
  ghost predicate Ordered(events: seq<Event>) {
    forall i, j :: 0 <= i < j < |events| ==> events[i].at <= events[j].at
  }

  /** A half-open breaker was evaluated at or after its probe time. */
  lemma {:induction false} HalfOpenIsDue(events: seq<Event>) returns (i: nat)
    requires Run(events).state == HalfOpen
    ensures i < |events| && LastFailure(events).Some? && events[i].at >= LastFailure(events).value + 60
  {
    var n := |events| - 1;
    var front := events[..n];
    RunFits(front);
    RunFits(events);
    if Run(front).state == HalfOpen {
      i := HalfOpenIsDue(front);
    } else {
      i := n;
    }
  }

  /** On a clock that never runs backwards, an attempt is refused if and only if the streak has
      reached the threshold and less than a minute has passed since its last failure. */
  lemma RefusedExactlyWhen(events: seq<Event>, now: int)
    requires Ordered(events + [Evaluated(now)])
    ensures !Admits(Run(events), now) <==>
            Streak(events) >= 5 && LastFailure(events).Some? && now < LastFailure(events).value + 60
  {
    RunFits(events);
    if Run(events).state == HalfOpen {
      var i := HalfOpenIsDue(events);
      var all := events + [Evaluated(now)];
      assert all[i] == events[i] && all[|events|] == Evaluated(now);
    }
  }

  /** Once a failure has opened the breaker, no attempt is admitted for a minute unless a success is
      recorded: not after any number of further evaluations and failures. */
  lemma NoAdmissionForAMinute(started: seq<Event>, t: int, later: seq<Event>, now: int)
    requires started != [] && started[|started| - 1] == Failed(t) && Streak(started) >= 5
    requires Ordered(started + later + [Evaluated(now)])
    requires forall i :: 0 <= i < |later| ==> !later[i].Succeeded?
    requires now < t + 60
    ensures !Admits(Run(started + later), now)
  {
    OrderedPrefix(started + later, [Evaluated(now)]);
    StreakGrows(started, later, t);
    RefusedExactlyWhen(started + later, now);
  }

  lemma OrderedPrefix(a: seq<Event>, b: seq<Event>)
    requires Ordered(a + b)
    ensures Ordered(a)
  {
    var all := a + b;
    assert forall i :: 0 <= i < |a| ==> all[i] == a[i];
  }

  lemma {:induction false} StreakGrows(started: seq<Event>, later: seq<Event>, t: int)
    requires started != [] && started[|started| - 1] == Failed(t) && Ordered(started + later)
    requires forall i :: 0 <= i < |later| ==> !later[i].Succeeded?
    ensures Streak(started + later) >= Streak(started)
    ensures LastFailure(started + later).Some? && LastFailure(started + later).value >= t
  {
    if later == [] {
      assert started + later == started;
    } else {
      var n := |later| - 1;
      var all := started + later;
      assert all[..|all| - 1] == started + later[..n];
      assert all[|all| - 1] == later[n] && all[|started| - 1] == Failed(t);
      StreakGrows(started, later[..n], t);
    }
  }

  /** A half-open breaker admits every caller, not one probe. */
  lemma HalfOpenAdmitsAll(r: Row, times: seq<int>, i: nat)
    requires r.state == HalfOpen && i < |times|
    ensures Admits(Resumed(r, times[..i]), times[i])
  {
    HalfOpenStays(r, times[..i]);
  }

  function Resumed(r: Row, times: seq<int>): Row {
    if times == [] then r else AfterEvaluate(Resumed(r, times[..|times| - 1]), times[|times| - 1])
  }

  lemma {:induction false} HalfOpenStays(r: Row, times: seq<int>)
    requires r.state == HalfOpen
    ensures Resumed(r, times).state == HalfOpen
  {
    if times != [] {
      HalfOpenStays(r, times[..|times| - 1]);
    }
  }

  function Failures(n: nat, at: int): seq<Event> {
    seq(n, _ => Failed(at))
  }

  lemma {:induction false} FailuresAddUp(n: nat, at: int)
    ensures Streak(Failures(n, at)) == n && (n > 0 ==> LastFailure(Failures(n, at)) == Some(at))
  {
    if n > 0 {
      assert Failures(n, at)[..n - 1] == Failures(n - 1, at);
      FailuresAddUp(n - 1, at);
    }
  }

  /** Five failures at one time and a minute's wait: two callers in a row are both admitted as probes. */
  lemma TwoProbesAdmitted()
    ensures var open := Failures(5, 0); var probed := open + [Evaluated(60)];
            && Run(open).state == Open && Admits(Run(open), 60)
            && Run(probed).state == HalfOpen && Admits(Run(probed), 60)
            && Run(probed + [Evaluated(60)]).state == HalfOpen
  {
    var open := Failures(5, 0);
    var probed := open + [Evaluated(60)];
    FailuresAddUp(5, 0);
    RunFits(open);
    RunFits(open[..4]);
    assert open[4] == Failed(0);
    assert probed[..5] == open && (probed + [Evaluated(60)])[..6] == probed;
  }
}
