/** What the attempts of a slot count, over whole runs: the failures recorded for it, at most five,
    with doubling waits between them. */
module Attempts {
  import opened Options
  import opened SlotTable
  import opened LeaseProtocol

  // ---- What is recorded for a slot -----------------------------------------------------

  /** The event ends a job of this slot. */
  predicate Ends(s: State, e: Event, id: SlotId) {
    && (e.RecordFailure? || e.RecordSuccess?)
    && IsRunning(s, e.i, e.ticket) && s.instances[e.i].running[e.ticket].held.slot == id
  }

  predicate Fails(s: State, e: Event, id: SlotId) {
    Ends(s, e, id) && e.RecordFailure?
  }

  predicate Succeeds(s: State, e: Event, id: SlotId) {
    Ends(s, e, id) && e.RecordSuccess?
  }

  /** How many of the first n events record a failure of the slot. */
  function FailuresOf(states: seq<State>, events: seq<Event>, id: SlotId, n: nat): nat
    requires n <= |events| < |states|
  {
    if n == 0 then 0
    else FailuresOf(states, events, id, n - 1) + if Fails(states[n - 1], events[n - 1], id) then 1 else 0
  }

  function SuccessesOf(states: seq<State>, events: seq<Event>, id: SlotId, n: nat): nat
    requires n <= |events| < |states|
  {
    if n == 0 then 0
    else SuccessesOf(states, events, id, n - 1) + if Succeeds(states[n - 1], events[n - 1], id) then 1 else 0
  }

  // ---- One step ------------------------------------------------------------------------

  /** Under the lease condition a recording finds the row as its executor claimed it. */
  lemma EndsClaimedRow(c: Config, s: State, e: Event, id: SlotId)
    requires c.maxConcurrent > 0 && Safe(c, s) && Ends(s, e, id)
    ensures id in s.slots && s.slots[id].status == Claimed
    ensures s.slots[id].attempts == s.instances[e.i].running[e.ticket].held.attempts
  {
    assert Holds(s, e.i, e.ticket) && Covered(c, s, e.i, e.ticket);
  }

  lemma FailureStep(c: Config, s: State, e: Event, id: SlotId)
    requires c.maxConcurrent > 0 && Safe(c, s) && Enabled(c, s, e) && Fails(s, e, id)
    ensures id in s.slots && id in Apply(c, s, e).slots
    ensures var row, row' := s.slots[id], Apply(c, s, e).slots[id];
            && row.status == Claimed && row'.attempts == row.attempts + 1
            && row'.status == (if row.attempts + 1 < 5 then Due else Failed)
            && (row.attempts + 1 < 5 ==> row'.nextRetry == Some(s.now + Doubling(row.attempts)))
  {
    EndsClaimedRow(c, s, e, id);
    if s.slots[id].attempts < 4 {
      BackoffDoubles(s.slots[id].attempts);
    }
  }

  /** Two to the power n. */
  function Doubling(n: nat): nat {
    if n == 0 then 1 else 2 * Doubling(n - 1)
  }

  lemma BackoffDoubles(n: nat)
    requires n < 5
    ensures RetryBackoff(n + 1) == Doubling(n)
  {
    assert Doubling(0) == 1 && Doubling(1) == 2 && Doubling(2) == 4;
    assert Doubling(3) == 2 * Doubling(2) && Doubling(4) == 2 * Doubling(3);
  }

  lemma SuccessStep(c: Config, s: State, e: Event, id: SlotId)
    requires c.maxConcurrent > 0 && Safe(c, s) && Enabled(c, s, e) && Succeeds(s, e, id)
    ensures id in s.slots && id in Apply(c, s, e).slots
    ensures var row, row' := s.slots[id], Apply(c, s, e).slots[id];
            row.status == Claimed && row'.attempts == row.attempts && row'.status == Completed
  {
    EndsClaimedRow(c, s, e, id);
  }

  lemma OtherStep(c: Config, s: State, e: Event, id: SlotId)
    requires Enabled(c, s, e) && !Ends(s, e, id) && id in s.slots
    ensures id in Apply(c, s, e).slots
    ensures var row, row' := s.slots[id], Apply(c, s, e).slots[id];
            row'.attempts == row.attempts && (row' == row || (row'.status == Claimed && Claimable(row, s.now)))
  {
    if e.Claim? {
      if id in e.ids {
        assert id in IdsOf(e.ids);
      }
    } else {
      RowUntouched(c, s, e, id);
    }
  }

  lemma NewRowStep(c: Config, s: State, e: Event, id: SlotId)
    requires c.maxConcurrent > 0 && Safe(c, s) && Enabled(c, s, e) && id !in s.slots
    ensures !Ends(s, e, id)
    ensures id in Apply(c, s, e).slots ==> Apply(c, s, e).slots[id].attempts == 0 && Apply(c, s, e).slots[id].status == Due
  {
    if Ends(s, e, id) {
      EndsClaimedRow(c, s, e, id);
      assert false;
    }
  }

  // ---- Whole runs ----------------------------------------------------------------------

  /** A row's attempts are its recorded failures; it failed with the fifth, and completed with the
      one success. */
  ghost predicate Tallied(s: State, id: SlotId, failures: nat, successes: nat) {
    if id in s.slots then
      && s.slots[id].attempts == failures <= 5 && successes <= 1
      && (s.slots[id].status == Failed <==> failures == 5)
      && (s.slots[id].status == Completed <==> successes == 1)
    else failures == 0 && successes == 0
  }

  lemma StepTallies(c: Config, s: State, e: Event, id: SlotId, failures: nat, successes: nat)
    requires c.maxConcurrent > 0 && Safe(c, s) && Enabled(c, s, e) && Tallied(s, id, failures, successes)
    requires id in s.slots ==> SlotOk(s.slots[id])
    ensures Tallied(Apply(c, s, e), id, failures + (if Fails(s, e, id) then 1 else 0),
                    successes + if Succeeds(s, e, id) then 1 else 0)
  {
    if id !in s.slots {
      NewRowStep(c, s, e, id);
    } else if Fails(s, e, id) {
      FailureStep(c, s, e, id);
    } else if Succeeds(s, e, id) {
      SuccessStep(c, s, e, id);
    } else {
      OtherStep(c, s, e, id);
    }
  }

  /** In every state of every timed run under the lease condition, a slot's attempts are the failures
      recorded for it so far; it is failed exactly when these reached five, and completed exactly when
      a success was recorded. */
  lemma {:induction false} AttemptsCountFailures(c: Config, states: seq<State>, events: seq<Event>, n: nat, id: SlotId)
    requires ConfigOk(c) && LeaseSuffices(c) && TimedRun(c, states, events) && n < |states|
    ensures Tallied(states[n], id, FailuresOf(states, events, id, n), SuccessesOf(states, events, id, n))
    decreases n
  {
    if n > 0 {
      AttemptsCountFailures(c, states, events, n - 1, id);
      TimedRunIsSafe(c, states, events, n - 1);
      RunKeepsRows(c, states, events, n - 1);
      StepAt(c, states, events, n - 1);
      StepTallies(c, states[n - 1], events[n - 1], id,
                  FailuresOf(states, events, id, n - 1), SuccessesOf(states, events, id, n - 1));
    }
  }

  /** Failed means five recorded failures and no success; five failures are never followed by one. */
  lemma FailedExactlyWhen(c: Config, states: seq<State>, events: seq<Event>, n: nat, id: SlotId)
    requires ConfigOk(c) && LeaseSuffices(c) && TimedRun(c, states, events) && n < |states| && id in states[n].slots
    ensures states[n].slots[id].status == Failed <==>
            FailuresOf(states, events, id, n) == 5 && SuccessesOf(states, events, id, n) == 0
  {
    AttemptsCountFailures(c, states, events, n, id);
  }

  // ---- Waiting -------------------------------------------------------------------------

  /** The row waits as the failure left it, or the wait is over. */
  ghost predicate Waits(s: State, id: SlotId, until: int) {
    id in s.slots && ((s.slots[id].status == Due && s.slots[id].nextRetry == Some(until)) || until <= s.now)
  }

  lemma WaitStep(c: Config, s: State, e: Event, id: SlotId, until: int)
    requires c.maxConcurrent > 0 && Safe(c, s) && Enabled(c, s, e) && Waits(s, id, until)
    ensures Waits(Apply(c, s, e), id, until) && (e.Claim? && id in e.ids ==> until <= s.now)
  {
    if Ends(s, e, id) {
      EndsClaimedRow(c, s, e, id);
    } else {
      OtherStep(c, s, e, id);
      if e.Claim? && id in e.ids {
        assert id in IdsOf(e.ids);
      }
    }
  }

  lemma WaitNext(c: Config, states: seq<State>, events: seq<Event>, n: nat, id: SlotId, until: int)
    requires ConfigOk(c) && LeaseSuffices(c) && TimedRun(c, states, events) && n < |events|
    requires Waits(states[n], id, until)
    ensures Waits(states[n + 1], id, until) && (events[n].Claim? && id in events[n].ids ==> until <= states[n].now)
  {
    TimedRunIsSafe(c, states, events, n);
    StepAt(c, states, events, n);
    WaitStep(c, states[n], events[n], id, until);
  }

  lemma {:induction false} WaitsThrough(c: Config, states: seq<State>, events: seq<Event>, m: nat, n: nat, id: SlotId, until: int)
    requires ConfigOk(c) && LeaseSuffices(c) && TimedRun(c, states, events) && m <= n < |states|
    requires Waits(states[m], id, until)
    ensures Waits(states[n], id, until)
    decreases n
  {
    if m < n {
      WaitsThrough(c, states, events, m, n - 1, id, until);
      WaitNext(c, states, events, n - 1, id, until);
    }
  }

  ghost predicate ClaimableExactlyAfter(row: Slot, time: int) {
    forall now :: Claimable(row, now) <==> time <= now && row.key.slotTime <= now
  }

  /** A failure that leaves the slot its k-th attempt, k below five, makes it claimable again exactly
      2^(k-1) seconds later, or at its slot time if that is later still. */
  lemma RetryIsDelayed(c: Config, states: seq<State>, events: seq<Event>, n: nat, id: SlotId)
    requires ConfigOk(c) && LeaseSuffices(c) && TimedRun(c, states, events) && n < |events|
    requires Fails(states[n], events[n], id) && FailuresOf(states, events, id, n + 1) < 5
    ensures var k := FailuresOf(states, events, id, n + 1);
            && k >= 1 && id in states[n + 1].slots
            && ClaimableExactlyAfter(states[n + 1].slots[id], states[n].now + Doubling(k - 1))
  {
    FailedRowWaits(c, states, events, n, id);
  }

  lemma FailedRowWaits(c: Config, states: seq<State>, events: seq<Event>, n: nat, id: SlotId)
    requires ConfigOk(c) && LeaseSuffices(c) && TimedRun(c, states, events) && n < |events|
    requires Fails(states[n], events[n], id) && FailuresOf(states, events, id, n + 1) < 5
    ensures var k := FailuresOf(states, events, id, n + 1);
            && k >= 1 && id in states[n + 1].slots && states[n + 1].slots[id].status == Due
            && states[n + 1].slots[id].nextRetry == Some(states[n].now + Doubling(k - 1))
  {
    AttemptsCountFailures(c, states, events, n, id);
    TimedRunIsSafe(c, states, events, n);
    StepAt(c, states, events, n);
    FailureStep(c, states[n], events[n], id);
  }

  /** No later claim takes the slot before that. */
  lemma NoEarlierClaim(c: Config, states: seq<State>, events: seq<Event>, n: nat, m: nat, id: SlotId)
    requires ConfigOk(c) && LeaseSuffices(c) && TimedRun(c, states, events) && n < m < |events|
    requires Fails(states[n], events[n], id) && FailuresOf(states, events, id, n + 1) < 5
    requires events[m].Claim? && id in events[m].ids
    ensures FailuresOf(states, events, id, n + 1) >= 1
    ensures states[n].now + Doubling(FailuresOf(states, events, id, n + 1) - 1) <= states[m].now
  {
    FailedRowWaits(c, states, events, n, id);
    var until := states[n].now + Doubling(FailuresOf(states, events, id, n + 1) - 1);
    WaitsThrough(c, states, events, n + 1, m, id, until);
    WaitNext(c, states, events, m, id, until);
  }

  // ---- Without timing assumptions ------------------------------------------------------

  lemma RunStepAt(c: Config, states: seq<State>, events: seq<Event>, n: nat)
    requires Run(c, states, events) && n < |events|
    ensures Enabled(c, states[n], events[n]) && states[n + 1] == Apply(c, states[n], events[n])
  {
    assert Steps(c, states[n], events[n], states[n + 1]);
  }

  lemma {:induction false} RowsPersist(c: Config, states: seq<State>, events: seq<Event>, m: nat, n: nat, id: SlotId)
    requires Run(c, states, events) && m <= n < |states| && id in states[m].slots
    ensures id in states[n].slots
    decreases n
  {
    if m < n {
      RowsPersist(c, states, events, m, n - 1, id);
      RunStepAt(c, states, events, n - 1);
    }
  }

  /** The event is the claim that gave the ticket its slot. */
  ghost predicate ClaimedBy(s: State, e: Event, i: InstanceId, k: nat, id: SlotId) {
    && e.Claim? && e.i == i && i in s.instances && id in s.slots
    && s.instances[i].next <= k < s.instances[i].next + |e.ids| && e.ids[k - s.instances[i].next] == id
  }

  /** The ticket got this row from the claim at m, as the row then was, and has held it up to n. */
  ghost predicate HeldSince(states: seq<State>, events: seq<Event>, m: nat, n: nat, i: InstanceId, k: nat, held: Held) {
    && m < n < |states| && m < |events|
    && ClaimedBy(states[m], events[m], i, k, held.slot) && held.attempts == states[m].slots[held.slot].attempts
    && forall j :: m < j <= n ==> HoldsAt(states[j], i, k, held)
  }

  ghost predicate HoldsAt(s: State, i: InstanceId, k: nat, held: Held) {
    Holds(s, i, k) && HeldOf(s, i, k) == held
  }

  lemma HeldLonger(states: seq<State>, events: seq<Event>, m: nat, n: nat, i: InstanceId, k: nat, held: Held)
    requires HeldSince(states, events, m, n, i, k, held) && n + 1 < |states| && HoldsAt(states[n + 1], i, k, held)
    ensures HeldSince(states, events, m, n + 1, i, k, held)
  {
  }

  lemma TicketStep(c: Config, states: seq<State>, events: seq<Event>, n: nat, i: InstanceId, k: nat)
    requires Run(c, states, events) && n < |events| && Holds(states[n + 1], i, k)
    ensures var held := HeldOf(states[n + 1], i, k);
            || HoldsAt(states[n], i, k, held)
            || (ClaimedBy(states[n], events[n], i, k, held.slot) && held.attempts == states[n].slots[held.slot].attempts)
  {
    RunStepAt(c, states, events, n);
    RunKeepsRows(c, states, events, n);
    HolderOrigin(c, states[n], events[n], i, k);
  }

  /** Whatever a ticket holds it got from a claim, and has held ever since. */
  lemma {:induction false} ClaimOfTicket(c: Config, states: seq<State>, events: seq<Event>, n: nat, i: InstanceId, k: nat)
    returns (m: nat)
    requires Run(c, states, events) && n < |states| && Holds(states[n], i, k)
    ensures HeldSince(states, events, m, n, i, k, HeldOf(states[n], i, k))
    decreases n
  {
    var held := HeldOf(states[n], i, k);
    if n == 0 {
      assert false;
    }
    TicketStep(c, states, events, n - 1, i, k);
    if HoldsAt(states[n - 1], i, k, held) {
      m := ClaimOfTicket(c, states, events, n - 1, i, k);
      HeldLonger(states, events, m, n - 1, i, k, held);
    } else {
      m := n - 1;
    }
  }

  /** In any run, a recorded failure writes one attempt more than the row had when the recording
      executor claimed it, whatever others have written since; at five the slot is failed, below it
      is due again. */
  lemma FailureCountsFromClaim(c: Config, states: seq<State>, events: seq<Event>, n: nat, id: SlotId) returns (m: nat)
    requires Run(c, states, events) && n < |events| && Fails(states[n], events[n], id)
    ensures m < n && id in states[m].slots && id in states[n + 1].slots
    ensures HeldSince(states, events, m, n, events[n].i, events[n].ticket, Held(id, states[m].slots[id].attempts))
    ensures var attempts := states[m].slots[id].attempts + 1;
            && states[n + 1].slots[id].attempts == attempts <= 5
            && states[n + 1].slots[id].status == if attempts < 5 then Due else Failed
  {
    var i, k := events[n].i, events[n].ticket;
    assert HoldsAt(states[n], i, k, states[n].instances[i].running[k].held);
    m := ClaimOfTicket(c, states, events, n, i, k);
    RowsPersist(c, states, events, m, n, id);
    RunStepAt(c, states, events, n);
    RunKeepsRows(c, states, events, n);
  }
}
