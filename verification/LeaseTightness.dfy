/** How short a lease can be: runs in which two executors work on one slot.

    The longest one fills the first instance's pool tick by tick, claims a full batch behind it, lets
    the rounds of that batch take their whole timeouts, and claims the last slot again from a second
    instance while its first job is still inside its timeout.  Slots are numbered in the order they
    are claimed, so a slot and the ticket that starts it carry the same number. */
module LeaseTightness {
  import opened Options
  import opened SlotTable
  import opened LeaseProtocol

  ghost predicate Reachable(c: Config, s: State) {
    exists states, events :: Reaches(c, s, states, events)
  }

  ghost predicate Reaches(c: Config, s: State, states: seq<State>, events: seq<Event>) {
    TimedRun(c, states, events) && states[|states| - 1] == s
  }

  lemma ReachStep(c: Config, s: State, e: Event) returns (s': State)
    requires Reachable(c, s) && Enabled(c, s, e) && Timely(c, s, e)
    ensures s' == Apply(c, s, e) && Reachable(c, s')
  {
    s' := Apply(c, s, e);
    var states, events :| Reaches(c, s, states, events);
    var states', events' := states + [s'], events + [e];
    forall k | 0 <= k < |events'| ensures Steps(c, states'[k], events'[k], states'[k + 1]) && Timely(c, states'[k], events'[k]) {
      if k < |events| {
        StepAt(c, states, events, k);
      }
    }
    assert Reaches(c, s', states', events');
  }

  // ---- One instance alone --------------------------------------------------------------

  function KeyOf(id: nat): SlotKey {
    SlotKey(id, ForecastCollection, 0, 0)
  }

  /** Row id while it is held, or once its job has succeeded. */
  predicate RowAt(c: Config, row: Slot, id: nat, held: bool) {
    && row.key == KeyOf(id)
    && if held then row.status == Claimed && row.attempts == 0 && row.lease.Some? && c.leaseDuration <= row.lease.value
       else row.status == Completed
  }

  /** Slots 0 to total - 1 have been claimed in order: some run, and the last ones wait. */
  ghost predicate InOrder(x: Instance, total: nat) {
    && !x.stopped && TicketsOk(x) && x.next + |x.queue| == total
    && (forall a :: 0 <= a < |x.queue| ==> x.queue[a] == Held(x.next + a, 0))
    && (forall k :: k in x.running ==> x.running[k].held == Held(k, 0))
  }

  predicate HoldsRow(x: Instance, id: nat) {
    id in x.running || x.next <= id
  }

  ghost predicate RowsInOrder(c: Config, slots: Slots, x: Instance, total: nat) {
    && (forall id: nat :: id in slots <==> id < total)
    && (forall id :: id in slots ==> RowAt(c, slots[id], id, HoldsRow(x, id)))
  }

  /** Instance 1 alone has claimed slots 0 to total - 1, and every job that ended succeeded. */
  ghost predicate Line(c: Config, s: State, total: nat) {
    && Reachable(c, s) && s.instances.Keys == {1}
    && InOrder(s.instances[1], total) && RowsInOrder(c, s.slots, s.instances[1], total)
  }

  ghost predicate LeasesLast(slots: Slots, time: int) {
    forall id :: id in slots && slots[id].status == Claimed && slots[id].lease.Some? ==> time <= slots[id].lease.value
  }

  lemma NothingClaimable(c: Config, s: State, total: nat)
    requires Line(c, s, total) && LeasesLast(s.slots, s.now)
    ensures ClaimableIds(s.slots, s.now) == {}
  {
    forall id | id in s.slots ensures !Claimable(s.slots[id], s.now) {
      assert RowAt(c, s.slots[id], id, HoldsRow(s.instances[1], id));
    }
  }

  lemma Joined(c: Config) returns (s: State)
    ensures Line(c, s, 0) && s.now == 0
    ensures s.instances[1].running == map[] && s.instances[1].fire == 0
  {
    s := State(0, map[], map[]);
    assert Reaches(c, s, [s], []);
    s := ReachStep(c, s, Join(1));
  }

  // ---- Generating and claiming ---------------------------------------------------------

  /** The table with n due slots more. */
  function WithDue(slots: Slots, total: nat, n: nat): Slots {
    slots + map id | total <= id < total + n :: NewSlot(KeyOf(id))
  }

  lemma OneMoreDue(slots: Slots, total: nat, n: nat)
    requires n > 0 && forall id :: id in slots ==> id < total && slots[id].key == KeyOf(id)
    ensures var more, id := WithDue(slots, total, n - 1), total + n - 1;
            id !in more && GenerateSlot(more, id, KeyOf(id)) == WithDue(slots, total, n)
  {
    assert !HasKey(WithDue(slots, total, n - 1), KeyOf(total + n - 1));
  }

  lemma {:induction false} GenerateMany(c: Config, s: State, total: nat, n: nat)
    requires Reachable(c, s)
    requires forall id :: id in s.slots ==> id < total && s.slots[id].key == KeyOf(id)
    ensures Reachable(c, s.(slots := WithDue(s.slots, total, n)))
    decreases n
  {
    if n == 0 {
      assert WithDue(s.slots, total, 0) == s.slots;
    } else {
      GenerateMany(c, s, total, n - 1);
      var id := total + n - 1;
      OneMoreDue(s.slots, total, n);
      var s' := ReachStep(c, s.(slots := WithDue(s.slots, total, n - 1)), Generate(id, KeyOf(id)));
    }
  }

  function Fresh(total: nat, n: nat): (ids: seq<SlotId>)
    ensures |ids| == n && forall a :: 0 <= a < n ==> ids[a] == total + a
  {
    seq(n, a requires 0 <= a < n => total + a)
  }

  lemma FreshIsTaken(c: Config, slots: Slots, total: nat, n: nat, now: int)
    requires ClaimableIds(slots, now) == {} && now >= 0 && n <= c.claimBatch
    requires forall id :: id in slots ==> id < total
    ensures ClaimTakes(WithDue(slots, total, n), now, c.claimBatch, IdsOf(Fresh(total, n)))
  {
    var ids, more := Fresh(total, n), WithDue(slots, total, n);
    forall id | id in slots ensures !Claimable(more[id], now) {
      assert id !in ClaimableIds(slots, now);
    }
    forall id | total <= id < total + n ensures id in IdsOf(ids) {
      assert ids[id - total] == id;
    }
    assert IdsOf(ids) == ClaimableIds(more, now);
    DistinctIds(ids);
  }

  ghost predicate ClaimedMore(c: Config, s: State, s': State, total: nat, n: nat)
    requires 1 in s.instances && 1 in s'.instances
  {
    var x, x' := s.instances[1], s'.instances[1];
    && s'.now == s.now && |x'.queue| == n && x'.running == x.running && x'.next == x.next
    && x'.fire == NextFire(x.fire, s.now, c.interval)
    && (n > 0 ==> total + n - 1 in s'.slots && s'.slots[total + n - 1].lease == Some(s.now + c.leaseDuration))
  }

  lemma FreshRows(c: Config, slots: Slots, x: Instance, x': Instance, total: nat, n: nat, now: int)
    requires RowsInOrder(c, slots, x, total) && now >= 0 && x.next == total && x'.next == x.next && x'.running == x.running
    ensures var slots' := ClaimAll(WithDue(slots, total, n), IdsOf(Fresh(total, n)), 1, now, c.leaseDuration);
            && RowsInOrder(c, slots', x', total + n)
            && (n > 0 ==> total + n - 1 in slots' && slots'[total + n - 1].lease == Some(now + c.leaseDuration))
  {
    var ids := Fresh(total, n);
    var slots' := ClaimAll(WithDue(slots, total, n), IdsOf(ids), 1, now, c.leaseDuration);
    forall id | id in slots' ensures RowAt(c, slots'[id], id, HoldsRow(x', id)) {
      if id < total {
        assert RowAt(c, slots[id], id, HoldsRow(x, id));
      } else {
        assert ids[id - total] == id;
      }
    }
    if n > 0 {
      assert ids[n - 1] == total + n - 1;
    }
  }

  ghost predicate Ticked(c: Config, s: State, s': State, ids: seq<SlotId>)
    requires 1 in s.instances && IdsOf(ids) <= s.slots.Keys
  {
    && s'.now == s.now && s'.slots == ClaimAll(s.slots, IdsOf(ids), 1, s.now, c.leaseDuration)
    && s'.instances == s.instances[1 := ClaimBatch(s.instances[1], HeldFrom(s.slots, ids), s.now, c.interval)]
  }

  lemma Tick(c: Config, s: State, ids: seq<SlotId>) returns (s': State)
    requires Reachable(c, s) && TickDue(s, 1) && ClaimTakes(s.slots, s.now, c.claimBatch, IdsOf(ids))
    requires forall a, b :: 0 <= a < b < |ids| ==> ids[a] != ids[b]
    ensures Reachable(c, s') && Ticked(c, s, s', ids)
  {
    s' := ReachStep(c, s, Claim(1, ids));
  }

  lemma FreshInOrder(c: Config, slots: Slots, x: Instance, total: nat, n: nat, now: int)
    requires InOrder(x, total) && x.queue == []
    ensures IdsOf(Fresh(total, n)) <= WithDue(slots, total, n).Keys
    ensures InOrder(ClaimBatch(x, HeldFrom(WithDue(slots, total, n), Fresh(total, n)), now, c.interval), total + n)
  {
    var queue := HeldFrom(WithDue(slots, total, n), Fresh(total, n));
    assert forall a :: 0 <= a < n ==> queue[a] == Held(total + a, 0);
  }

  lemma FreshDue(c: Config, s: State, total: nat, n: nat)
    requires Line(c, s, total) && s.now >= 0 && LeasesLast(s.slots, s.now) && n <= c.claimBatch
    ensures Reachable(c, s.(slots := WithDue(s.slots, total, n)))
    ensures ClaimTakes(WithDue(s.slots, total, n), s.now, c.claimBatch, IdsOf(Fresh(total, n)))
  {
    KeysInOrder(c, s, total);
    GenerateMany(c, s, total, n);
    NothingClaimable(c, s, total);
    FreshIsTaken(c, s.slots, total, n, s.now);
  }

  lemma LineAfterTick(c: Config, s: State, s': State, total: nat, n: nat)
    requires Line(c, s, total) && s.instances[1].queue == [] && s.now >= 0 && Reachable(c, s')
    requires IdsOf(Fresh(total, n)) <= WithDue(s.slots, total, n).Keys
    requires Ticked(c, s.(slots := WithDue(s.slots, total, n)), s', Fresh(total, n))
    ensures Line(c, s', total + n) && ClaimedMore(c, s, s', total, n)
  {
    FreshInOrder(c, s.slots, s.instances[1], total, n, s.now);
    FreshRows(c, s.slots, s.instances[1], s'.instances[1], total, n, s.now);
  }

  /** A tick finds n new due slots and claims them all. */
  lemma ClaimFresh(c: Config, s: State, total: nat, n: nat) returns (s': State)
    requires Line(c, s, total) && s.instances[1].queue == [] && s.instances[1].fire <= s.now
    requires s.now >= 0 && LeasesLast(s.slots, s.now) && n <= c.claimBatch
    ensures Line(c, s', total + n) && ClaimedMore(c, s, s', total, n)
  {
    FreshDue(c, s, total, n);
    s' := Tick(c, s.(slots := WithDue(s.slots, total, n)), Fresh(total, n));
    LineAfterTick(c, s, s', total, n);
  }

  lemma KeysInOrder(c: Config, s: State, total: nat)
    requires Line(c, s, total)
    ensures forall id :: id in s.slots ==> id < total && s.slots[id].key == KeyOf(id)
  {
    forall id | id in s.slots ensures id < total && s.slots[id].key == KeyOf(id) {
      assert RowAt(c, s.slots[id], id, HoldsRow(s.instances[1], id));
    }
  }

  // ---- Starting and ending -------------------------------------------------------------

  ghost predicate Started(s: State, s': State, n: nat)
    requires 1 in s.instances && 1 in s'.instances
  {
    var x, x' := s.instances[1], s'.instances[1];
    && s'.now == s.now && s'.slots == s.slots && x'.fire == x.fire
    && |x'.queue| == |x.queue| - n && x'.next == x.next + n
    && |x'.running| == |x.running| + n
    && (forall k :: k in x'.running <==> k in x.running || x.next <= k < x.next + n)
    && (forall k :: k in x'.running ==>
          x'.running[k].started == if k in x.running then x.running[k].started else s.now)
  }

  lemma RowsStayInOrder(c: Config, slots: Slots, x: Instance, x': Instance, total: nat)
    requires RowsInOrder(c, slots, x, total) && forall id: nat :: HoldsRow(x, id) <==> HoldsRow(x', id)
    ensures RowsInOrder(c, slots, x', total)
  {
    forall id | id in slots ensures RowAt(c, slots[id], id, HoldsRow(x', id)) {
      assert RowAt(c, slots[id], id, HoldsRow(x, id));
    }
  }

  lemma StartOne(c: Config, s: State, total: nat) returns (s': State)
    requires Line(c, s, total) && s.instances[1].queue != [] && |s.instances[1].running| < c.maxConcurrent
    ensures Line(c, s', total) && Started(s, s', 1)
  {
    var x := s.instances[1];
    s' := ReachStep(c, s, Start(1));
    assert s'.instances[1].running.Keys == x.running.Keys + {x.next};
    RowsStayInOrder(c, s.slots, x, s'.instances[1], total);
  }

  lemma {:induction false} StartMany(c: Config, s: State, total: nat, n: nat) returns (s': State)
    requires Line(c, s, total) && n <= |s.instances[1].queue| && |s.instances[1].running| + n <= c.maxConcurrent
    ensures Line(c, s', total) && Started(s, s', n)
    decreases n
  {
    if n == 0 {
      s' := s;
    } else {
      var before := StartMany(c, s, total, n - 1);
      s' := StartOne(c, before, total);
    }
  }

  /** Every running job but the ones kept ends with success. */
  ghost predicate Drained(s: State, s': State, keep: set<nat>)
    requires 1 in s.instances && 1 in s'.instances
  {
    var x, x' := s.instances[1], s'.instances[1];
    && s'.now == s.now && x' == x.(running := x'.running)
    && x'.running == (map k | k in x.running && k in keep :: x.running[k])
    && s'.slots.Keys == s.slots.Keys
    && forall id :: id in s.slots && (id in keep || x.next <= id) ==> s'.slots[id] == s.slots[id]
  }

  lemma Succeed(c: Config, s: State, total: nat, k: nat) returns (s': State)
    requires Line(c, s, total) && k in s.instances[1].running
    ensures Line(c, s', total) && Drained(s, s', s.instances[1].running.Keys - {k})
    ensures |s'.instances[1].running| == |s.instances[1].running| - 1
  {
    var x := s.instances[1];
    s' := ReachStep(c, s, RecordSuccess(1, k, 0));
    assert s'.instances[1].running.Keys == x.running.Keys - {k};
    assert k in s.slots && s'.slots[k].status == Completed;
  }

  lemma DrainedChain(s: State, next: State, s': State, k: nat, keep: set<nat>)
    requires 1 in s.instances && 1 in next.instances && 1 in s'.instances && k !in keep
    requires Drained(s, next, s.instances[1].running.Keys - {k}) && Drained(next, s', keep)
    requires TicketsOk(s.instances[1])
    requires keep <= s.instances[1].running.Keys
    ensures Drained(s, s', keep)
  {
  }

  lemma {:induction false} Drain(c: Config, s: State, total: nat, keep: set<nat>) returns (s': State)
    requires Line(c, s, total) && keep <= s.instances[1].running.Keys
    ensures Line(c, s', total) && Drained(s, s', keep)
    decreases |s.instances[1].running|
  {
    var x := s.instances[1];
    if k :| k in x.running && k !in keep {
      var next := Succeed(c, s, total, k);
      s' := Drain(c, next, total, keep);
      DrainedChain(s, next, s', k, keep);
    } else {
      s' := s;
      assert x.running == map k | k in x.running && k in keep :: x.running[k];
    }
  }

  // ---- Filling the pool ----------------------------------------------------------------

  /** The ticks it takes to place n slots. */
  function TicksFor(c: Config, n: nat): nat
    requires c.claimBatch > 0
  {
    (n + c.claimBatch - 1) / c.claimBatch
  }

  /** How long an idle instance takes to fill its pool. */
  function FillTime(c: Config): nat
    requires c.claimBatch > 0
  {
    TicksFor(c, c.maxConcurrent) * c.interval
  }

  lemma TicksStep(c: Config, n: nat)
    requires c.claimBatch > 0 && n > 0
    ensures TicksFor(c, 0) == 0
    ensures TicksFor(c, n) == TicksFor(c, if n < c.claimBatch then 0 else n - c.claimBatch) + 1
  {
    var b := c.claimBatch;
    DivideOnce(b - 1, b, 0, b - 1);
    if n < b {
      DivideOnce(n + b - 1, b, 1, n - 1);
    } else {
      DivideStep(n - 1, b);
    }
  }

  /** A tick is due, and n jobs run, none older than the run. */
  ghost predicate Filled(c: Config, s: State, n: nat, time: int) {
    && Line(c, s, n) && s.now == time >= 0
    && var x := s.instances[1];
       && x.queue == [] && x.fire == time && |x.running| == n
       && forall k :: k in x.running ==> 0 <= x.running[k].started
  }

  lemma LeasesLastLine(c: Config, s: State, total: nat, time: int)
    requires Line(c, s, total) && time <= c.leaseDuration
    ensures LeasesLast(s.slots, time)
  {
    var x := s.instances[1];
    assert forall id :: id in s.slots ==> RowAt(c, s.slots[id], id, HoldsRow(x, id));
  }

  lemma FillOnce(c: Config, s: State, n: nat, more: nat, time: int) returns (s': State)
    requires ConfigOk(c) && c.jobTimeout <= c.leaseDuration && Filled(c, s, n, time)
    requires more <= c.claimBatch && n + more <= c.maxConcurrent && time + c.interval <= c.jobTimeout
    ensures Filled(c, s', n + more, time + c.interval)
  {
    LeasesLastLine(c, s, n, time);
    var claimed := ClaimFresh(c, s, n, more);
    var started := StartMany(c, claimed, n + more, more);
    s' := ReachStep(c, started, Advance(time + c.interval));
  }

  lemma {:induction false} FillPool(c: Config, s: State, n: nat, time: int) returns (s': State)
    requires ConfigOk(c) && c.jobTimeout <= c.leaseDuration && Filled(c, s, n, time) && n <= c.maxConcurrent
    requires time + TicksFor(c, c.maxConcurrent - n) * c.interval <= c.jobTimeout
    ensures Filled(c, s', c.maxConcurrent, time + TicksFor(c, c.maxConcurrent - n) * c.interval)
    decreases c.maxConcurrent - n
  {
    var left := c.maxConcurrent - n;
    if left == 0 {
      TicksStep(c, 1);
      s' := s;
    } else {
      TicksStep(c, left);
      var more := if left < c.claimBatch then left else c.claimBatch;
      var rest := TicksFor(c, left - more);
      assert (rest + 1) * c.interval == rest * c.interval + c.interval;
      var next := FillOnce(c, s, n, more, time);
      s' := FillPool(c, next, n + more, time + c.interval);
    }
  }

  // ---- The rounds of a full batch ------------------------------------------------------

  lemma WaitUntil(c: Config, s: State, total: nat, time: int) returns (s': State)
    requires Line(c, s, total) && s.now <= time && s.instances[1].queue != []
    requires |s.instances[1].running| >= c.maxConcurrent
    requires forall k :: k in s.instances[1].running ==> time <= s.instances[1].running[k].started + c.jobTimeout
    ensures Line(c, s', total) && s' == s.(now := time)
  {
    if s.now == time {
      s' := s;
    } else {
      s' := ReachStep(c, s, Advance(time));
    }
  }

  /** A full pool ends at one time, and the next n waiting slots start. */
  lemma OneRound(c: Config, s: State, total: nat, n: nat, time: int) returns (s': State)
    requires Line(c, s, total) && |s.instances[1].running| == c.maxConcurrent && s.now <= time
    requires 0 < n <= |s.instances[1].queue| && n <= c.maxConcurrent
    requires forall k :: k in s.instances[1].running ==> time <= s.instances[1].running[k].started + c.jobTimeout
    ensures Line(c, s', total) && s'.now == time && s'.slots[total - 1] == s.slots[total - 1]
    ensures var x, x' := s.instances[1], s'.instances[1];
            && |x'.queue| == |x.queue| - n && |x'.running| == n
            && x.next + n - 1 in x'.running && x'.next == x.next + n
            && forall k :: k in x'.running ==> x'.running[k].started == time
  {
    var waited := WaitUntil(c, s, total, time);
    var drained := Drain(c, waited, total, {});
    assert drained.instances[1].running == map[];
    s' := StartMany(c, drained, total, n);
  }

  /** The batch behind a full pool: its last slot starts one timeout later with every round. */
  lemma {:induction false} AllRounds(c: Config, s: State, total: nat, time: int) returns (s': State)
    requires ConfigOk(c) && Line(c, s, total) && |s.instances[1].running| == c.maxConcurrent && s.now <= time
    requires s.instances[1].queue != []
    requires forall k :: k in s.instances[1].running ==> time <= s.instances[1].running[k].started + c.jobTimeout
    ensures Line(c, s', total) && s'.slots[total - 1] == s.slots[total - 1] && s'.instances[1].queue == []
    ensures s'.now == time + StartBound(c, |s.instances[1].queue| - 1) - c.jobTimeout
    ensures total - 1 in s'.instances[1].running && s'.instances[1].running[total - 1].started == s'.now
    decreases |s.instances[1].queue|
  {
    var waiting, m := |s.instances[1].queue|, c.maxConcurrent;
    if waiting <= m {
      s' := OneRound(c, s, total, waiting, time);
    } else {
      var next := OneRound(c, s, total, m, time);
      s' := AllRounds(c, next, total, time + c.jobTimeout);
    }
  }

  // ---- Two executors -------------------------------------------------------------------

  /** One job is left, of a slot whose lease is still running. */
  ghost predicate LastJob(c: Config, s: State, id: nat, started: int, lease: int) {
    && Line(c, s, id + 1) && s.instances[1].queue == []
    && s.instances[1].running.Keys == {id} && s.instances[1].running[id].started == started
    && s.slots[id].lease == Some(lease)
  }

  /** Until the lease is over, ticks of the idle loop find nothing to claim. */
  lemma {:induction false} IdleUntil(c: Config, s: State, id: nat, started: int, lease: int, time: int) returns (s': State)
    requires ConfigOk(c) && LastJob(c, s, id, started, lease)
    requires s.now <= time <= started + c.jobTimeout && time <= lease + 1
    ensures LastJob(c, s', id, started, lease) && s'.now == time
    decreases time - s.now, if s.instances[1].fire <= s.now then s.now - s.instances[1].fire + 1 else 0
  {
    var x := s.instances[1];
    assert forall a :: a in s.slots ==> RowAt(c, s.slots[a], a, HoldsRow(x, a));
    if s.now == time {
      s' := s;
    } else if x.fire <= s.now {
      var next := EmptyTick(c, s, id, started, lease);
      s' := IdleUntil(c, next, id, started, lease, time);
    } else {
      var next := ReachStep(c, s, Advance(if time < x.fire then time else x.fire));
      s' := IdleUntil(c, next, id, started, lease, time);
    }
  }

  lemma FireMoves(fire: int, now: int, interval: nat)
    requires interval > 0
    ensures NextFire(fire, now, interval) > fire
  {
    if now > fire {
      DivideStep(now - fire - 1, interval);
      TimesGrows(1, (now - fire + interval - 1) / interval, interval);
    }
  }

  lemma EmptyTick(c: Config, s: State, id: nat, started: int, lease: int) returns (s': State)
    requires ConfigOk(c) && LastJob(c, s, id, started, lease) && s.now <= lease && s.instances[1].fire <= s.now
    ensures LastJob(c, s', id, started, lease) && s'.now == s.now && s'.instances[1].fire > s.instances[1].fire
  {
    var x := s.instances[1];
    assert forall a :: a in s.slots ==> RowAt(c, s.slots[a], a, HoldsRow(x, a));
    NothingClaimable(c, s, id + 1);
    FireMoves(x.fire, s.now, c.interval);
    s' := ReachStep(c, s, Claim(1, []));
    assert s'.slots == s.slots;
  }

  ghost predicate SameSlot(s: State, i: InstanceId, k: nat, j: InstanceId, l: nat) {
    && IsRunning(s, i, k) && IsRunning(s, j, l)
    && s.instances[i].running[k].held.slot == s.instances[j].running[l].held.slot
  }

  /** Instances 1 and 2 both run slot k for its first attempt. */
  ghost predicate TwoExecutors(c: Config, s: State, k: nat, l: nat) {
    && Reachable(c, s) && SameSlot(s, 1, k, 2, l) && k in s.slots
    && s.instances[1].running[k].held == Held(k, 0) && s.instances[2].running[l].held == Held(k, 0)
  }

  lemma TakeAgain(c: Config, s: State, id: nat) returns (s': State, l: nat)
    requires ConfigOk(c) && Reachable(c, s) && TickDue(s, 2) && s.instances[2].running == map[]
    requires id in s.slots && s.slots[id].attempts == 0 && ClaimTakes(s.slots, s.now, c.claimBatch, IdsOf([id]))
    ensures Reachable(c, s') && IsRunning(s', 2, l) && s'.instances[2].running[l].held == Held(id, 0)
    ensures id in s'.slots && (1 in s.instances ==> 1 in s'.instances && s'.instances[1] == s.instances[1])
  {
    s' := ReachStep(c, s, Claim(2, [id]));
    l := s'.instances[2].next;
    s' := ReachStep(c, s', Start(2));
  }

  /** Once the lease is over, a second instance's first tick takes the slot, and only it. */
  lemma SecondExecutor(c: Config, s: State, id: nat, started: int, lease: int) returns (s': State, l: nat)
    requires ConfigOk(c) && LastJob(c, s, id, started, lease) && lease < s.now
    ensures TwoExecutors(c, s', id, l)
  {
    var x := s.instances[1];
    assert forall a :: a in s.slots ==> RowAt(c, s.slots[a], a, HoldsRow(x, a));
    assert ClaimableIds(s.slots, s.now) == {id};
    assert IdsOf([id]) == {id};
    var joined := ReachStep(c, s, Join(2));
    s', l := TakeAgain(c, joined, id);
  }

  /** A job may outlive its lease by itself, or a full batch may wait for a pool that is filled first. */
  predicate LeaseTooShort(c: Config)
    requires ConfigOk(c)
  {
    || c.leaseDuration < c.jobTimeout
    || (FillTime(c) <= c.jobTimeout && c.leaseDuration + FillTime(c) < StartBound(c, c.claimBatch - 1) + c.jobTimeout)
  }

  lemma LongJob(c: Config) returns (s: State, k: nat, l: nat)
    requires ConfigOk(c) && c.leaseDuration < c.jobTimeout
    ensures TwoExecutors(c, s, k, l)
  {
    k := 0;
    s := Joined(c);
    LeasesLastLine(c, s, 0, 0);
    s := ClaimFresh(c, s, 0, 1);
    s := StartMany(c, s, 1, 1);
    s := IdleUntil(c, s, 0, 0, c.leaseDuration, c.leaseDuration + 1);
    s, l := SecondExecutor(c, s, 0, 0, c.leaseDuration);
  }

  lemma FullPool(c: Config) returns (s: State)
    requires ConfigOk(c) && FillTime(c) <= c.jobTimeout <= c.leaseDuration
    ensures Filled(c, s, c.maxConcurrent, FillTime(c))
  {
    s := Joined(c);
    s := FillPool(c, s, 0, 0);
  }

  /** A full batch is claimed behind the full pool, and its last slot starts. */
  lemma BatchBehindPool(c: Config, s: State, fill: nat) returns (s': State)
    requires ConfigOk(c) && fill <= c.jobTimeout <= c.leaseDuration && Filled(c, s, c.maxConcurrent, fill)
    ensures var last := c.maxConcurrent + c.claimBatch - 1;
            && Line(c, s', last + 1) && s'.instances[1].queue == []
            && s'.now == StartBound(c, c.claimBatch - 1) && s'.slots[last].lease == Some(fill + c.leaseDuration)
            && last in s'.instances[1].running && s'.instances[1].running[last].started == s'.now
  {
    var m, b := c.maxConcurrent, c.claimBatch;
    LeasesLastLine(c, s, m, fill);
    var claimed := ClaimFresh(c, s, m, b);
    s' := AllRounds(c, claimed, m + b, c.jobTimeout);
  }

  lemma LeaveLast(c: Config, s: State, last: nat) returns (s': State)
    requires Line(c, s, last + 1) && s.instances[1].queue == [] && last in s.instances[1].running
    requires s.slots[last].lease.Some?
    ensures LastJob(c, s', last, s.instances[1].running[last].started, s.slots[last].lease.value) && s'.now == s.now
  {
    s' := Drain(c, s, last + 1, {last});
    assert s'.instances[1].running.Keys == {last};
  }

  /** In the end that last slot is alone. */
  lemma LastOfBatch(c: Config) returns (s: State)
    requires ConfigOk(c) && FillTime(c) <= c.jobTimeout <= c.leaseDuration
    ensures var started := StartBound(c, c.claimBatch - 1);
            && LastJob(c, s, c.maxConcurrent + c.claimBatch - 1, started, FillTime(c) + c.leaseDuration)
            && s.now == started
  {
    var full := FullPool(c);
    var batch := BatchBehindPool(c, full, FillTime(c));
    s := LeaveLast(c, batch, c.maxConcurrent + c.claimBatch - 1);
  }

  /** A lease that is too short lets a timed run put two executors on one slot. */
  lemma ShortLeaseIsUnsafe(c: Config) returns (s: State, k: nat, l: nat)
    requires ConfigOk(c) && LeaseTooShort(c)
    ensures TwoExecutors(c, s, k, l)
  {
    if c.leaseDuration < c.jobTimeout {
      s, k, l := LongJob(c);
    } else {
      k := c.maxConcurrent + c.claimBatch - 1;
      s := LastOfBatch(c);
      var started, lease := s.now, FillTime(c) + c.leaseDuration;
      if s.now <= lease {
        s := IdleUntil(c, s, k, started, lease, lease + 1);
      }
      s, l := SecondExecutor(c, s, k, started, lease);
    }
  }

  ghost predicate NeverTwoExecutors(c: Config) {
    forall s, i, k, j, l :: Reachable(c, s) && SameSlot(s, i, k, j, l) ==> i == j && k == l
  }

  lemma EnoughIsSafe(c: Config)
    requires ConfigOk(c) && LeaseSuffices(c)
    ensures NeverTwoExecutors(c)
  {
    forall s, i, k, j, l | Reachable(c, s) && SameSlot(s, i, k, j, l) ensures i == j && k == l
    {
      var states, events :| Reaches(c, s, states, events);
      OneExecutorPerSlot(c, states, events, |states| - 1, i, k, j, l);
    }
  }

  /** With sparse ticks single execution holds exactly when the lease outlasts a job. */
  lemma SparseTicksExactly(c: Config)
    requires ConfigOk(c) && SparseTicks(c)
    ensures NeverTwoExecutors(c) <==> c.jobTimeout <= c.leaseDuration
  {
    if c.jobTimeout <= c.leaseDuration {
      EnoughIsSafe(c);
    } else {
      var s, k, l := ShortLeaseIsUnsafe(c);
      assert Reachable(c, s) && SameSlot(s, 1, k, 2, l);
    }
  }

  /** The same batch, pool, timeout and lease, told in a unit of time `unit` times finer, under a
      ticker of its own. */
  function Finer(c: Config, unit: nat, interval: nat): Config {
    Config(c.claimBatch, c.maxConcurrent, unit * c.jobTimeout, unit * c.leaseDuration, interval)
  }

  ghost predicate SafeAtEveryInterval(c: Config) {
    forall unit: nat, interval: nat :: unit > 0 && interval > 0 ==> NeverTwoExecutors(Finer(c, unit, interval))
  }

  lemma FinerKeepsCover(c: Config, unit: nat, interval: nat)
    requires ConfigOk(c) && unit > 0 && interval > 0
    ensures ConfigOk(Finer(c, unit, interval))
    ensures LeaseCovers(c) ==> LeaseCovers(Finer(c, unit, interval))
  {
    var rounds := (c.claimBatch + c.maxConcurrent - 1) / c.maxConcurrent + 1;
    TimesGrows(1, unit, c.jobTimeout);
    TimesGrows(1, unit, c.leaseDuration);
    if LeaseCovers(c) {
      TimesGrows(rounds * c.jobTimeout, c.leaseDuration, unit);
      assert rounds * (unit * c.jobTimeout) == rounds * c.jobTimeout * unit;
    }
  }

  /** With a unit more than the fill time finer, the fill time no longer matters. */
  lemma FinerArithmetic(rounds: nat, timeout: nat, lease: nat, unit: nat, fill: nat)
    requires timeout > 0 && lease < (rounds + 1) * timeout && fill < unit
    ensures fill <= unit * timeout
    ensures unit * lease + fill < rounds * (unit * timeout) + unit * timeout
  {
    TimesGrows(1, timeout, unit);
    TimesGrows(lease + 1, (rounds + 1) * timeout, unit);
    assert (rounds + 1) * timeout * unit == rounds * (unit * timeout) + unit * timeout;
  }

  /** Seen finely enough, a lease that does not cover the batch is too short. */
  lemma FinerIsTooShort(c: Config)
    requires ConfigOk(c) && !LeaseCovers(c)
    ensures ConfigOk(Finer(c, c.maxConcurrent + 1, 1)) && LeaseTooShort(Finer(c, c.maxConcurrent + 1, 1))
  {
    var unit, m := c.maxConcurrent + 1, c.maxConcurrent;
    var f := Finer(c, unit, 1);
    FinerKeepsCover(c, unit, 1);
    FewTicks(f, m);
    StartBoundClosed(f, f.claimBatch - 1);
    FinerArithmetic((c.claimBatch + m - 1) / m, c.jobTimeout, c.leaseDuration, unit, TicksFor(f, m));
  }

  lemma {:induction false} FewTicks(c: Config, n: nat)
    requires c.claimBatch > 0
    ensures TicksFor(c, n) <= n
    decreases n
  {
    if n == 0 {
      TicksStep(c, 1);
    } else {
      TicksStep(c, n);
      FewTicks(c, if n < c.claimBatch then 0 else n - c.claimBatch);
    }
  }

  /** Single execution holds whatever the interval exactly when the lease covers the batch: no
      weaker condition will do that leaves the interval out. */
  lemma SafeAtEveryIntervalExactlyWhenLeaseCovers(c: Config)
    requires ConfigOk(c)
    ensures SafeAtEveryInterval(c) <==> LeaseCovers(c)
  {
    if LeaseCovers(c) {
      forall unit: nat, interval: nat | unit > 0 && interval > 0 ensures NeverTwoExecutors(Finer(c, unit, interval)) {
        FinerKeepsCover(c, unit, interval);
        EnoughIsSafe(Finer(c, unit, interval));
      }
    } else {
      FinerIsTooShort(c);
      var f := Finer(c, c.maxConcurrent + 1, 1);
      var s, k, l := ShortLeaseIsUnsafe(f);
      assert Reachable(f, s) && SameSlot(s, 1, k, 2, l);
      assert !NeverTwoExecutors(f);
    }
  }

  /** Ticks a minute apart: the lease does not cover the batch, and still no slot runs twice. */
  lemma WideIntervalNeedsLess()
    ensures var c := Config(10, 16, 30, 45, 60); !LeaseCovers(c) && NeverTwoExecutors(c)
  {
    SparseTicksExactly(Config(10, 16, 30, 45, 60));
  }

  /** With a lease that is too short a completed slot can go back to due: the second executor's
      failure overwrites the first one's success. */
  lemma ShortLeaseUndoesCompletion(c: Config) returns (s: State, e: Event, id: SlotId)
    requires ConfigOk(c) && LeaseTooShort(c)
    ensures Reachable(c, s) && Enabled(c, s, e) && Timely(c, s, e)
    ensures id in s.slots && s.slots[id].status == Completed
    ensures Apply(c, s, e).slots[id].status == Due
  {
    var both, k, l := ShortLeaseIsUnsafe(c);
    id := k;
    s := ReachStep(c, both, RecordSuccess(1, k, 1));
    e := RecordFailure(2, l, 2);
  }
}
