/** Several scheduler instances sharing one slot table.

    An instance ticks when it joins and then with its ticker, which keeps at most one undelivered
    fire.  A tick claims one batch under a lease, starts its slots in order as permits of the bounded
    pool come free, and is over once the last has started; each job runs for at most the job timeout.
    Completion and failure are written by slot id alone.  Claims, starts, writes, crashes and the
    passing of time interleave freely.  Every start takes the next ticket of its instance, so a
    waiting slot and its later job carry the same ticket. */
module LeaseProtocol {
  import opened Options
  import opened SlotTable

  datatype Config = Config(claimBatch: nat, maxConcurrent: nat, jobTimeout: nat, leaseDuration: nat, interval: nat)

  type InstanceId = nat

  /** What an executor remembers of the row it claimed. */
  datatype Held = Held(slot: SlotId, attempts: nat)

  /** A running job: what it holds, its batch's claim time, its place in that batch, its start. */
  datatype Running = Running(held: Held, claimedAt: int, place: nat, started: int)

  /** Fire is the time of the first ticker fire no tick has answered yet. */
  datatype Instance = Instance(
    queue: seq<Held>, claimedAt: int, base: nat, next: nat, running: map<nat, Running>, fire: int, stopped: bool)

  datatype State = State(now: int, slots: Slots, instances: map<InstanceId, Instance>)

  datatype Event =
    | Generate(id: SlotId, key: SlotKey)
    | Join(i: InstanceId)
    | Claim(i: InstanceId, ids: seq<SlotId>)
    | ClaimFails(i: InstanceId)
    | Start(i: InstanceId)
    | RecordSuccess(i: InstanceId, ticket: nat, run: nat)
    | RecordFailure(i: InstanceId, ticket: nat, run: nat)
    | EndUnrecorded(i: InstanceId, ticket: nat)
    | Shutdown(i: InstanceId)
    | Crash(i: InstanceId)
    | Advance(time: int)

  predicate ConfigOk(c: Config) {
    c.claimBatch > 0 && c.maxConcurrent > 0 && c.jobTimeout > 0 && c.leaseDuration > 0 && c.interval > 0
  }

  /** The lease outlasts one full pool plus every round the batch needs on it. */
  predicate LeaseCovers(c: Config) {
    c.maxConcurrent > 0 &&
    ((c.claimBatch + c.maxConcurrent - 1) / c.maxConcurrent + 1) * c.jobTimeout <= c.leaseDuration
  }

  /** Every job of one tick's batch is over when the next tick comes, and the pool can take a batch. */
  predicate SparseTicks(c: Config) {
    c.claimBatch <= c.maxConcurrent && c.jobTimeout <= c.interval
  }

  /** The lease outlasts whatever one claim can be held for. */
  predicate LeaseSuffices(c: Config) {
    LeaseCovers(c) || (SparseTicks(c) && c.jobTimeout <= c.leaseDuration)
  }

  /** The constructor's defaults, in seconds; left alone, they satisfy the timing condition. */
  function WithDefaults(
    claimBatch: int, maxConcurrent: int, jobTimeout: int, leaseDuration: int, interval: int): (c: Config)
    ensures ConfigOk(c)
    ensures claimBatch <= 0 && maxConcurrent <= 0 && jobTimeout <= 0 && leaseDuration <= 0 ==> LeaseCovers(c)
    ensures claimBatch <= 0 && maxConcurrent <= 0 && jobTimeout <= 0 && leaseDuration <= 0 && interval <= 0 ==>
              c == Config(10, 8, 60, 300, 15)
    ensures claimBatch > 0 && maxConcurrent > 0 && jobTimeout > 0 && leaseDuration > 0 && interval > 0 ==>
              c == Config(claimBatch, maxConcurrent, jobTimeout, leaseDuration, interval)
  {
    Config(if claimBatch <= 0 then 10 else claimBatch, if maxConcurrent <= 0 then 8 else maxConcurrent,
           if jobTimeout <= 0 then 60 else jobTimeout, if leaseDuration <= 0 then 300 else leaseDuration,
           if interval <= 0 then 15 else interval)
  }

  predicate IsRunning(s: State, i: InstanceId, ticket: nat) {
    i in s.instances && ticket in s.instances[i].running
  }

  /** The last tick is over and an undelivered fire has come. */
  predicate TickDue(s: State, i: InstanceId) {
    && i in s.instances && !s.instances[i].stopped
    && s.instances[i].queue == [] && s.instances[i].fire <= s.now
  }

  /** The ticker's channel holds one fire: those it cannot hold are dropped, so after a tick the next
      one comes with the first later fire that is not already past. */
  function NextFire(fire: int, now: int, interval: nat): int {
    if interval == 0 || now <= fire then fire + interval
    else fire + interval * ((now - fire + interval - 1) / interval)
  }

  function IdsOf(ids: seq<SlotId>): set<SlotId> {
    set id | id in ids
  }

  lemma {:induction false} DistinctIds(ids: seq<SlotId>)
    requires forall a, b :: 0 <= a < b < |ids| ==> ids[a] != ids[b]
    ensures |IdsOf(ids)| == |ids|
  {
    if ids != [] {
      var last := |ids| - 1;
      DistinctIds(ids[..last]);
      assert IdsOf(ids) == IdsOf(ids[..last]) + {ids[last]};
    }
  }

  ghost predicate Enabled(c: Config, s: State, e: Event) {
    match e
    case Generate(id, key) => id !in s.slots
    case Join(i) => i !in s.instances
    case Claim(i, ids) =>
      && TickDue(s, i)
      && (forall a, b :: 0 <= a < b < |ids| ==> ids[a] != ids[b])
      && ClaimTakes(s.slots, s.now, c.claimBatch, IdsOf(ids))
    case ClaimFails(i) => TickDue(s, i)
    case Start(i) =>
      i in s.instances && s.instances[i].queue != [] && |s.instances[i].running| < c.maxConcurrent
    case RecordSuccess(i, ticket, run) => IsRunning(s, i, ticket)
    case RecordFailure(i, ticket, run) => IsRunning(s, i, ticket)
    case EndUnrecorded(i, ticket) => IsRunning(s, i, ticket)
    case Shutdown(i) => i in s.instances
    case Crash(i) => i in s.instances
    case Advance(time) => time > s.now
  }

  /** Time passes only while no permit is free for a waiting slot, no job outlives its timeout and no
      tick is overdue. */
  ghost predicate Timely(c: Config, s: State, e: Event) {
    e.Advance? ==> forall i :: i in s.instances ==> InstanceTimely(c, s.instances[i], e.time)
  }

  ghost predicate InstanceTimely(c: Config, x: Instance, time: int) {
    && (x.queue == [] || |x.running| >= c.maxConcurrent)
    && (x.queue == [] && !x.stopped ==> time <= x.fire)
    && forall k :: k in x.running ==> time <= x.running[k].started + c.jobTimeout
  }

  function HeldFrom(slots: Slots, ids: seq<SlotId>): (q: seq<Held>)
    requires IdsOf(ids) <= slots.Keys
    ensures |q| == |ids|
  {
    assert forall a :: 0 <= a < |ids| ==> ids[a] in IdsOf(ids);
    seq(|ids|, a requires 0 <= a < |ids| => Held(ids[a], slots[ids[a]].attempts))
  }

  function ClaimBatch(x: Instance, queue: seq<Held>, now: int, interval: nat): Instance {
    x.(queue := queue, claimedAt := now, base := x.next, fire := NextFire(x.fire, now, interval))
  }

  function StartNext(x: Instance, now: int): Instance
    requires x.queue != []
  {
    var place := if x.next < x.base then 0 else x.next - x.base;
    x.(queue := x.queue[1..], next := x.next + 1,
       running := x.running[x.next := Running(x.queue[0], x.claimedAt, place, now)])
  }

  function EndJob(s: State, i: InstanceId, ticket: nat): map<InstanceId, Instance>
    requires i in s.instances
  {
    s.instances[i := s.instances[i].(running := s.instances[i].running - {ticket})]
  }

  ghost function Apply(c: Config, s: State, e: Event): State
    requires Enabled(c, s, e)
  {
    match e
    case Generate(id, key) => s.(slots := GenerateSlot(s.slots, id, key))
    case Join(i) => s.(instances := s.instances[i := Instance([], s.now, 0, 0, map[], s.now, false)])
    case Claim(i, ids) =>
      var x := s.instances[i];
      s.(slots := ClaimAll(s.slots, IdsOf(ids), i, s.now, c.leaseDuration),
         instances := s.instances[i := ClaimBatch(x, HeldFrom(s.slots, ids), s.now, c.interval)])
    case ClaimFails(i) =>
      var x := s.instances[i];
      s.(instances := s.instances[i := x.(fire := NextFire(x.fire, s.now, c.interval))])
    case Start(i) => s.(instances := s.instances[i := StartNext(s.instances[i], s.now)])
    case RecordSuccess(i, ticket, run) =>
      var held := s.instances[i].running[ticket].held;
      s.(instances := EndJob(s, i, ticket),
         slots := if held.slot in s.slots then s.slots[held.slot := CompleteSlot(s.slots[held.slot], run)] else s.slots)
    case RecordFailure(i, ticket, run) =>
      var held := s.instances[i].running[ticket].held;
      var attempts := held.attempts + 1;
      s.(instances := EndJob(s, i, ticket),
         slots := if held.slot in s.slots
                  then s.slots[held.slot := FailSlot(s.slots[held.slot], run, attempts, RetryAt(attempts, s.now))]
                  else s.slots)
    case EndUnrecorded(i, ticket) => s.(instances := EndJob(s, i, ticket))
    case Shutdown(i) => s.(instances := s.instances[i := s.instances[i].(queue := [], stopped := true)])
    case Crash(i) => s.(instances := s.instances - {i})
    case Advance(time) => s.(now := time)
  }

  ghost predicate Run(c: Config, states: seq<State>, events: seq<Event>) {
    && |states| == |events| + 1
    && states[0].slots == map[] && states[0].instances == map[]
    && forall k :: 0 <= k < |events| ==> Steps(c, states[k], events[k], states[k + 1])
  }

  ghost predicate Steps(c: Config, s: State, e: Event, s': State) {
    Enabled(c, s, e) && s' == Apply(c, s, e)
  }

  ghost predicate TimedRun(c: Config, states: seq<State>, events: seq<Event>) {
    && Run(c, states, events)
    && forall k :: 0 <= k < |events| ==> Timely(c, states[k], events[k])
  }

  // ---- Holders -------------------------------------------------------------------------

  /** The row a ticket holds, waiting or running. */
  function HeldAt(x: Instance, ticket: nat): Option<Held> {
    if ticket in x.running then Some(x.running[ticket].held)
    else if x.next <= ticket < x.next + |x.queue| then Some(x.queue[ticket - x.next])
    else None
  }

  /** When the batch of a ticket was claimed. */
  function ClaimTime(x: Instance, ticket: nat): int {
    if ticket in x.running then x.running[ticket].claimedAt else x.claimedAt
  }

  ghost predicate Holds(s: State, i: InstanceId, ticket: nat) {
    i in s.instances && HeldAt(s.instances[i], ticket).Some?
  }

  function HeldOf(s: State, i: InstanceId, ticket: nat): Held
    requires Holds(s, i, ticket)
  {
    HeldAt(s.instances[i], ticket).value
  }

  /** Tickets of running jobs have all been given out. */
  ghost predicate Ticketed(s: State) {
    forall i :: i in s.instances ==> TicketsOk(s.instances[i])
  }

  ghost predicate TicketsOk(x: Instance) {
    x.base <= x.next && forall k :: k in x.running ==> k < x.next
  }

  lemma StepKeepsTickets(c: Config, s: State, e: Event)
    requires Enabled(c, s, e) && Ticketed(s)
    ensures Ticketed(Apply(c, s, e))
  {
  }

  /** A holder after a step held the same row before it, or was just made by a claim. */
  lemma HolderOrigin(c: Config, s: State, e: Event, i: InstanceId, k: nat)
    requires Enabled(c, s, e) && Ticketed(s) && Holds(Apply(c, s, e), i, k)
    ensures var s' := Apply(c, s, e);
            || (Holds(s, i, k) && HeldOf(s, i, k) == HeldOf(s', i, k)
                && ClaimTime(s'.instances[i], k) == ClaimTime(s.instances[i], k))
            || NewHolder(s, e, s', i, k)
  {
    if e.Claim? && i == e.i && !Holds(s, i, k) {
      assert e.ids[k - s.instances[i].next] in e.ids;
    }
  }

  ghost predicate NewHolder(s: State, e: Event, s': State, i: InstanceId, k: nat) {
    && e.Claim? && i == e.i && i in s.instances && Holds(s', i, k)
    && s.instances[i].next <= k < s.instances[i].next + |e.ids|
    && var id := e.ids[k - s.instances[i].next];
       && id in s.slots
       && HeldOf(s', i, k) == Held(id, s.slots[id].attempts)
       && ClaimTime(s'.instances[i], k) == s.now
  }

  // ---- In any interleaving, without timing assumptions ---------------------------------

  /** Rows are well formed, and no executor remembers more attempts than a retryable row has. */
  ghost predicate RowsOk(s: State) {
    && Ticketed(s)
    && (forall id :: id in s.slots ==> SlotOk(s.slots[id]))
    && (forall i: InstanceId, k: nat :: Holds(s, i, k) ==> HeldOf(s, i, k).attempts < MaxAttempts)
  }

  lemma StepKeepsRows(c: Config, s: State, e: Event)
    requires Enabled(c, s, e) && RowsOk(s)
    ensures RowsOk(Apply(c, s, e))
  {
    var s' := Apply(c, s, e);
    StepKeepsTickets(c, s, e);
    forall i: InstanceId, k: nat | Holds(s', i, k) ensures HeldOf(s', i, k).attempts < MaxAttempts {
      HolderOrigin(c, s, e, i, k);
      if !Holds(s, i, k) {
        assert e.ids[k - s.instances[i].next] in e.ids;
      }
    }
    if e.RecordSuccess? || e.RecordFailure? {
      assert Holds(s, e.i, e.ticket);
    }
  }

  /** Over every run, timed or not: due and claimed rows have at most four recorded attempts,
      failed rows exactly five, and every claimed row carries a lease. */
  lemma {:induction false} RunKeepsRows(c: Config, states: seq<State>, events: seq<Event>, k: nat)
    requires Run(c, states, events) && k < |states|
    ensures RowsOk(states[k])
    decreases k
  {
    if k > 0 {
      RunKeepsRows(c, states, events, k - 1);
      assert Steps(c, states[k - 1], events[k - 1], states[k]);
      StepKeepsRows(c, states[k - 1], events[k - 1]);
    }
  }

  // ---- The pool's pace -----------------------------------------------------------------

  /** The latest start, after the claim, of the slot at a place in its batch: one job timeout for
      the jobs already running, and one for each full pool of the batch before it. */
  function StartBound(c: Config, place: nat): nat
    requires c.maxConcurrent > 0
  {
    if place < c.maxConcurrent then c.jobTimeout else StartBound(c, place - c.maxConcurrent) + c.jobTimeout
  }

  lemma {:induction false} StartBoundGrows(c: Config, a: nat, b: nat)
    requires c.maxConcurrent > 0 && a <= b
    ensures c.jobTimeout <= StartBound(c, a) <= StartBound(c, b)
  {
    var m := c.maxConcurrent;
    if a >= m {
      StartBoundGrows(c, a - m, b - m);
    } else if b >= m {
      StartBoundGrows(c, 0, b - m);
    }
  }

  lemma DivideOnce(x: nat, m: nat, q: nat, r: nat)
    requires m > 0 && x == q * m + r && r < m
    ensures x / m == q
  {
    var q', r' := x / m, x % m;
    if q < q' {
      TimesGrows(q + 1, q', m);
    } else if q' < q {
      TimesGrows(q' + 1, q, m);
    }
  }

  lemma {:induction false} TimesGrows(a: nat, b: nat, m: nat)
    requires a <= b
    ensures a * m <= b * m
    decreases b
  {
    if a < b {
      TimesGrows(a, b - 1, m);
    }
  }

  lemma DivideStep(x: nat, m: nat)
    requires m > 0
    ensures (x + m) / m == x / m + 1
  {
    assert (x / m + 1) * m == (x / m) * m + m;
    DivideOnce(x + m, m, x / m + 1, x % m);
  }

  /** The bound in closed form. */
  lemma {:induction false} StartBoundClosed(c: Config, place: nat)
    requires c.maxConcurrent > 0
    ensures StartBound(c, place) == ((place + c.maxConcurrent) / c.maxConcurrent) * c.jobTimeout
  {
    var m, j := c.maxConcurrent, c.jobTimeout;
    if place < m {
      DivideOnce(place + m, m, 1, place);
    } else {
      StartBoundClosed(c, place - m);
      DivideStep(place, m);
      assert (place / m + 1) * j == (place / m) * j + j;
    }
  }

  lemma StartBoundCovered(c: Config, place: nat)
    requires ConfigOk(c) && LeaseCovers(c) && place < c.claimBatch
    ensures StartBound(c, place) + c.jobTimeout <= c.leaseDuration
  {
    var m, j := c.maxConcurrent, c.jobTimeout;
    StartBoundGrows(c, place, c.claimBatch - 1);
    StartBoundClosed(c, c.claimBatch - 1);
    var rounds := (c.claimBatch + m - 1) / m;
    assert (rounds + 1) * j == rounds * j + j;
  }

  /** Among m distinct numbers below n one is at most n - m. */
  lemma {:induction false} LowTicket(tickets: set<nat>, n: nat, m: nat) returns (low: nat)
    requires |tickets| >= m > 0 && forall k :: k in tickets ==> k < n
    ensures low in tickets && low + m <= n
    decreases n
  {
    if n - 1 in tickets && m > 1 {
      var rest := tickets - {n - 1};
      low := LowTicket(rest, n - 1, m - 1);
    } else if n - 1 in tickets {
      low := n - 1;
    } else {
      assert tickets != {};
      var k :| k in tickets;
      low := LowTicket(tickets, n - 1, m);
    }
  }

  ghost predicate JobOk(c: Config, x: Instance, k: nat, now: int)
    requires k in x.running && c.maxConcurrent > 0
  {
    var r := x.running[k];
    && r.started <= now <= r.started + c.jobTimeout
    && r.place < c.claimBatch
    && r.started <= r.claimedAt + StartBound(c, r.place)
    && (k < x.base ==> r.started <= x.claimedAt)
    && (k >= x.base ==> r.claimedAt == x.claimedAt && r.place == k - x.base)
  }

  /** An instance is on pace: each slot of a batch starts within its bound of the claim. */
  ghost predicate OnPace(c: Config, x: Instance, now: int)
    requires c.maxConcurrent > 0
  {
    && TicketsOk(x)
    && |x.running| <= c.maxConcurrent
    && x.claimedAt <= now
    && x.next - x.base + |x.queue| <= c.claimBatch
    && (x.queue != [] ==> now <= x.claimedAt + StartBound(c, x.next - x.base))
    && forall k :: k in x.running ==> JobOk(c, x, k, now)
  }

  /** Time keeps the pace: the permit a waiting slot needs is held by an early enough job. */
  lemma AdvanceKeepsPace(c: Config, x: Instance, now: int, time: int)
    requires ConfigOk(c) && OnPace(c, x, now) && now <= time && InstanceTimely(c, x, time)
    ensures OnPace(c, x, time)
  {
    if x.queue != [] {
      var d, m := x.next - x.base, c.maxConcurrent;
      assert |x.running.Keys| == |x.running|;
      var low := LowTicket(x.running.Keys, x.next, m);
      assert JobOk(c, x, low, now);
      if low < x.base {
        StartBoundGrows(c, d, d);
      } else {
        StartBoundGrows(c, low - x.base, d - m);
      }
    }
  }

  lemma StartKeepsPace(c: Config, x: Instance, now: int)
    requires ConfigOk(c) && OnPace(c, x, now) && x.queue != [] && |x.running| < c.maxConcurrent
    ensures OnPace(c, StartNext(x, now), now)
  {
    var x' := StartNext(x, now);
    assert x.next !in x.running;
    assert x'.running.Keys == x.running.Keys + {x.next};
    StartBoundGrows(c, x.next - x.base, x.next + 1 - x.base);
    forall k | k in x'.running ensures JobOk(c, x', k, now) {
      if k != x.next {
        assert JobOk(c, x, k, now);
      }
    }
  }

  lemma ClaimKeepsPace(c: Config, x: Instance, queue: seq<Held>, now: int)
    requires ConfigOk(c) && OnPace(c, x, now) && |queue| <= c.claimBatch
    ensures OnPace(c, ClaimBatch(x, queue, now, c.interval), now)
  {
    var x' := ClaimBatch(x, queue, now, c.interval);
    forall k | k in x'.running ensures JobOk(c, x', k, now) {
      assert JobOk(c, x, k, now);
    }
  }

  lemma EndKeepsPace(c: Config, x: Instance, ticket: nat, now: int)
    requires ConfigOk(c) && OnPace(c, x, now) && ticket in x.running
    ensures OnPace(c, x.(running := x.running - {ticket}), now)
  {
    var x' := x.(running := x.running - {ticket});
    assert x'.running.Keys == x.running.Keys - {ticket};
    forall k | k in x'.running ensures JobOk(c, x', k, now) {
      assert JobOk(c, x, k, now);
    }
  }

  lemma SameJobsKeepPace(c: Config, x: Instance, x': Instance, now: int)
    requires c.maxConcurrent > 0 && OnPace(c, x, now) && (x'.queue == x.queue || x'.queue == [])
    requires x' == x.(queue := x'.queue, fire := x'.fire, stopped := x'.stopped)
    ensures OnPace(c, x', now)
  {
    forall k | k in x'.running ensures JobOk(c, x', k, now) {
      assert JobOk(c, x, k, now);
    }
  }

  // ---- Sparse ticks --------------------------------------------------------------------

  ghost predicate JobPunctual(c: Config, x: Instance, k: nat)
    requires k in x.running
  {
    var r := x.running[k];
    && r.started == r.claimedAt
    && r.started + c.interval <= x.fire
    && (k < x.base ==> r.started + c.interval <= x.claimedAt)
  }

  /** Ticks come on time, a whole interval apart, and each starts all it claims at once. */
  ghost predicate Punctual(c: Config, x: Instance, now: int) {
    && (x.queue != [] ==> !x.stopped && x.claimedAt == now && now + c.interval <= x.fire)
    && (!x.stopped ==> now <= x.fire)
    && forall k :: k in x.running ==> JobPunctual(c, x, k)
  }

  /** No time passes over a waiting slot: a full pool would hold a job of an earlier tick, and those
      are at their timeout. */
  lemma AdvanceKeepsPunctual(c: Config, x: Instance, now: int, time: int)
    requires ConfigOk(c) && SparseTicks(c) && OnPace(c, x, now) && Punctual(c, x, now)
    requires now < time && InstanceTimely(c, x, time)
    ensures Punctual(c, x, time)
  {
    if x.queue != [] {
      assert |x.running.Keys| == |x.running|;
      var low := LowTicket(x.running.Keys, x.next, c.maxConcurrent);
      assert false;
    }
  }

  lemma StartKeepsPunctual(c: Config, x: Instance, now: int)
    requires TicketsOk(x) && Punctual(c, x, now) && x.queue != []
    ensures Punctual(c, StartNext(x, now), now)
  {
    var x' := StartNext(x, now);
    forall k | k in x'.running ensures JobPunctual(c, x', k) {
      if k != x.next {
        assert JobPunctual(c, x, k);
      }
    }
  }

  lemma ClaimKeepsPunctual(c: Config, x: Instance, queue: seq<Held>, now: int)
    requires Punctual(c, x, now) && x.queue == [] && !x.stopped && x.fire <= now
    ensures Punctual(c, ClaimBatch(x, queue, now, c.interval), now)
  {
    var x' := ClaimBatch(x, queue, now, c.interval);
    forall k | k in x'.running ensures JobPunctual(c, x', k) {
      assert JobPunctual(c, x, k);
    }
  }

  /** Endings, shutdowns and failed claims: no job is added, and the ticker only moves on. */
  lemma FewerJobsKeepPunctual(c: Config, x: Instance, x': Instance, now: int)
    requires Punctual(c, x, now) && x.fire <= x'.fire && (x'.queue == x.queue || x'.queue == [])
    requires x' == x.(queue := x'.queue, fire := x'.fire, stopped := x'.stopped, running := x'.running)
    requires x'.stopped == x.stopped || (x'.stopped && x'.queue == [])
    requires forall k :: k in x'.running ==> k in x.running && x'.running[k] == x.running[k]
    ensures Punctual(c, x', now)
  {
    forall k | k in x'.running ensures JobPunctual(c, x', k) {
      assert JobPunctual(c, x, k);
    }
  }

  /** On pace, whatever an instance holds is still covered by its lease. */
  lemma PaceWithinLease(c: Config, x: Instance, k: nat, now: int)
    requires ConfigOk(c) && LeaseSuffices(c) && OnPace(c, x, now) && HeldAt(x, k).Some?
    requires SparseTicks(c) ==> Punctual(c, x, now)
    ensures now <= ClaimTime(x, k) + c.leaseDuration
    ensures k in x.running ==> x.running[k].started + c.jobTimeout <= ClaimTime(x, k) + c.leaseDuration
  {
    if k in x.running {
      assert JobOk(c, x, k, now);
      if LeaseCovers(c) {
        StartBoundCovered(c, x.running[k].place);
      } else {
        assert JobPunctual(c, x, k);
      }
    } else if LeaseCovers(c) {
      StartBoundCovered(c, x.next - x.base);
    }
  }

  // ---- Safety under the timing condition -----------------------------------------------

  /** What a ticket holds is a claimed row under the lease of that very claim. */
  ghost predicate Covered(c: Config, s: State, i: InstanceId, k: nat)
    requires Holds(s, i, k)
  {
    var held := HeldOf(s, i, k);
    && held.slot in s.slots
    && s.slots[held.slot].status == Claimed
    && s.slots[held.slot].attempts == held.attempts
    && s.slots[held.slot].lease == Some(ClaimTime(s.instances[i], k) + c.leaseDuration)
  }

  ghost predicate Exclusive(s: State) {
    forall i: InstanceId, k: nat, j: InstanceId, l: nat ::
      Holds(s, i, k) && Holds(s, j, l) && HeldOf(s, i, k).slot == HeldOf(s, j, l).slot ==> i == j && k == l
  }

  ghost predicate Safe(c: Config, s: State)
    requires c.maxConcurrent > 0
  {
    && (forall i :: i in s.instances ==> OnPace(c, s.instances[i], s.now))
    && (SparseTicks(c) ==> forall i :: i in s.instances ==> Punctual(c, s.instances[i], s.now))
    && (forall i: InstanceId, k: nat :: Holds(s, i, k) ==> Covered(c, s, i, k))
    && Exclusive(s)
  }

  lemma SafeIsTicketed(c: Config, s: State)
    requires c.maxConcurrent > 0 && Safe(c, s)
    ensures Ticketed(s)
  {
  }

  lemma StepKeepsPace(c: Config, s: State, e: Event)
    requires ConfigOk(c) && Safe(c, s) && Enabled(c, s, e) && Timely(c, s, e)
    ensures var s' := Apply(c, s, e); forall i :: i in s'.instances ==> OnPace(c, s'.instances[i], s'.now)
  {
    var s' := Apply(c, s, e);
    forall i | i in s'.instances ensures OnPace(c, s'.instances[i], s'.now) {
      match e
      case Advance(time) => AdvanceKeepsPace(c, s.instances[i], s.now, time);
      case Start(j) => if i == j { StartKeepsPace(c, s.instances[i], s.now); }
      case Claim(j, ids) =>
        if i == j {
          DistinctIds(ids);
          ClaimKeepsPace(c, s.instances[i], HeldFrom(s.slots, ids), s.now);
        }
      case RecordSuccess(j, ticket, run) => if i == j { EndKeepsPace(c, s.instances[i], ticket, s.now); }
      case RecordFailure(j, ticket, run) => if i == j { EndKeepsPace(c, s.instances[i], ticket, s.now); }
      case EndUnrecorded(j, ticket) => if i == j { EndKeepsPace(c, s.instances[i], ticket, s.now); }
      case Shutdown(j) => if i == j { SameJobsKeepPace(c, s.instances[i], s'.instances[i], s.now); }
      case ClaimFails(j) => if i == j { SameJobsKeepPace(c, s.instances[i], s'.instances[i], s.now); }
      case _ =>
    }
  }

  lemma StepKeepsPunctual(c: Config, s: State, e: Event)
    requires ConfigOk(c) && SparseTicks(c) && Safe(c, s) && Enabled(c, s, e) && Timely(c, s, e)
    ensures var s' := Apply(c, s, e); forall i :: i in s'.instances ==> Punctual(c, s'.instances[i], s'.now)
  {
    var s' := Apply(c, s, e);
    forall i | i in s'.instances ensures Punctual(c, s'.instances[i], s'.now) {
      match e
      case Advance(time) => AdvanceKeepsPunctual(c, s.instances[i], s.now, time);
      case Start(j) => if i == j { StartKeepsPunctual(c, s.instances[i], s.now); }
      case Claim(j, ids) => if i == j { ClaimKeepsPunctual(c, s.instances[i], HeldFrom(s.slots, ids), s.now); }
      case Join(j) =>
      case _ => if i in s.instances { FewerJobsKeepPunctual(c, s.instances[i], s'.instances[i], s.now); }
    }
  }

  /** A held row is never claimable. */
  lemma HeldIsNotClaimable(c: Config, s: State, i: InstanceId, k: nat)
    requires ConfigOk(c) && LeaseSuffices(c) && Safe(c, s) && Holds(s, i, k)
    ensures HeldOf(s, i, k).slot !in ClaimableIds(s.slots, s.now)
  {
    assert Covered(c, s, i, k);
    PaceWithinLease(c, s.instances[i], k, s.now);
  }

  /** A row no one claims or finishes in this step is left alone. */
  lemma RowUntouched(c: Config, s: State, e: Event, id: SlotId)
    requires Enabled(c, s, e) && id in s.slots
    requires e.Claim? ==> id !in e.ids
    requires e.RecordSuccess? || e.RecordFailure? ==> HeldOf(s, e.i, e.ticket).slot != id
    ensures var s' := Apply(c, s, e); id in s'.slots && s'.slots[id] == s.slots[id]
  {
  }

  lemma NewHolderCovered(c: Config, s: State, e: Event, i: InstanceId, k: nat)
    requires Enabled(c, s, e) && NewHolder(s, e, Apply(c, s, e), i, k)
    ensures Covered(c, Apply(c, s, e), i, k)
  {
    assert e.ids[k - s.instances[i].next] in e.ids;
  }

  lemma OldHolderCovered(c: Config, s: State, e: Event, i: InstanceId, k: nat)
    requires ConfigOk(c) && LeaseSuffices(c) && Safe(c, s) && Enabled(c, s, e)
    requires Holds(s, i, k) && Holds(Apply(c, s, e), i, k)
    ensures var s' := Apply(c, s, e); var id := HeldOf(s, i, k).slot;
            id in s.slots && id in s'.slots && s'.slots[id] == s.slots[id]
  {
    assert Covered(c, s, i, k);
    HeldIsNotClaimable(c, s, i, k);
    if e.RecordSuccess? || e.RecordFailure? {
      assert Holds(s, e.i, e.ticket);
      TicketGone(c, s, e, i, k);
    }
    RowUntouched(c, s, e, HeldOf(s, i, k).slot);
  }

  lemma StepKeepsCover(c: Config, s: State, e: Event, i: InstanceId, k: nat)
    requires ConfigOk(c) && LeaseSuffices(c) && Safe(c, s) && Enabled(c, s, e)
    requires Holds(Apply(c, s, e), i, k)
    ensures Covered(c, Apply(c, s, e), i, k)
  {
    var s' := Apply(c, s, e);
    SafeIsTicketed(c, s);
    HolderOrigin(c, s, e, i, k);
    if NewHolder(s, e, s', i, k) {
      NewHolderCovered(c, s, e, i, k);
    } else {
      assert Covered(c, s, i, k);
      OldHolderCovered(c, s, e, i, k);
    }
  }

  /** The ticket of a finished job no longer holds anything. */
  lemma TicketGone(c: Config, s: State, e: Event, i: InstanceId, k: nat)
    requires c.maxConcurrent > 0 && Safe(c, s) && Enabled(c, s, e) && (e.RecordSuccess? || e.RecordFailure?)
    requires Holds(Apply(c, s, e), i, k)
    ensures !(i == e.i && k == e.ticket)
  {
    assert OnPace(c, s.instances[e.i], s.now);
  }

  lemma NewHoldersDiffer(c: Config, s: State, e: Event, i: InstanceId, k: nat, l: nat)
    requires Enabled(c, s, e) && NewHolder(s, e, Apply(c, s, e), i, k) && NewHolder(s, e, Apply(c, s, e), i, l)
    requires HeldOf(Apply(c, s, e), i, k).slot == HeldOf(Apply(c, s, e), i, l).slot
    ensures k == l
  {
    var a, b := k - s.instances[i].next, l - s.instances[i].next;
    assert e.ids[a] == e.ids[b];
  }

  lemma NewIsNotOld(c: Config, s: State, e: Event, i: InstanceId, k: nat, j: InstanceId, l: nat)
    requires ConfigOk(c) && LeaseSuffices(c) && Safe(c, s) && Enabled(c, s, e)
    requires NewHolder(s, e, Apply(c, s, e), i, k) && Holds(s, j, l)
    ensures HeldOf(Apply(c, s, e), i, k).slot != HeldOf(s, j, l).slot
  {
    assert e.ids[k - s.instances[i].next] in IdsOf(e.ids);
    HeldIsNotClaimable(c, s, j, l);
  }

  lemma StepKeepsExclusive(
    c: Config, s: State, e: Event, i: InstanceId, k: nat, j: InstanceId, l: nat)
    requires ConfigOk(c) && LeaseSuffices(c) && Safe(c, s) && Enabled(c, s, e)
    requires Holds(Apply(c, s, e), i, k) && Holds(Apply(c, s, e), j, l)
    requires HeldOf(Apply(c, s, e), i, k).slot == HeldOf(Apply(c, s, e), j, l).slot
    ensures i == j && k == l
  {
    var s' := Apply(c, s, e);
    SafeIsTicketed(c, s);
    HolderOrigin(c, s, e, i, k);
    HolderOrigin(c, s, e, j, l);
    if NewHolder(s, e, s', i, k) && NewHolder(s, e, s', j, l) {
      NewHoldersDiffer(c, s, e, i, k, l);
    } else if NewHolder(s, e, s', i, k) {
      NewIsNotOld(c, s, e, i, k, j, l);
    } else if NewHolder(s, e, s', j, l) {
      NewIsNotOld(c, s, e, j, l, i, k);
    }
  }

  lemma StepKeepsSafe(c: Config, s: State, e: Event)
    requires ConfigOk(c) && LeaseSuffices(c) && Safe(c, s) && Enabled(c, s, e) && Timely(c, s, e)
    ensures Safe(c, Apply(c, s, e))
  {
    var s' := Apply(c, s, e);
    StepKeepsPace(c, s, e);
    if SparseTicks(c) {
      StepKeepsPunctual(c, s, e);
    }
    forall i: InstanceId, k: nat | Holds(s', i, k) ensures Covered(c, s', i, k) {
      StepKeepsCover(c, s, e, i, k);
    }
    forall i: InstanceId, k: nat, j: InstanceId, l: nat
      | Holds(s', i, k) && Holds(s', j, l) && HeldOf(s', i, k).slot == HeldOf(s', j, l).slot
      ensures i == j && k == l
    {
      StepKeepsExclusive(c, s, e, i, k, j, l);
    }
  }

  lemma StepAt(c: Config, states: seq<State>, events: seq<Event>, n: nat)
    requires TimedRun(c, states, events) && n < |events|
    ensures Enabled(c, states[n], events[n]) && Timely(c, states[n], events[n])
    ensures states[n + 1] == Apply(c, states[n], events[n])
  {
    assert Steps(c, states[n], events[n], states[n + 1]);
  }

  lemma {:induction false} TimedRunIsSafe(c: Config, states: seq<State>, events: seq<Event>, n: nat)
    requires ConfigOk(c) && LeaseSuffices(c) && TimedRun(c, states, events) && n < |states|
    ensures Safe(c, states[n])
    decreases n
  {
    if n > 0 {
      TimedRunIsSafe(c, states, events, n - 1);
      StepAt(c, states, events, n - 1);
      StepKeepsSafe(c, states[n - 1], events[n - 1]);
    }
  }

  // ---- The promises --------------------------------------------------------------------

  /** Every claimed slot's job ends before its lease expires. */
  lemma JobsEndWithinTheirLease(c: Config, states: seq<State>, events: seq<Event>, n: nat, i: InstanceId, k: nat)
    requires ConfigOk(c) && LeaseSuffices(c) && TimedRun(c, states, events) && n < |states|
    requires IsRunning(states[n], i, k)
    ensures var r := states[n].instances[i].running[k];
            && r.held.slot in states[n].slots
            && states[n].slots[r.held.slot].lease.Some?
            && states[n].now <= r.started + c.jobTimeout <= states[n].slots[r.held.slot].lease.value
  {
    TimedRunIsSafe(c, states, events, n);
    var x := states[n].instances[i];
    assert Holds(states[n], i, k) && Covered(c, states[n], i, k);
    assert JobOk(c, x, k, states[n].now);
    PaceWithinLease(c, x, k, states[n].now);
  }

  /** At most one executor runs a slot. */
  lemma OneExecutorPerSlot(
    c: Config, states: seq<State>, events: seq<Event>, n: nat, i: InstanceId, k: nat, j: InstanceId, l: nat)
    requires ConfigOk(c) && LeaseSuffices(c) && TimedRun(c, states, events) && n < |states|
    requires IsRunning(states[n], i, k) && IsRunning(states[n], j, l)
    requires states[n].instances[i].running[k].held.slot == states[n].instances[j].running[l].held.slot
    ensures i == j && k == l
  {
    TimedRunIsSafe(c, states, events, n);
    assert Holds(states[n], i, k) && Holds(states[n], j, l);
  }

  predicate Terminal(s: Slot) {
    s.status == Completed || s.status == Failed
  }

  lemma TerminalStays(c: Config, s: State, e: Event, id: SlotId)
    requires ConfigOk(c) && LeaseSuffices(c) && Safe(c, s) && Enabled(c, s, e)
    requires id in s.slots && Terminal(s.slots[id])
    ensures id in Apply(c, s, e).slots && Apply(c, s, e).slots[id] == s.slots[id]
  {
    if e.RecordSuccess? || e.RecordFailure? {
      assert Holds(s, e.i, e.ticket) && Covered(c, s, e.i, e.ticket);
    }
    RowUntouched(c, s, e, id);
  }

  lemma TerminalNext(c: Config, states: seq<State>, events: seq<Event>, n: nat, id: SlotId)
    requires ConfigOk(c) && LeaseSuffices(c) && TimedRun(c, states, events) && n < |events|
    requires id in states[n].slots && Terminal(states[n].slots[id])
    ensures id in states[n + 1].slots && states[n + 1].slots[id] == states[n].slots[id]
  {
    TimedRunIsSafe(c, states, events, n);
    StepAt(c, states, events, n);
    TerminalStays(c, states[n], events[n], id);
  }

  /** A completed or failed row never changes again. */
  lemma {:induction false} TerminalIsFinal(
    c: Config, states: seq<State>, events: seq<Event>, m: nat, n: nat, id: SlotId)
    requires ConfigOk(c) && LeaseSuffices(c) && TimedRun(c, states, events) && m <= n < |states|
    requires id in states[m].slots && (states[m].slots[id].status == Completed || states[m].slots[id].status == Failed)
    ensures id in states[n].slots && states[n].slots[id] == states[m].slots[id]
    decreases n
  {
    if m < n {
      TerminalIsFinal(c, states, events, m, n - 1, id);
      TerminalNext(c, states, events, n - 1, id);
    }
  }
}
