/** The schedule slot table: idempotent generation, leased claims, completion and retry. */
module SlotTable {
  import opened Options

  type SlotId = nat

  datatype Job = ForecastCollection | ObservationCollection | AnalysisBatch

  /** The unique index over slots; location 0 stands for the global job's null location. */
  datatype SlotKey = SlotKey(config: nat, job: Job, location: nat, slotTime: int)

  datatype Status = Due | Claimed | Completed | Failed | Expired

  datatype Slot = Slot(
    key: SlotKey, status: Status, claimedBy: Option<nat>, claimedAt: Option<int>, lease: Option<int>,
    attempts: nat, nextRetry: Option<int>, run: Option<nat>)

  const MaxAttempts: nat := 5

  // ---- Row updates ---------------------------------------------------------------------

  function NewSlot(key: SlotKey): Slot {
    Slot(key, Due, None, None, None, 0, None, None)
  }

  predicate Claimable(s: Slot, now: int) {
    || (s.status == Due && s.key.slotTime <= now && (s.nextRetry.None? || s.nextRetry.value <= now))
    || (s.status == Claimed && s.lease.Some? && s.lease.value < now)
  }

  function ClaimSlot(s: Slot, instance: nat, now: int, lease: int): Slot {
    s.(status := Claimed, claimedBy := Some(instance), claimedAt := Some(now), lease := Some(now + lease))
  }

  function CompleteSlot(s: Slot, run: nat): Slot {
    s.(status := Completed, run := Some(run))
  }

  function FailSlot(s: Slot, run: nat, attempts: nat, nextRetry: Option<int>): Slot {
    s.(status := if nextRetry.Some? then Due else Failed, attempts := attempts, nextRetry := nextRetry,
       run := Some(run), claimedBy := None, claimedAt := None, lease := None)
  }

  function RetryBackoff(attempt: int): int {
    var a := if attempt < 1 then 1 else if attempt > 5 then 5 else attempt;
    if a == 1 then 1 else if a == 2 then 2 else if a == 3 then 4 else if a == 4 then 8 else 16
  }

  /** What execute hands to Fail after an error: the retry time, or none at the ceiling. */
  function RetryAt(attempts: nat, now: int): Option<int> {
    if attempts < MaxAttempts then Some(now + RetryBackoff(attempts)) else None
  }

  // ---- What every row keeps ------------------------------------------------------------

  predicate SlotOk(s: Slot) {
    && (s.status == Due || s.status == Claimed ==> s.attempts < MaxAttempts)
    && (s.status == Failed ==> s.attempts == MaxAttempts)
    && (s.status == Claimed ==> s.lease.Some?)
    && s.status != Expired
  }

  /** The instant from which a slot may be claimed; none once it is terminal. */
  function ClaimableFrom(s: Slot): Option<int> {
    match s.status
    case Due =>
      Some(if s.nextRetry.Some? && s.nextRetry.value > s.key.slotTime then s.nextRetry.value else s.key.slotTime)
    case Claimed => if s.lease.Some? then Some(s.lease.value + 1) else None
    case _ => None
  }

  /** Every non-terminal slot becomes claimable at a definite instant and stays so. */
  lemma ClaimableExactlyFrom(s: Slot, now: int)
    requires SlotOk(s)
    ensures Claimable(s, now) <==> ClaimableFrom(s).Some? && ClaimableFrom(s).value <= now
    ensures ClaimableFrom(s).Some? <==> s.status == Due || s.status == Claimed
  {
  }

  lemma FailKeepsSlotOk(s: Slot, run: nat, attempts: nat, now: int)
    requires attempts < MaxAttempts
    ensures SlotOk(FailSlot(s, run, attempts + 1, RetryAt(attempts + 1, now)))
  {
  }

  // ---- The claim query -----------------------------------------------------------------

  type Slots = map<SlotId, Slot>

  function ClaimableIds(slots: Slots, now: int): set<SlotId> {
    set id | id in slots && Claimable(slots[id], now)
  }

  function ClaimAll(slots: Slots, ids: set<SlotId>, instance: nat, now: int, lease: int): Slots {
    map id | id in slots :: if id in ids then ClaimSlot(slots[id], instance, now, lease) else slots[id]
  }

  /** Nothing claimable was passed over for a slot scheduled later. */
  ghost predicate EarliestFirst(slots: Slots, taken: set<SlotId>, claimable: set<SlotId>)
    requires taken <= claimable <= slots.Keys
  {
    forall a, b :: a in taken && b in claimable && b !in taken ==> slots[a].key.slotTime <= slots[b].key.slotTime
  }

  /** What one claim takes: as many claimable rows as the limit allows, earliest first. */
  ghost predicate ClaimTakes(slots: Slots, now: int, limit: nat, taken: set<SlotId>) {
    var claimable := ClaimableIds(slots, now);
    && taken <= claimable
    && |taken| == (if limit < |claimable| then limit else |claimable|)
    && EarliestFirst(slots, taken, claimable)
  }

  /** A row nobody has claimed or tried yet, claimable from its slot time on. */
  ghost predicate IsNew(s: Slot, key: SlotKey) {
    && s.key == key && s.attempts == 0 && Unheld(s) && s.run.None?
    && forall now :: Claimable(s, now) <==> key.slotTime <= now
  }

  /** The row is held by the instance until the lease expires; its job and attempts are as before. */
  ghost predicate LeasedTo(s: Slot, before: Slot, instance: nat, now: int, expiry: int) {
    && s.key == before.key && s.attempts == before.attempts && s.run == before.run
    && s.claimedBy == Some(instance) && s.claimedAt == Some(now)
    && forall t :: Claimable(s, t) <==> expiry < t
  }

  predicate Unheld(s: Slot) {
    s.claimedBy.None? && s.claimedAt.None? && s.lease.None?
  }

  lemma {:induction false} EarliestExists(slots: Slots, ids: set<SlotId>)
    requires ids != {} && ids <= slots.Keys
    ensures exists a :: a in ids && forall b | b in ids :: slots[a].key.slotTime <= slots[b].key.slotTime
  {
    var p :| p in ids;
    if ids != {p} {
      var rest := ids - {p};
      EarliestExists(slots, rest);
      var q :| q in rest && forall b | b in rest :: slots[q].key.slotTime <= slots[b].key.slotTime;
      var a := if slots[p].key.slotTime <= slots[q].key.slotTime then p else q;
      assert a in ids && forall b | b in ids :: slots[a].key.slotTime <= slots[b].key.slotTime;
    }
  }

  /** ORDER BY slot_time LIMIT limit over the claimable rows. */
  method TakeEarliest(slots: Slots, claimable: set<SlotId>, limit: nat) returns (taken: set<SlotId>)
    requires claimable <= slots.Keys
    ensures taken <= claimable
    ensures |taken| == if limit < |claimable| then limit else |claimable|
    ensures EarliestFirst(slots, taken, claimable)
  {
    taken := {};
    var rest := claimable;
    while |taken| < limit && rest != {}
      invariant taken <= claimable && rest == claimable - taken
      invariant |taken| <= limit && |taken| + |rest| == |claimable|
      invariant EarliestFirst(slots, taken, claimable)
      decreases rest
    {
      EarliestExists(slots, rest);
      var a :| a in rest && forall b | b in rest :: slots[a].key.slotTime <= slots[b].key.slotTime;
      taken, rest := taken + {a}, rest - {a};
    }
  }

  ghost predicate UniqueKeys(slots: Slots) {
    forall a, b :: a in slots && b in slots && slots[a].key == slots[b].key ==> a == b
  }

  predicate HasKey(slots: Slots, key: SlotKey) {
    exists a :: a in slots && slots[a].key == key
  }

  /** INSERT ... ON CONFLICT DO NOTHING under the unique slot index. */
  function GenerateSlot(slots: Slots, id: SlotId, key: SlotKey): Slots {
    if HasKey(slots, key) then slots else slots[id := NewSlot(key)]
  }

  class SlotRepository {
    var slots: Slots

    constructor ()
      ensures slots == map[]
    {
      slots := map[];
    }

    /** A slot row is created at most once for each key; existing rows are left alone. */
    method Generate(id: SlotId, key: SlotKey)
      requires UniqueKeys(slots) && id !in slots
      modifies this
      ensures UniqueKeys(slots) && HasKey(slots, key)
      ensures slots == GenerateSlot(old(slots), id, key)
      ensures HasKey(old(slots), key) ==> slots == old(slots)
      ensures !HasKey(old(slots), key) ==> slots.Keys == old(slots).Keys + {id} && IsNew(slots[id], key)
      ensures forall a :: a in old(slots) ==> slots[a] == old(slots)[a]
    {
      if !HasKey(slots, key) {
        slots := slots[id := NewSlot(key)];
        assert slots[id].key == key;
      }
    }

    /** Claims the earliest claimable slots, as many as the limit allows; none stays claimable. */
    method ClaimDue(instance: nat, now: int, lease: nat, limit: nat) returns (claimed: set<SlotId>)
      modifies this
      ensures ClaimTakes(old(slots), now, limit, claimed)
      ensures slots == ClaimAll(old(slots), claimed, instance, now, lease)
      ensures ClaimableIds(slots, now) == ClaimableIds(old(slots), now) - claimed
      ensures slots.Keys == old(slots).Keys
      ensures forall a :: a in slots && a !in claimed ==> slots[a] == old(slots)[a]
      ensures forall a :: a in claimed ==> LeasedTo(slots[a], old(slots)[a], instance, now, now + lease)
      ensures (forall a :: a in old(slots) ==> SlotOk(old(slots)[a])) ==> forall a :: a in slots ==> SlotOk(slots[a])
    {
      claimed := TakeEarliest(slots, ClaimableIds(slots, now), limit);
      slots := ClaimAll(slots, claimed, instance, now, lease);
    }

    /** The watchdog's own query: it counts what a claim that no limit cuts short would take. */
    method CountClaimable(now: int) returns (n: nat)
      ensures n == |ClaimableIds(slots, now)|
      ensures forall limit: nat, taken :: limit >= n && ClaimTakes(slots, now, limit, taken) ==> |taken| == n
    {
      n := 0;
      ghost var counted: set<SlotId> := {};
      var rest := slots.Keys;
      while rest != {}
        invariant rest <= slots.Keys && n == |counted|
        invariant counted == ClaimableIds(slots, now) - rest
        decreases rest
      {
        var id :| id in rest;
        var row := slots[id];
        if row.status == Due {
          if row.key.slotTime <= now && (row.nextRetry.None? || row.nextRetry.value <= now) {
            n, counted := n + 1, counted + {id};
          }
        } else if row.status == Claimed && row.lease.Some? && row.lease.value < now {
          n, counted := n + 1, counted + {id};
        }
        rest := rest - {id};
      }
    }

    /** Whoever holds it, the row of that id completes and is never claimable again; its key and its
        attempts stay, and so does every other row. */
    method Complete(id: SlotId, run: nat)
      modifies this
      ensures slots.Keys == old(slots).Keys
      ensures forall a :: a in slots && a != id ==> slots[a] == old(slots)[a]
      ensures id in slots ==> slots[id].key == old(slots)[id].key && slots[id].attempts == old(slots)[id].attempts
      ensures id in slots ==> slots[id].status == Completed && slots[id].run == Some(run)
      ensures id in slots ==> forall now :: !Claimable(slots[id], now)
    {
      if id in slots {
        slots := slots[id := CompleteSlot(slots[id], run)];
      }
    }

    /** Whoever holds it, the row of that id is given up with the attempts and the retry time it is
        told; with a retry time it is claimable from then on, without one never again. */
    method Fail(id: SlotId, run: nat, attempts: nat, nextRetry: Option<int>)
      modifies this
      ensures slots.Keys == old(slots).Keys
      ensures forall a :: a in slots && a != id ==> slots[a] == old(slots)[a]
      ensures id in slots ==> slots[id].key == old(slots)[id].key && slots[id].attempts == attempts
      ensures id in slots ==> slots[id].run == Some(run) && Unheld(slots[id])
      ensures id in slots && nextRetry.None? ==> slots[id].status == Failed && forall now :: !Claimable(slots[id], now)
      ensures id in slots && nextRetry.Some? ==>
                slots[id].status == Due &&
                forall now :: Claimable(slots[id], now) <==> nextRetry.value <= now && slots[id].key.slotTime <= now
    {
      if id in slots {
        slots := slots[id := FailSlot(slots[id], run, attempts, nextRetry)];
      }
    }
  }
}
