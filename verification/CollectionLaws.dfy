/** What collections and replays do to the tables, in the columns of the rows. */
module CollectionLaws {
  import opened Options
  import opened Collection
  import Circuit

  predicate IsUsable(r: Row) {
    r.status == Succeeded || r.status == PartlySucceeded
  }

  predicate GoodOutcome(o: Outcome) {
    o == Success || o == Partial
  }

  /** The row stands for the same forecast: the same model run where one is known, the same issue time
      where none is. */
  predicate SameForecast(r: Row, p: nat, l: nat, issuedAt: int, modelRun: Option<int>) {
    && r.provider == p && r.location == l
    && match modelRun
       case Some(run) => if r.modelRun.Some? then r.modelRun.value == run else r.requestedAt == run
       case None => if r.modelRun.Some? then r.modelRun.value == issuedAt else r.requestedAt == issuedAt
  }

  /** A usable collection of the forecast is already there. */
  ghost predicate AlreadyCollected(rows: seq<Row>, p: nat, l: nat, issuedAt: int, modelRun: Option<int>) {
    exists i :: 0 <= i < |rows| && IsUsable(rows[i]) && SameForecast(rows[i], p, l, issuedAt, modelRun)
  }

  lemma ConflictsMeans(rows: seq<Row>, r: Row)
    ensures Conflicts(rows, r) <==> IsUsable(r) && AlreadyCollected(rows, r.provider, r.location, r.requestedAt, r.modelRun)
  {
    if Conflicts(rows, r) {
      var i :| 0 <= i < |rows| && Successful(rows[i].status) && SameDedup(rows[i], r);
      assert IsUsable(rows[i]) && SameForecast(rows[i], r.provider, r.location, r.requestedAt, r.modelRun);
    }
    if IsUsable(r) && AlreadyCollected(rows, r.provider, r.location, r.requestedAt, r.modelRun) {
      var i :| 0 <= i < |rows| && IsUsable(rows[i]) && SameForecast(rows[i], r.provider, r.location, r.requestedAt, r.modelRun);
      assert Successful(rows[i].status) && SameDedup(rows[i], r);
    }
  }

  /** The snapshot table gained exactly the named target times, for the new collection, and kept the
      owner of every key it had. */
  ghost predicate Gained(before: map<SnapshotKey, nat>, after: map<SnapshotKey, nat>, p: nat, l: nat, issuedAt: int,
                         targets: seq<int>, owner: nat) {
    && (forall k :: k in after <==> k in before || (exists t :: t in targets && k == SnapshotKey(p, l, issuedAt, t)))
    && (forall k :: k in after ==> after[k] == if k in before then before[k] else owner)
  }

  lemma {:induction false} NewKeysOwned(m: map<SnapshotKey, nat>, p: nat, l: nat, at: int, targets: seq<int>, owner: nat)
    ensures var after := StoreAll(m, p, l, at, targets, owner);
            forall k :: k in after ==> after[k] == if k in m then m[k] else owner
  {
    if targets != [] {
      NewKeysOwned(m, p, l, at, targets[..|targets| - 1], owner);
      StoreAllHas(m, p, l, at, targets[..|targets| - 1], owner);
    }
  }

  lemma StoreAllGains(m: map<SnapshotKey, nat>, p: nat, l: nat, at: int, targets: seq<int>, owner: nat)
    ensures Gained(m, StoreAll(m, p, l, at, targets, owner), p, l, at, targets, owner)
  {
    StoreAllHas(m, p, l, at, targets, owner);
    NewKeysOwned(m, p, l, at, targets, owner);
  }

  /** One row is added whose counts add up; the stored count is how much the snapshot table grew. */
  ghost predicate AddsRow(before: Db, after: Db, id: nat, p: nat, l: nat, issuedAt: int, modelRun: Option<int>, r: ForecastResult) {
    && |after.rows| == |before.rows| + 1 && after.rows[..|before.rows|] == before.rows
    && var row := after.rows[|before.rows|];
       && row.id == id && row.provider == p && row.location == l && row.requestedAt == issuedAt && row.modelRun == modelRun
       && row.received == r.received && row.invalid == r.invalid
       && row.stored == |after.snapshots| - |before.snapshots| && row.stored + row.deduplicated == |r.targets|
  }

  /** A collection is refused exactly when it is good and its forecast was already collected; otherwise
      it adds its row and, if it is good, the snapshots it names. */
  lemma CollectedInColumns(db: Db, id: nat, p: nat, l: nat, at: int, r: ForecastResult)
    ensures var after := After(db, Collected(id, p, l, at, r));
            if GoodOutcome(r.outcome) && AlreadyCollected(db.rows, p, l, at, r.modelRun) then after == db
            else
              && AddsRow(db, after, id, p, l, at, r.modelRun, r)
              && (IsUsable(after.rows[|db.rows|]) <==> GoodOutcome(r.outcome))
              && (if GoodOutcome(r.outcome) then Gained(db.snapshots, after.snapshots, p, l, at, r.targets, id)
                  else after.snapshots == db.snapshots)
  {
    var status := Classify(r.outcome);
    var stored := if Successful(status) then NewCount(db, p, l, at, r, id) else 0;
    ConflictsMeans(db.rows, Recorded(id, p, l, at, r.modelRun, status, r, stored));
    StoreAllGains(db.snapshots, p, l, at, r.targets, id);
  }

  /** A replay never claims its forecast: its row is not usable, and under the issue time of the
      original it adds the snapshots that a good decoding names. */
  lemma ReplayedInColumns(db: Db, id: nat, original: Row, r: ForecastResult)
    ensures var after := After(db, Replayed(id, original, r));
            && AddsRow(db, after, id, original.provider, original.location, original.requestedAt, original.modelRun, r)
            && !IsUsable(after.rows[|db.rows|])
            && (if GoodOutcome(r.outcome)
                then Gained(db.snapshots, after.snapshots, original.provider, original.location, original.requestedAt, r.targets, id)
                else after.snapshots == db.snapshots)
  {
    var status := ReplayStatus(r.outcome);
    var stored :=
      if Successful(Classify(r.outcome)) then NewCount(db, original.provider, original.location, original.requestedAt, r, id) else 0;
    ConflictsMeans(db.rows, Recorded(id, original.provider, original.location, original.requestedAt, original.modelRun, status, r, stored));
    StoreAllGains(db.snapshots, original.provider, original.location, original.requestedAt, r.targets, id);
  }

  /** Over every run no forecast is collected twice. */
  lemma NeverCollectedTwice(events: seq<Event>, i: nat, j: nat)
    requires forall k :: 0 <= k < |events| ==> EventOk(events[k])
    requires var rows := Run(Db([], map[]), events).rows; i < j < |rows| && IsUsable(rows[i]) && IsUsable(rows[j])
    ensures var rows := Run(Db([], map[]), events).rows;
            !SameForecast(rows[i], rows[j].provider, rows[j].location, rows[j].requestedAt, rows[j].modelRun)
  {
    RunKeepsInv(events);
    var rows := Run(Db([], map[]), events).rows;
    assert Successful(rows[i].status) && Successful(rows[j].status);
    assert !SameDedup(rows[i], rows[j]);
  }

  /** Replaying a collection with nothing but target times it had stored stores nothing. */
  lemma ReplayOfStoredAddsNothing(db: Db, id: nat, p: nat, l: nat, at: int, r: ForecastResult,
                                  between: seq<Event>, newId: nat, original: Row, again: ForecastResult)
    requires GoodOutcome(r.outcome) && !AlreadyCollected(db.rows, p, l, at, r.modelRun)
    requires original.provider == p && original.location == l && original.requestedAt == at
    requires forall t :: t in again.targets ==> t in r.targets
    ensures var later := Run(After(db, Collected(id, p, l, at, r)), between);
            After(later, Replayed(newId, original, again)).snapshots == later.snapshots
  {
    var first := After(db, Collected(id, p, l, at, r));
    var later := Run(first, between);
    CollectedInColumns(db, id, p, l, at, r);
    RunExtends(first, between);
    forall t | t in again.targets ensures KeyAt(p, l, at, t) in later.snapshots {
      assert SnapshotKey(p, l, at, t) in first.snapshots;
    }
    StoreKnown(later.snapshots, p, l, at, again.targets, newId);
    ReplayedInColumns(later, newId, original, again);
  }

  /** A stored failure or timeout counts against the provider and a stored success or partial success
      clears the count; nothing else moves it. */
  lemma BreakerCounts(r: Circuit.Row, now: int, attempt: Attempt, o: Outcome, completedAt: int)
    ensures Breaker(r, now, attempt, o, completedAt).failures ==
            if attempt == Stored && (o == Failed || o == Timeout) then r.failures + 1
            else if attempt == Stored && GoodOutcome(o) then 0
            else r.failures
  {
  }
}
