/** Forecast collection: decomposition of a payload into snapshot rows, the deduplicated store, the
    accounting of every collection row, and replay of a stored payload.

    A transaction is one atomic step on the two tables. Its uniqueness checks are made at commit,
    so whatever was looked up before may be stale. */
module Collection {
  import opened Options
  import opened Hours
  import Circuit

  datatype Outcome = Success | Partial | Failed | Timeout | RateLimited | AuthFailed

  datatype Status = Pending | Succeeded | PartlySucceeded | CollectionFailed | Deduplicated | WasRateLimited | TimedOut

  predicate Successful(s: Status) { s == Succeeded || s == PartlySucceeded }

  /** The columns of the snapshot dedup index. */
  datatype SnapshotKey = SnapshotKey(provider: nat, location: nat, issuedAt: int, targetTime: int)

  /** What an adapter returns: the target times of the valid rows, and the counts. */
  datatype ForecastResult = ForecastResult(
    outcome: Outcome, targets: seq<int>, received: nat, invalid: nat, modelRun: Option<int>)

  datatype Row = Row(
    id: nat, provider: nat, location: nat, requestedAt: int, modelRun: Option<int>, status: Status,
    received: nat, stored: nat, deduplicated: nat, invalid: nat)

  /** Collections in insertion order, and each snapshot key with the collection that stored it. */
  datatype Db = Db(rows: seq<Row>, snapshots: map<SnapshotKey, nat>)

  // ---- Decomposition -------------------------------------------------------------------

  /** What becomes of one row of a payload: it cannot be built, it is out of range, or it is good. */
  datatype Verdict = Unbuildable | OutOfRange | Good(targetTime: int)

  function Targets(rows: seq<Verdict>): seq<int> {
    if rows == [] then []
    else Targets(rows[..|rows| - 1]) + (if rows[|rows| - 1].Good? then [rows[|rows| - 1].targetTime] else [])
  }

  /** Nothing received is unaccounted for. */
  predicate Balanced(r: ForecastResult) { r.received == |r.targets| + r.invalid }

  /** More than half invalid fails the payload; some invalid makes it partial. A payload that does
      not parse, or has no rows, is a failure with nothing received. */
  method Decompose(payload: Option<seq<Verdict>>) returns (r: ForecastResult)
    ensures Balanced(r)
    ensures payload.None? ==> r.outcome == Failed && r.received == 0
    ensures payload.Some? ==> r.received == |payload.value| && r.targets == Targets(payload.value)
    ensures r.outcome == Success <==> r.received > 0 && r.invalid == 0
    ensures r.outcome == Partial <==> r.invalid > 0 && 2 * r.invalid <= r.received
    ensures r.outcome in {Success, Partial, Failed}
  {
    if payload.None? || |payload.value| == 0 {
      return ForecastResult(Failed, [], 0, 0, None);
    }
    var rows := payload.value;
    var n := |rows|;
    var targets, invalid := [], 0;
    for i := 0 to n
      invariant targets == Targets(rows[..i]) && i == |targets| + invalid
    {
      assert rows[..i + 1][..i] == rows[..i];
      if rows[i].Unbuildable? || rows[i].OutOfRange? {
        invalid := invalid + 1;
        continue;
      }
      targets := targets + [rows[i].targetTime];
    }
    assert rows[..n] == rows;
    var outcome := if invalid * 2 > n then Failed else if invalid > 0 then Partial else Success;
    r := ForecastResult(outcome, targets, n, invalid, None);
  }

  function Classify(o: Outcome): (s: Status)
    ensures Successful(s) <==> o == Success || o == Partial
    ensures s == Succeeded <==> o == Success
    ensures s == WasRateLimited <==> o == RateLimited
    ensures s == TimedOut <==> o == Timeout
    ensures s != Pending && s != Deduplicated
  {
    match o
    case Success => Succeeded
    case Partial => PartlySucceeded
    case RateLimited => WasRateLimited
    case Timeout => TimedOut
    case AuthFailed => CollectionFailed
    case Failed => CollectionFailed
  }

  // ---- Snapshot rows -------------------------------------------------------------------

  function KeyAt(provider: nat, location: nat, issuedAt: int, target: int): SnapshotKey {
    SnapshotKey(provider, location, issuedAt, target)
  }

  /** The snapshot table after a batch; a key already stored keeps its first collection. */
  function StoreAll(m: map<SnapshotKey, nat>, provider: nat, location: nat, issuedAt: int, targets: seq<int>, owner: nat): map<SnapshotKey, nat> {
    if targets == [] then m
    else
      var before := StoreAll(m, provider, location, issuedAt, targets[..|targets| - 1], owner);
      var key := KeyAt(provider, location, issuedAt, targets[|targets| - 1]);
      if key in before then before else before[key := owner]
  }

  ghost predicate Extends(a: map<SnapshotKey, nat>, b: map<SnapshotKey, nat>) {
    forall k :: k in a ==> k in b && b[k] == a[k]
  }

  /** A batch keeps every stored row, stores every key it names, and no other. */
  lemma {:induction false} StoreAllHas(m: map<SnapshotKey, nat>, p: nat, l: nat, at: int, targets: seq<int>, owner: nat)
    ensures Extends(m, StoreAll(m, p, l, at, targets, owner))
    ensures forall k :: k in StoreAll(m, p, l, at, targets, owner) <==>
                          k in m || (exists t :: t in targets && k == SnapshotKey(p, l, at, t))
  {
    if targets != [] {
      var n := |targets| - 1;
      StoreAllHas(m, p, l, at, targets[..n], owner);
      assert targets == targets[..n] + [targets[n]];
    }
  }

  lemma {:induction false} StoreAllCount(m: map<SnapshotKey, nat>, p: nat, l: nat, at: int, targets: seq<int>, owner: nat)
    ensures |m| <= |StoreAll(m, p, l, at, targets, owner)| <= |m| + |targets|
  {
    if targets != [] {
      StoreAllCount(m, p, l, at, targets[..|targets| - 1], owner);
    }
  }

  /** Storing keys that are all present changes nothing. */
  lemma {:induction false} StoreKnown(m: map<SnapshotKey, nat>, p: nat, l: nat, at: int, targets: seq<int>, owner: nat)
    requires forall t :: t in targets ==> KeyAt(p, l, at, t) in m
    ensures StoreAll(m, p, l, at, targets, owner) == m
  {
    if targets != [] {
      var n := |targets| - 1;
      assert targets[n] in targets;
      forall t | t in targets[..n]
        ensures KeyAt(p, l, at, t) in m
      {
        assert t in targets;
      }
      StoreKnown(m, p, l, at, targets[..n], owner);
    }
  }

  // ---- Collection rows -----------------------------------------------------------------

  function DedupTime(r: Row): int {
    if r.modelRun.Some? then r.modelRun.value else r.requestedAt
  }

  predicate SameDedup(a: Row, b: Row) {
    a.provider == b.provider && a.location == b.location && DedupTime(a) == DedupTime(b)
  }

  /** The unique index on usable collections would reject this row. */
  ghost predicate Conflicts(rows: seq<Row>, r: Row) {
    Successful(r.status) && exists i :: 0 <= i < |rows| && Successful(rows[i].status) && SameDedup(rows[i], r)
  }

  predicate AccountingHolds(r: Row) { r.received == r.stored + r.deduplicated + r.invalid }

  /** The row that records a result of which `stored` snapshots were new. */
  function Recorded(id: nat, provider: nat, location: nat, issuedAt: int, modelRun: Option<int>, status: Status,
                    result: ForecastResult, stored: nat): Row
    requires stored <= |result.targets|
  {
    Row(id, provider, location, issuedAt, modelRun, status, result.received, stored, |result.targets| - stored, result.invalid)
  }

  /** How many snapshots of a result are new to the table. */
  function NewCount(db: Db, provider: nat, location: nat, issuedAt: int, result: ForecastResult, id: nat): (n: nat)
    ensures n <= |result.targets|
  {
    StoreAllCount(db.snapshots, provider, location, issuedAt, result.targets, id);
    |StoreAll(db.snapshots, provider, location, issuedAt, result.targets, id)| - |db.snapshots|
  }

  /** Every transaction that writes a collection row. */
  datatype Event =
    | Collected(id: nat, provider: nat, location: nat, issuedAt: int, result: ForecastResult)
    | Duplicate(id: nat, provider: nat, location: nat, issuedAt: int, result: ForecastResult)
    | Replayed(id: nat, original: Row, result: ForecastResult)

  /** The database after a transaction writes `status` for a result: all of it or nothing. */
  ghost function Write(db: Db, id: nat, provider: nat, location: nat, issuedAt: int, modelRun: Option<int>,
                       status: Status, usable: bool, result: ForecastResult): Db {
    var stored := if usable then NewCount(db, provider, location, issuedAt, result, id) else 0;
    var row := Recorded(id, provider, location, issuedAt, modelRun, status, result, stored);
    if Conflicts(db.rows, row) then db
    else Db(db.rows + [row],
            if usable then StoreAll(db.snapshots, provider, location, issuedAt, result.targets, id) else db.snapshots)
  }

  /** A replay is recorded as deduplicated, or as the failure its decoding was. */
  function ReplayStatus(o: Outcome): (s: Status)
    ensures !Successful(s)
  {
    if Successful(Classify(o)) then Deduplicated else Classify(o)
  }

  ghost function After(db: Db, e: Event): Db {
    match e
    case Collected(id, p, l, at, r) =>
      Write(db, id, p, l, at, r.modelRun, Classify(r.outcome), Successful(Classify(r.outcome)), r)
    case Duplicate(id, p, l, at, r) =>
      Db(db.rows + [Row(id, p, l, at, r.modelRun, Deduplicated, r.received, 0, r.received, 0)], db.snapshots)
    case Replayed(id, o, r) =>
      Write(db, id, o.provider, o.location, o.requestedAt, o.modelRun, ReplayStatus(r.outcome), Successful(Classify(r.outcome)), r)
  }

  // ---- Every reachable state -----------------------------------------------------------

  function TotalStored(rows: seq<Row>): nat {
    if rows == [] then 0 else TotalStored(rows[..|rows| - 1]) + rows[|rows| - 1].stored
  }

  /** One usable collection per dedup key. */
  ghost predicate OneUsable(rows: seq<Row>) {
    forall i, j :: 0 <= i < j < |rows| && Successful(rows[i].status) && Successful(rows[j].status) ==> !SameDedup(rows[i], rows[j])
  }

  ghost predicate Inv(db: Db) {
    OneUsable(db.rows) && TotalStored(db.rows) == |db.snapshots| &&
    forall i :: 0 <= i < |db.rows| ==> AccountingHolds(db.rows[i])
  }

  ghost predicate EventOk(e: Event) { Balanced(e.result) }

  lemma TotalPush(rows: seq<Row>, r: Row)
    ensures TotalStored(rows + [r]) == TotalStored(rows) + r.stored
  {
    assert (rows + [r])[..|rows + [r]| - 1] == rows;
  }

  /** A new row that does not conflict keeps one usable collection per key. */
  lemma PushKeepsOne(rows: seq<Row>, r: Row)
    requires OneUsable(rows) && !Conflicts(rows, r)
    ensures OneUsable(rows + [r])
  {
    var all := rows + [r];
    forall i, j | 0 <= i < j < |all| && Successful(all[i].status) && Successful(all[j].status)
      ensures !SameDedup(all[i], all[j])
    {
      assert all[i] == rows[i];
      assert j < |rows| ==> all[j] == rows[j];
    }
  }

  lemma WriteKeepsInv(db: Db, id: nat, p: nat, l: nat, at: int, modelRun: Option<int>, status: Status, usable: bool, r: ForecastResult)
    requires Inv(db) && Balanced(r)
    ensures Inv(Write(db, id, p, l, at, modelRun, status, usable, r))
  {
    var stored := if usable then NewCount(db, p, l, at, r, id) else 0;
    var row := Recorded(id, p, l, at, modelRun, status, r, stored);
    TotalPush(db.rows, row);
    if !Conflicts(db.rows, row) {
      PushKeepsOne(db.rows, row);
    }
  }

  lemma UnusableKeepsInv(db: Db, row: Row)
    requires Inv(db) && !Successful(row.status) && row.stored == 0 && AccountingHolds(row)
    ensures Inv(Db(db.rows + [row], db.snapshots))
  {
    TotalPush(db.rows, row);
    PushKeepsOne(db.rows, row);
  }

  /** Every transaction keeps the accounting of every row, one usable collection per dedup key, and
      as many snapshots in the table as the collections say they stored. */
  lemma StepKeepsInv(db: Db, e: Event)
    requires Inv(db) && EventOk(e)
    ensures Inv(After(db, e))
  {
    match e
    case Collected(id, p, l, at, r) =>
      WriteKeepsInv(db, id, p, l, at, r.modelRun, Classify(r.outcome), Successful(Classify(r.outcome)), r);
    case Duplicate(id, p, l, at, r) =>
      UnusableKeepsInv(db, Row(id, p, l, at, r.modelRun, Deduplicated, r.received, 0, r.received, 0));
    case Replayed(id, o, r) =>
      WriteKeepsInv(db, id, o.provider, o.location, o.requestedAt, o.modelRun, ReplayStatus(r.outcome),
                    Successful(Classify(r.outcome)), r);
  }

  ghost function Run(db: Db, events: seq<Event>): Db {
    if events == [] then db else After(Run(db, events[..|events| - 1]), events[|events| - 1])
  }

  /** In every interleaving of collections, duplicates and replays, from an empty database. */
  lemma {:induction false} RunKeepsInv(events: seq<Event>)
    requires forall i :: 0 <= i < |events| ==> EventOk(events[i])
    ensures Inv(Run(Db([], map[]), events))
  {
    if events != [] {
      var n := |events| - 1;
      RunKeepsInv(events[..n]);
      assert EventOk(events[n]);
      StepKeepsInv(Run(Db([], map[]), events[..n]), events[n]);
    }
  }

  // ---- Lookups and replay --------------------------------------------------------------

  /** The usable collections, which is all that the dedup and latest lookups read. */
  function Usable(rows: seq<Row>): seq<Row> {
    if rows == [] then []
    else Usable(rows[..|rows| - 1]) + (if Successful(rows[|rows| - 1].status) then [rows[|rows| - 1]] else [])
  }

  /** The usable collection of a dedup key. */
  function FindDedup(rows: seq<Row>, provider: nat, location: nat, at: int): Option<Row> {
    if rows == [] then None
    else
      var found := FindDedup(rows[..|rows| - 1], provider, location, at);
      var last := rows[|rows| - 1];
      if found.Some? then found
      else if Successful(last.status) && last.provider == provider && last.location == location && DedupTime(last) == at
      then Some(last) else None
  }

  lemma {:induction false} FindDedupExactly(rows: seq<Row>, p: nat, l: nat, at: int)
    ensures FindDedup(rows, p, l, at).Some? ==>
              var c := FindDedup(rows, p, l, at).value;
              c in rows && Successful(c.status) && c.provider == p && c.location == l && DedupTime(c) == at
    ensures FindDedup(rows, p, l, at).None? ==>
              forall c :: c in rows && Successful(c.status) && c.provider == p && c.location == l ==> DedupTime(c) != at
  {
    if rows != [] {
      FindDedupExactly(rows[..|rows| - 1], p, l, at);
      assert rows == rows[..|rows| - 1] + [rows[|rows| - 1]];
    }
  }

  /** A usable collection of the provider and location with the latest request time. */
  ghost predicate IsLatest(rows: seq<Row>, provider: nat, location: nat, c: Row) {
    c in Usable(rows) && c.provider == provider && c.location == location &&
    forall d :: d in Usable(rows) && d.provider == provider && d.location == location ==> d.requestedAt <= c.requestedAt
  }

  lemma UsablePush(rows: seq<Row>, r: Row)
    requires !Successful(r.status)
    ensures Usable(rows + [r]) == Usable(rows)
    ensures forall p, l, at :: FindDedup(rows + [r], p, l, at) == FindDedup(rows, p, l, at)
  {
    assert (rows + [r])[..|rows + [r]| - 1] == rows;
  }

  /** A replay adds a row but changes no lookup: neither which collection owns a dedup key nor which
      is the latest usable one. */
  lemma ReplayIsInvisible(db: Db, id: nat, original: Row, r: ForecastResult)
    ensures var after := After(db, Replayed(id, original, r));
            && |after.rows| == |db.rows| + 1
            && (forall p, l, at :: FindDedup(after.rows, p, l, at) == FindDedup(db.rows, p, l, at))
            && (forall p, l, c :: IsLatest(after.rows, p, l, c) <==> IsLatest(db.rows, p, l, c))
            && Extends(db.snapshots, after.snapshots)
  {
    var usable := Successful(Classify(r.outcome));
    var stored := if usable then NewCount(db, original.provider, original.location, original.requestedAt, r, id) else 0;
    var row := Recorded(id, original.provider, original.location, original.requestedAt, original.modelRun, ReplayStatus(r.outcome), r, stored);
    UsablePush(db.rows, row);
    StoreAllHas(db.snapshots, original.provider, original.location, original.requestedAt, r.targets, id);
  }

  lemma StepExtends(db: Db, e: Event)
    ensures Extends(db.snapshots, After(db, e).snapshots)
  {
    match e
    case Collected(id, p, l, at, r) => StoreAllHas(db.snapshots, p, l, at, r.targets, id);
    case Duplicate(_, _, _, _, _) =>
    case Replayed(id, o, r) => StoreAllHas(db.snapshots, o.provider, o.location, o.requestedAt, r.targets, id);
  }

  lemma {:induction false} RunExtends(db: Db, events: seq<Event>)
    ensures Extends(db.snapshots, Run(db, events).snapshots)
  {
    if events != [] {
      RunExtends(db, events[..|events| - 1]);
      StepExtends(Run(db, events[..|events| - 1]), events[|events| - 1]);
    }
  }

  /** Replaying the same collection again with the same decoding stores nothing, whatever was
      written in between. */
  lemma ReplayTwiceStoresNothing(db: Db, first: nat, between: seq<Event>, second: nat, original: Row, r: ForecastResult)
    ensures var once := After(db, Replayed(first, original, r));
            var later := Run(once, between);
            var again := After(later, Replayed(second, original, r));
            again.snapshots == later.snapshots && again.rows[|again.rows| - 1].stored == 0
  {
    var once := After(db, Replayed(first, original, r));
    var later := Run(once, between);
    ReplayIsInvisible(db, first, original, r);
    ReplayIsInvisible(later, second, original, r);
    RunExtends(once, between);
    if Successful(Classify(r.outcome)) {
      StoreAllHas(db.snapshots, original.provider, original.location, original.requestedAt, r.targets, first);
      StoreKnown(later.snapshots, original.provider, original.location, original.requestedAt, r.targets, second);
    }
  }

  // ---- The stored tables ---------------------------------------------------------------

  function FindById(rows: seq<Row>, id: nat): Option<Row> {
    if rows == [] then None
    else
      var found := FindById(rows[..|rows| - 1], id);
      if found.Some? then found else if rows[|rows| - 1].id == id then Some(rows[|rows| - 1]) else None
  }

  /** What a collection attempt comes to. */
  datatype Attempt = CircuitOpen | FoundDuplicate | LostRace | Stored

  class CollectionStore {
    var rows: seq<Row>
    var snapshots: map<SnapshotKey, nat>
    const circuits: Circuit.CircuitService

    constructor (breakers: Circuit.CircuitService)
      ensures Contents() == Db([], map[]) && circuits == breakers
    {
      rows, snapshots, circuits := [], map[], breakers;
    }

    function Contents(): Db
      reads this
    {
      Db(rows, snapshots)
    }

    /** The multi-row insert that skips keys already stored; returns how many it stored. */
    method InsertBatch(p: nat, l: nat, at: int, targets: seq<int>, owner: nat) returns (stored: nat)
      modifies this
      ensures rows == old(rows) && snapshots == StoreAll(old(snapshots), p, l, at, targets, owner)
      ensures stored == |snapshots| - |old(snapshots)|
    {
      stored := 0;
      for i := 0 to |targets|
        invariant rows == old(rows) && snapshots == StoreAll(old(snapshots), p, l, at, targets[..i], owner)
        invariant stored == |snapshots| - |old(snapshots)|
      {
        assert targets[..i + 1][..i] == targets[..i];
        var key := KeyAt(p, l, at, targets[i]);
        if key !in snapshots {
          snapshots := snapshots[key := owner];
          stored := stored + 1;
        }
      }
      assert targets[..|targets|] == targets;
    }

    /** Whether the unique index rejects a completed row. */
    method Violates(r: Row) returns (bad: bool)
      ensures bad == Conflicts(rows, r)
    {
      bad := false;
      if Successful(r.status) {
        for i := 0 to |rows|
          invariant forall j :: 0 <= j < i ==> !(Successful(rows[j].status) && SameDedup(rows[j], r))
        {
          if Successful(rows[i].status) && SameDedup(rows[i], r) {
            return true;
          }
        }
      }
    }

    /** One transaction: a pending row, its snapshots, the final update. A unique violation on the
        final update rolls all of it back. */
    method Commit(id: nat, p: nat, l: nat, at: int, modelRun: Option<int>, status: Status, usable: bool, result: ForecastResult)
      returns (ok: bool)
      modifies this
      ensures Contents() == Write(old(Contents()), id, p, l, at, modelRun, status, usable, result)
      ensures ok <==> |rows| == |old(rows)| + 1
      ensures !ok <==> Conflicts(old(rows), Row(id, p, l, at, modelRun, status, 0, 0, 0, 0))
    {
      var before := snapshots;
      var stored := 0;
      if usable {
        StoreAllCount(snapshots, p, l, at, result.targets, id);
        stored := InsertBatch(p, l, at, result.targets, id);
      }
      var row := Recorded(id, p, l, at, modelRun, status, result, stored);
      var bad := Violates(row);
      if bad {
        snapshots := before;
        return false;
      }
      rows := rows + [row];
      return true;
    }

    /** A known duplicate leaves one more row that balances, stores nothing and can block no later
        collection; the other rows and the snapshots stay. */
    method StoreDeduplicated(id: nat, p: nat, l: nat, at: int, result: ForecastResult)
      modifies this
      ensures Contents() == After(old(Contents()), Duplicate(id, p, l, at, result))
      ensures snapshots == old(snapshots) && |rows| == |old(rows)| + 1 && rows[..|old(rows)|] == old(rows)
      ensures var r := rows[|old(rows)|];
              && r.id == id && r.provider == p && r.location == l && r.requestedAt == at && r.modelRun == result.modelRun
              && r.received == result.received && AccountingHolds(r) && r.stored == 0 && !Successful(r.status)
      ensures forall p, l, at :: FindDedup(rows, p, l, at) == FindDedup(old(rows), p, l, at)
    {
      var row := Row(id, p, l, at, result.modelRun, Deduplicated, result.received, 0, result.received, 0);
      UsablePush(rows, row);
      rows := rows + [row];
    }

    /** One collection. Between the lookup and the commit other transactions may run; `meanwhile` is
        what they have made of the tables. */
    method Collect(id: nat, p: nat, l: nat, now: int, result: ForecastResult, meanwhile: Db, completedAt: int)
      returns (attempt: Attempt)
      requires Balanced(result) && Inv(Contents()) && Inv(meanwhile)
      modifies this, circuits
      ensures Inv(Contents())
      ensures attempt == CircuitOpen <==> !Circuit.Admits(old(circuits.Get(p)), now)
      ensures attempt == CircuitOpen ==> Contents() == old(Contents())
      ensures attempt == FoundDuplicate <==>
              (attempt != CircuitOpen && Successful(Classify(result.outcome)) &&
               FindDedup(old(rows), p, l, DedupAt(IssuedAt(now), result)).Some?)
      ensures attempt == LostRace <==>
              (attempt != CircuitOpen && attempt != FoundDuplicate &&
               Conflicts(meanwhile.rows, Row(id, p, l, IssuedAt(now), result.modelRun, Classify(result.outcome), 0, 0, 0, 0)))
      ensures attempt == FoundDuplicate ==> Contents() == After(old(Contents()), Duplicate(id, p, l, IssuedAt(now), result))
      ensures attempt == LostRace ==> Contents() == After(meanwhile, Duplicate(id, p, l, IssuedAt(now), result))
      ensures attempt == Stored ==> Contents() == After(meanwhile, Collected(id, p, l, IssuedAt(now), result))
      ensures attempt == Stored ==> |rows| == |meanwhile.rows| + 1
      ensures circuits.Get(p) == Breaker(old(circuits.Get(p)), now, attempt, result.outcome, completedAt)
    {
      var at := IssuedAt(now);
      var decision := circuits.Evaluate(p, now);
      if !decision.allowed {
        return CircuitOpen;
      }
      var status := Classify(result.outcome);
      if Successful(status) && FindDedup(rows, p, l, DedupAt(at, result)).Some? {
        StepKeepsInv(Contents(), Duplicate(id, p, l, at, result));
        StoreDeduplicated(id, p, l, at, result);
        return FoundDuplicate;
      }
      rows, snapshots := meanwhile.rows, meanwhile.snapshots;
      StepKeepsInv(meanwhile, Collected(id, p, l, at, result));
      StepKeepsInv(meanwhile, Duplicate(id, p, l, at, result));
      var ok := Commit(id, p, l, at, result.modelRun, status, Successful(status), result);
      if !ok {
        StoreDeduplicated(id, p, l, at, result);
        return LostRace;
      }
      attempt := Stored;
      if Successful(status) {
        var _ := circuits.RecordSuccess(p, completedAt);
      } else if result.outcome == Failed || result.outcome == Timeout {
        var _ := circuits.RecordFailure(p, completedAt);
      }
    }

    /** Reprocess a stored payload. `decoded` is missing when the payload is gone, fails its checksum
        or cannot be decoded again. */
    method Replay(id: nat, newId: nat, decoded: Option<ForecastResult>) returns (done: bool)
      requires Inv(Contents()) && (decoded.Some? ==> Balanced(decoded.value))
      modifies this
      ensures Inv(Contents())
      ensures done <==> FindById(old(rows), id).Some? && decoded.Some?
      ensures done ==> Contents() == After(old(Contents()), Replayed(newId, FindById(old(rows), id).value, decoded.value))
      ensures !done ==> Contents() == old(Contents())
    {
      var found := FindById(rows, id);
      if found.None? || decoded.None? {
        return false;
      }
      var original, result := found.value, decoded.value;
      StepKeepsInv(Contents(), Replayed(newId, original, result));
      var usable := Successful(Classify(result.outcome));
      var ok := Commit(newId, original.provider, original.location, original.requestedAt, original.modelRun,
                       ReplayStatus(result.outcome), usable, result);
      return true;
    }
  }

  /** The issue time of a collection: one hour before the hour it runs in, so that all collections of
      one clock hour share it. */
  function IssuedAt(now: int): (at: int)
    ensures at % 3600 == 0 && at + 3600 <= now < at + 7200
  {
    Hour(now) - 3600
  }

  function DedupAt(at: int, result: ForecastResult): int {
    if result.modelRun.Some? then result.modelRun.value else at
  }

  /** What one attempt does to the provider's breaker: only a stored collection records an outcome,
      and refused credentials or rate limits record none. */
  function Breaker(r: Circuit.Row, now: int, attempt: Attempt, outcome: Outcome, completedAt: int): Circuit.Row {
    var evaluated := Circuit.AfterEvaluate(r, now);
    if attempt != Stored then evaluated
    else match outcome
      case Success => Circuit.AfterSuccess(evaluated)
      case Partial => Circuit.AfterSuccess(evaluated)
      case Failed => Circuit.AfterFailure(evaluated, completedAt)
      case Timeout => Circuit.AfterFailure(evaluated, completedAt)
      case RateLimited => evaluated
      case AuthFailed => evaluated
  }
}
