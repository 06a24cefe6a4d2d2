/** The observation table and the dedup/correction transaction that writes it.

    A table is the sequence of its rows in insertion order: INSERT appends, and the one
    permitted UPDATE sets `supersededBy` on a live row in place.  Identifiers stay opaque, so a
    pointer may dangle; that it never does is a theorem. */
module Observations {
  import opened Options

  type ObservationId = nat

  datatype Provenance = Station | Interpolated | Reanalysis | ProviderEstimated | Unrecognized

  datatype Quality = Valid | Suspect | Corrected

  /** The columns of the partial unique index on live rows. */
  datatype Key = Key(source: string, location: nat, observedAt: int)

  datatype Readings = Readings(
    temperature: Option<real>, precipitation: Option<real>, humidity: Option<real>,
    windSpeed: Option<real>, windDirection: Option<real>, pressure: Option<real>)

  datatype Observation = Observation(
    id: ObservationId, key: Key, provenance: Provenance, readings: Readings,
    quality: Quality, supersededBy: Option<ObservationId>)

  type Table = seq<Observation>

  // ---- Genuine corrections -------------------------------------------------------------

  predicate FloatDiffers(a: Option<real>, b: Option<real>, eps: real) {
    if a.None? && b.None? then false
    else if a.None? || b.None? then true
    else
      var d := a.value - b.value;
      (if d < 0.0 then -d else d) > eps
  }

  predicate DiffersFrom(now: Readings, prev: Readings) {
    || FloatDiffers(now.temperature, prev.temperature, 0.1)
    || FloatDiffers(now.precipitation, prev.precipitation, 0.05)
    || FloatDiffers(now.humidity, prev.humidity, 1.0)
    || FloatDiffers(now.windSpeed, prev.windSpeed, 0.1)
    || FloatDiffers(now.windDirection, prev.windDirection, 1.0)
    || FloatDiffers(now.pressure, prev.pressure, 0.5)
  }

  /** Both readings are known and at most eps apart, or neither is known. */
  predicate Near(a: Option<real>, b: Option<real>, eps: real) {
    && (a.Some? <==> b.Some?)
    && (a.Some? && b.Some? ==> -eps <= a.value - b.value <= eps)
  }

  /** What counts as the same reading: a tenth of a degree and of a metre per second, five hundredths
      of a millimetre, one percent, one degree of direction, half a hectopascal. */
  predicate SameWeather(a: Readings, b: Readings) {
    && Near(a.temperature, b.temperature, 0.1)
    && Near(a.precipitation, b.precipitation, 0.05)
    && Near(a.humidity, b.humidity, 1.0)
    && Near(a.windSpeed, b.windSpeed, 0.1)
    && Near(a.windDirection, b.windDirection, 1.0)
    && Near(a.pressure, b.pressure, 0.5)
  }

  lemma DiffersExactly(a: Readings, b: Readings)
    ensures DiffersFrom(a, b) <==> !SameWeather(a, b)
  {
  }

  // ---- SQL statements as table functions -----------------------------------------------

  predicate Live(o: Observation) {
    o.supersededBy.None?
  }

  predicate HasLive(t: Table, key: Key) {
    exists i :: 0 <= i < |t| && t[i].key == key && Live(t[i])
  }

  /** One row of the multi-row insert: skipped when the live-row index already holds its key. */
  function InsertOne(t: Table, o: Observation): Table {
    if HasLive(t, o.key) then t else t + [o]
  }

  function InsertAll(t: Table, rows: seq<Observation>): Table
    decreases |rows|
  {
    if rows == [] then t else InsertAll(InsertOne(t, rows[0]), rows[1..])
  }

  datatype Correction = Correction(oldId: ObservationId, observedAt: int, newId: ObservationId)

  predicate Hit(o: Observation, c: Correction) {
    o.id == c.oldId && o.key.observedAt == c.observedAt && Live(o)
  }

  function Mark(o: Observation, c: Correction): Observation {
    if Hit(o, c) then o.(supersededBy := Some(c.newId)) else o
  }

  /** The guarded UPDATE; None when it touches no row, which aborts the transaction. */
  function SupersedeOne(t: Table, c: Correction): (r: Option<Table>)
    ensures r.Some? ==> |r.value| == |t|
  {
    if exists i :: 0 <= i < |t| && Hit(t[i], c)
    then Some(seq(|t|, i requires 0 <= i < |t| => Mark(t[i], c)))
    else None
  }

  function SupersedeAll(t: Table, cs: seq<Correction>): (r: Option<Table>)
    ensures r.Some? ==> |r.value| == |t|
    decreases |cs|
  {
    if cs == [] then Some(t)
    else
      match SupersedeOne(t, cs[0])
      case None => None
      case Some(t') => SupersedeAll(t', cs[1..])
  }

  datatype Window = Window(source: string, location: nat, start: int, end: int)

  predicate InWindow(w: Window, key: Key) {
    key.source == w.source && key.location == w.location && w.start <= key.observedAt <= w.end
  }

  function CurrentInWindow(t: Table, w: Window): seq<Observation> {
    if t == [] then []
    else
      var o := t[|t| - 1];
      CurrentInWindow(t[..|t| - 1], w) + (if InWindow(w, o.key) && Live(o) then [o] else [])
  }

  // ---- The transaction -----------------------------------------------------------------

  /** One row to insert, with the row it corrects when it is a correction. */
  datatype Item = Item(row: Observation, corrects: Option<ObservationId>)

  function PriorAt(current: seq<Observation>, at: int): Option<Observation> {
    if current == [] then None
    else if current[|current| - 1].key.observedAt == at then Some(current[|current| - 1])
    else PriorAt(current[..|current| - 1], at)
  }

  function ItemFor(current: seq<Observation>, o: Observation): seq<Item> {
    match PriorAt(current, o.key.observedAt)
    case None => [Item(o, None)]
    case Some(prev) =>
      if !SameWeather(o.readings, prev.readings)
      then [Item(o.(quality := Corrected), Some(prev.id))]
      else []
  }

  function PlanFor(current: seq<Observation>, fetched: seq<Observation>): seq<Item> {
    if fetched == [] then []
    else PlanFor(current, fetched[..|fetched| - 1]) + ItemFor(current, fetched[|fetched| - 1])
  }

  function Rows(items: seq<Item>): (rows: seq<Observation>)
    ensures |rows| == |items|
  {
    seq(|items|, i requires 0 <= i < |items| => items[i].row)
  }

  function Corrections(items: seq<Item>): seq<Correction> {
    if items == [] then []
    else
      var last := items[|items| - 1];
      Corrections(items[..|items| - 1]) +
      (if last.corrects.Some?
       then [Correction(last.corrects.value, last.row.key.observedAt, last.row.id)] else [])
  }

  /** The writes of one transaction: every supersede first, then the inserts; None is a rollback. */
  function Commit(t: Table, items: seq<Item>): Option<Table> {
    match SupersedeAll(t, Corrections(items))
    case None => None
    case Some(t') => Some(InsertAll(t', Rows(items)))
  }

  function Plan(t: Table, w: Window, fetched: seq<Observation>): seq<Item> {
    PlanFor(CurrentInWindow(t, w), fetched)
  }

  // ---- What every table keeps ----------------------------------------------------------

  ghost predicate DistinctIds(t: Table) {
    forall i, j :: 0 <= i < j < |t| ==> t[i].id != t[j].id
  }

  /** A live row is the last row of its key. */
  ghost predicate OneLive(t: Table) {
    forall i, j :: 0 <= i < j < |t| && t[i].key == t[j].key ==> !Live(t[i])
  }

  /** Row j is what row i points to: the next row of the same key, flagged corrected. */
  ghost predicate Successor(t: Table, i: int, j: int) {
    && 0 <= i < j < |t|
    && t[i].supersededBy == Some(t[j].id)
    && t[i].key == t[j].key
    && t[j].quality == Corrected
    && forall k :: i < k < j ==> t[k].key != t[i].key
  }

  ghost predicate Chained(t: Table) {
    && DistinctIds(t)
    && OneLive(t)
    && forall i {:trigger Linked(t, i)} :: 0 <= i < |t| && !Live(t[i]) ==> Linked(t, i)
  }

  ghost predicate Linked(t: Table, i: int) {
    exists j :: Successor(t, i, j)
  }

  lemma NextRow(t: Table, i: int) returns (j: int)
    requires Chained(t) && 0 <= i < |t| && !Live(t[i])
    ensures Successor(t, i, j)
  {
    assert Linked(t, i);
    j :| Successor(t, i, j);
  }

  /** Tables only grow, and a row changes only by being superseded once. */
  ghost predicate Evolves(t: Table, t': Table) {
    && |t| <= |t'|
    && forall i :: 0 <= i < |t| ==>
         && t'[i] == t[i].(supersededBy := t'[i].supersededBy)
         && (!Live(t[i]) ==> t'[i] == t[i])
  }

  /** What a transaction knows of its plan, however stale the read behind it was. */
  ghost predicate PlanOk(t: Table, items: seq<Item>) {
    && (forall k :: 0 <= k < |items| ==> Live(items[k].row))
    && (forall k, l :: 0 <= k < l < |items| ==> items[k].row.id != items[l].row.id)
    && (forall i, k :: 0 <= i < |t| && 0 <= k < |items| ==> t[i].id != items[k].row.id)
    && (forall k, l :: 0 <= k < |items| && 0 <= l < |items| && items[k].row.key == items[l].row.key ==>
          items[k].corrects == items[l].corrects)
    && (forall k :: 0 <= k < |items| && items[k].corrects.Some? ==>
          && items[k].row.quality == Corrected
          && exists i :: Corrects(t, i, items[k]))
  }

  ghost predicate Corrects(t: Table, i: int, item: Item) {
    0 <= i < |t| && item.corrects == Some(t[i].id) && t[i].key == item.row.key
  }

  /** Fetched rows as an adapter hands them over: of this source and location, live, fresh ids. */
  ghost predicate Fetched(t: Table, w: Window, fetched: seq<Observation>) {
    && (forall k :: 0 <= k < |fetched| ==>
          && fetched[k].key.source == w.source && fetched[k].key.location == w.location
          && Live(fetched[k]))
    && (forall k, l :: 0 <= k < l < |fetched| ==> fetched[k].id != fetched[l].id)
    && (forall i, k :: 0 <= i < |t| && 0 <= k < |fetched| ==> t[i].id != fetched[k].id)
  }

  // ---- Plans -------------------------------------------------------------------------

  lemma {:induction false} CurrentIsLive(t: Table, w: Window, o: Observation)
    ensures o in CurrentInWindow(t, w) <==> o in t && InWindow(w, o.key) && Live(o)
  {
    if t != [] {
      CurrentIsLive(t[..|t| - 1], w, o);
      assert t == t[..|t| - 1] + [t[|t| - 1]];
    }
  }

  lemma {:induction false} PriorAtFinds(current: seq<Observation>, at: int)
    ensures PriorAt(current, at).None? ==> forall o | o in current :: o.key.observedAt != at
    ensures PriorAt(current, at).Some? ==>
              PriorAt(current, at).value in current && PriorAt(current, at).value.key.observedAt == at
  {
    if current != [] {
      PriorAtFinds(current[..|current| - 1], at);
      assert current == current[..|current| - 1] + [current[|current| - 1]];
    }
  }

  /** The prior row of a fetched row is the one live row of its key, if its key is in the window. */
  lemma PriorIsLiveRow(t: Table, w: Window, o: Observation)
    requires Chained(t) && o.key.source == w.source && o.key.location == w.location
    ensures var prior := PriorAt(CurrentInWindow(t, w), o.key.observedAt);
            && (prior.Some? ==> prior.value in t && prior.value.key == o.key && Live(prior.value))
            && (prior.Some? <==> InWindow(w, o.key) && HasLive(t, o.key))
  {
    var current := CurrentInWindow(t, w);
    var prior := PriorAt(current, o.key.observedAt);
    PriorAtFinds(current, o.key.observedAt);
    if prior.Some? {
      CurrentIsLive(t, w, prior.value);
    } else if InWindow(w, o.key) && HasLive(t, o.key) {
      var i :| 0 <= i < |t| && t[i].key == o.key && Live(t[i]);
      CurrentIsLive(t, w, t[i]);
      assert false;
    }
  }

  ghost predicate FromFetched(current: seq<Observation>, fetched: seq<Observation>, item: Item, j: int) {
    && 0 <= j < |fetched|
    && ItemFor(current, fetched[j]) == [item]
  }

  lemma {:induction false} PlanOrigin(current: seq<Observation>, fetched: seq<Observation>, item: Item)
    returns (j: int)
    requires item in PlanFor(current, fetched)
    ensures FromFetched(current, fetched, item, j)
  {
    var n := |fetched| - 1;
    if item in ItemFor(current, fetched[n]) {
      j := n;
    } else {
      j := PlanOrigin(current, fetched[..n], item);
    }
  }

  lemma {:induction false} PlanDistinct(current: seq<Observation>, fetched: seq<Observation>)
    requires forall k, l :: 0 <= k < l < |fetched| ==> fetched[k].id != fetched[l].id
    ensures var items := PlanFor(current, fetched);
            forall k, l :: 0 <= k < l < |items| ==> items[k].row.id != items[l].row.id
  {
    if fetched != [] {
      var n := |fetched| - 1;
      PlanDistinct(current, fetched[..n]);
      var items := PlanFor(current, fetched[..n]);
      forall k | 0 <= k < |items|
        ensures items[k].row.id != fetched[n].id
      {
        var j := PlanOrigin(current, fetched[..n], items[k]);
      }
    }
  }

  lemma {:induction false} PlanComplete(current: seq<Observation>, fetched: seq<Observation>, j: int)
    requires 0 <= j < |fetched| && ItemFor(current, fetched[j]) != []
    ensures ItemFor(current, fetched[j])[0] in PlanFor(current, fetched)
  {
    if j < |fetched| - 1 {
      PlanComplete(current, fetched[..|fetched| - 1], j);
    }
  }

  lemma PlanIsOk(t: Table, w: Window, fetched: seq<Observation>)
    requires Chained(t) && Fetched(t, w, fetched)
    ensures PlanOk(t, Plan(t, w, fetched))
  {
    var current := CurrentInWindow(t, w);
    var items := Plan(t, w, fetched);
    PlanDistinct(current, fetched);
    forall k | 0 <= k < |items|
      ensures Live(items[k].row)
      ensures forall i :: 0 <= i < |t| ==> t[i].id != items[k].row.id
      ensures items[k].corrects == PriorId(current, items[k].row.key.observedAt)
      ensures items[k].corrects.Some? ==> items[k].row.quality == Corrected
      ensures items[k].corrects.Some? ==> exists i :: Corrects(t, i, items[k])
    {
      var j := PlanOrigin(current, fetched, items[k]);
      PriorIsLiveRow(t, w, fetched[j]);
      if items[k].corrects.Some? {
        var prior := PriorAt(current, fetched[j].key.observedAt);
        var i :| 0 <= i < |t| && t[i] == prior.value;
        assert Corrects(t, i, items[k]);
      }
    }
  }

  function PriorId(current: seq<Observation>, at: int): Option<ObservationId> {
    match PriorAt(current, at)
    case None => None
    case Some(o) => Some(o.id)
  }

  // ---- Superseding -------------------------------------------------------------------

  /** Correction k was applied to row i, which it found live. */
  ghost predicate Applied(t: Table, t': Table, cs: seq<Correction>, i: int, k: int) {
    && 0 <= i < |t| == |t'| && 0 <= k < |cs|
    && Hit(t[i], cs[k])
    && t'[i] == t[i].(supersededBy := Some(cs[k].newId))
  }

  lemma SupersedeOneMarks(t: Table, c: Correction, t': Table) returns (h: int)
    requires DistinctIds(t) && SupersedeOne(t, c) == Some(t')
    ensures 0 <= h < |t| && Hit(t[h], c)
    ensures t' == t[h := t[h].(supersededBy := Some(c.newId))]
    ensures DistinctIds(t') && Evolves(t, t')
  {
    h :| 0 <= h < |t| && Hit(t[h], c);
  }

  lemma AppliedEarlier(t: Table, cs: seq<Correction>, t1: Table, t': Table, i: int, k: int)
    requires DistinctIds(t) && cs != [] && SupersedeOne(t, cs[0]) == Some(t1)
    requires Applied(t1, t', cs[1..], i, k)
    ensures Applied(t, t', cs, i, k + 1)
  {
    var h := SupersedeOneMarks(t, cs[0], t1);
  }

  lemma {:induction false} SupersedeAllEvolves(t: Table, cs: seq<Correction>, t': Table)
    requires DistinctIds(t) && SupersedeAll(t, cs) == Some(t')
    ensures Evolves(t, t')
    decreases |cs|
  {
    if cs != [] {
      var t1 := SupersedeOne(t, cs[0]).value;
      var h := SupersedeOneMarks(t, cs[0], t1);
      SupersedeAllEvolves(t1, cs[1..], t');
    }
  }

  lemma {:induction false} ChangedBy(t: Table, cs: seq<Correction>, t': Table, i: int) returns (k: int)
    requires DistinctIds(t) && SupersedeAll(t, cs) == Some(t')
    requires 0 <= i < |t| && t'[i] != t[i]
    ensures Applied(t, t', cs, i, k)
    decreases |cs|
  {
    var t1 := SupersedeOne(t, cs[0]).value;
    var h := SupersedeOneMarks(t, cs[0], t1);
    if i == h {
      SupersedeAllEvolves(t1, cs[1..], t');
      k := 0;
    } else {
      k := ChangedBy(t1, cs[1..], t', i);
      AppliedEarlier(t, cs, t1, t', i, k);
      k := k + 1;
    }
  }

  lemma {:induction false} AppliedTo(t: Table, cs: seq<Correction>, t': Table, k: int) returns (i: int)
    requires DistinctIds(t) && SupersedeAll(t, cs) == Some(t')
    requires 0 <= k < |cs|
    ensures Applied(t, t', cs, i, k)
    decreases |cs|
  {
    var t1 := SupersedeOne(t, cs[0]).value;
    i := SupersedeOneMarks(t, cs[0], t1);
    if k == 0 {
      SupersedeAllEvolves(t1, cs[1..], t');
    } else {
      i := AppliedTo(t1, cs[1..], t', k - 1);
      AppliedEarlier(t, cs, t1, t', i, k - 1);
    }
  }

  lemma {:induction false} CorrectionOrigin(items: seq<Item>, c: Correction) returns (k: int)
    requires c in Corrections(items)
    ensures 0 <= k < |items| && items[k].corrects == Some(c.oldId)
    ensures c.observedAt == items[k].row.key.observedAt && c.newId == items[k].row.id
  {
    var n := |items| - 1;
    if c in Corrections(items[..n]) {
      k := CorrectionOrigin(items[..n], c);
    } else {
      k := n;
    }
  }

  lemma {:induction false} CorrectionListed(items: seq<Item>, k: int)
    requires 0 <= k < |items| && items[k].corrects.Some?
    ensures Correction(items[k].corrects.value, items[k].row.key.observedAt, items[k].row.id) in Corrections(items)
  {
    if k < |items| - 1 {
      CorrectionListed(items[..|items| - 1], k);
    }
  }

  // ---- Between the supersedes and the inserts ------------------------------------------

  /** Row i points to pending row k, which no other pending row can crowd out. */
  ghost predicate Awaits(t: Table, i: int, pending: seq<Observation>, k: int) {
    && 0 <= i < |t| && 0 <= k < |pending|
    && t[i].supersededBy == Some(pending[k].id)
    && t[i].key == pending[k].key
    && pending[k].quality == Corrected
    && (forall j :: i < j < |t| ==> t[j].key != t[i].key)
    && (forall l :: 0 <= l < |pending| && l != k ==> pending[l].key != pending[k].key)
  }

  ghost predicate ChainedBut(t: Table, pending: seq<Observation>) {
    && DistinctIds(t + pending)
    && OneLive(t)
    && (forall k :: 0 <= k < |pending| ==> Live(pending[k]))
    && forall i {:trigger LinkedOrWaiting(t, i, pending)} :: 0 <= i < |t| && !Live(t[i]) ==>
         LinkedOrWaiting(t, i, pending)
  }

  ghost predicate LinkedOrWaiting(t: Table, i: int, pending: seq<Observation>) {
    Linked(t, i) || exists k :: Awaits(t, i, pending, k)
  }

  lemma SkipKeeps(t: Table, pending: seq<Observation>)
    requires pending != [] && ChainedBut(t, pending) && HasLive(t, pending[0].key)
    ensures ChainedBut(t, pending[1..])
  {
    var rest := pending[1..];
    assert DistinctIds(t + rest) by {
      forall i, j | 0 <= i < j < |t + rest| ensures (t + rest)[i].id != (t + rest)[j].id {
        var i', j' := if i < |t| then i else i + 1, if j < |t| then j else j + 1;
        assert (t + pending)[i'].id != (t + pending)[j'].id;
      }
    }
    forall i | 0 <= i < |t| && !Live(t[i])
      ensures LinkedOrWaiting(t, i, rest)
    {
      assert LinkedOrWaiting(t, i, pending);
      if !Linked(t, i) {
        var k :| Awaits(t, i, pending, k);
        assert Awaits(t, i, rest, k - 1);
      }
    }
  }

  lemma AppendKeeps(t: Table, pending: seq<Observation>)
    requires pending != [] && ChainedBut(t, pending) && !HasLive(t, pending[0].key)
    ensures ChainedBut(t + [pending[0]], pending[1..])
  {
    var t', rest := t + [pending[0]], pending[1..];
    assert t' + rest == t + pending;
    forall i | 0 <= i < |t'| && !Live(t'[i])
      ensures LinkedOrWaiting(t', i, rest)
    {
      assert LinkedOrWaiting(t, i, pending);
      if Linked(t, i) {
        var j :| Successor(t, i, j);
        assert Successor(t', i, j);
      } else {
        var k :| Awaits(t, i, pending, k);
        if k == 0 {
          assert Successor(t', i, |t|);
        } else {
          assert Awaits(t', i, rest, k - 1);
        }
      }
    }
  }

  lemma {:induction false} InsertAllKeeps(t: Table, pending: seq<Observation>)
    requires ChainedBut(t, pending)
    ensures Chained(InsertAll(t, pending))
    ensures t <= InsertAll(t, pending)
    decreases |pending|
  {
    if pending == [] {
      assert t + pending == t;
      forall i | 0 <= i < |t| && !Live(t[i]) ensures Linked(t, i) {
        assert LinkedOrWaiting(t, i, pending);
      }
    } else {
      if HasLive(t, pending[0].key) {
        SkipKeeps(t, pending);
      } else {
        AppendKeeps(t, pending);
      }
      InsertAllKeeps(InsertOne(t, pending[0]), pending[1..]);
    }
  }

  lemma SupersedesLeaveAwaiting(t: Table, items: seq<Item>, t': Table)
    requires Chained(t) && PlanOk(t, items)
    requires SupersedeAll(t, Corrections(items)) == Some(t')
    ensures ChainedBut(t', Rows(items))
  {
    var cs, pending := Corrections(items), Rows(items);
    SupersedeAllEvolves(t, cs, t');
    forall i | 0 <= i < |t'| && !Live(t'[i])
      ensures LinkedOrWaiting(t', i, pending)
    {
      if !Live(t[i]) {
        var j := NextRow(t, i);
        assert Successor(t', i, j);
      } else {
        var c := ChangedBy(t, cs, t', i);
        var k := CorrectionOrigin(items, cs[c]);
        AppliedAwaits(t, items, t', i, c, k);
      }
    }
  }

  lemma AppliedAwaits(t: Table, items: seq<Item>, t': Table, i: int, c: int, k: int)
    requires Chained(t) && PlanOk(t, items)
    requires SupersedeAll(t, Corrections(items)) == Some(t')
    requires Applied(t, t', Corrections(items), i, c)
    requires 0 <= k < |items| && items[k].corrects == Some(Corrections(items)[c].oldId)
    requires Corrections(items)[c].newId == items[k].row.id
    ensures Awaits(t', i, Rows(items), k)
  {
    var cs := Corrections(items);
    SupersedeAllEvolves(t, cs, t');
    var h :| Corrects(t, h, items[k]);
    assert h == i;
    forall l | 0 <= l < |items| && items[l].row.key == items[k].row.key
      ensures l == k
    {
      CorrectionListed(items, l);
      var d :| 0 <= d < |cs| && cs[d] == Correction(items[l].corrects.value, items[l].row.key.observedAt, items[l].row.id);
      var g := AppliedTo(t, cs, t', d);
      assert g == i;
    }
  }

  /** Every transaction keeps the chains, with whatever stale read its plan was made from. */
  lemma CommitKeepsChains(t: Table, items: seq<Item>)
    requires Chained(t) && PlanOk(t, items)
    ensures Commit(t, items).Some? ==> Chained(Commit(t, items).value) && Evolves(t, Commit(t, items).value)
  {
    if Commit(t, items).Some? {
      var t' := SupersedeAll(t, Corrections(items)).value;
      SupersedeAllEvolves(t, Corrections(items), t');
      SupersedesLeaveAwaiting(t, items, t');
      InsertAllKeeps(t', Rows(items));
    }
  }

  /** A plan stays good while other transactions commit, as long as its fresh ids stay fresh. */
  lemma PlanSurvives(t: Table, t': Table, items: seq<Item>)
    requires PlanOk(t, items) && Evolves(t, t')
    requires forall i, k :: 0 <= i < |t'| && 0 <= k < |items| ==> t'[i].id != items[k].row.id
    ensures PlanOk(t', items)
  {
    forall k | 0 <= k < |items| && items[k].corrects.Some?
      ensures exists i :: Corrects(t', i, items[k])
    {
      var i :| Corrects(t, i, items[k]);
      assert Corrects(t', i, items[k]);
    }
  }

  // ---- Chains ------------------------------------------------------------------------

  /** Row j is found from row i by following supersession pointers. */
  ghost predicate Reaches(t: Table, i: int, j: int)
    decreases j - i
  {
    i == j || exists m :: i < m <= j && Successor(t, i, m) && Reaches(t, m, j)
  }

  /** All rows of one key lie on one chain, in insertion order. */
  lemma {:induction false} OneChainPerKey(t: Table, i: int, j: int)
    requires Chained(t) && 0 <= i <= j < |t| && t[i].key == t[j].key
    ensures Reaches(t, i, j)
    decreases j - i
  {
    if i < j {
      var m := NextRow(t, i);
      OneChainPerKey(t, m, j);
    }
  }

  /** Every chain ends in a live row of the same key. */
  lemma {:induction false} ChainEnd(t: Table, i: int) returns (j: int)
    requires Chained(t) && 0 <= i < |t|
    ensures i <= j < |t| && t[j].key == t[i].key && Live(t[j]) && Reaches(t, i, j)
    decreases |t| - i
  {
    if Live(t[i]) {
      j := i;
    } else {
      var m := NextRow(t, i);
      j := ChainEnd(t, m);
    }
  }

  // ---- When a transaction aborts -------------------------------------------------------

  /** Fetched rows j and l both correct the live row of the same in-window key. */
  ghost predicate CorrectedTwice(t: Table, w: Window, fetched: seq<Observation>, j: int, l: int) {
    && 0 <= j < l < |fetched|
    && fetched[j].key == fetched[l].key
    && var prior := PriorAt(CurrentInWindow(t, w), fetched[j].key.observedAt);
       && prior.Some?
       && !SameWeather(fetched[j].readings, prior.value.readings)
       && !SameWeather(fetched[l].readings, prior.value.readings)
  }

  lemma {:induction false} SupersedeAllSucceeds(t: Table, cs: seq<Correction>)
    requires DistinctIds(t)
    requires forall c :: c in cs ==> exists i :: 0 <= i < |t| && Hit(t[i], c)
    requires forall k, l :: 0 <= k < l < |cs| ==> cs[k].oldId != cs[l].oldId
    ensures SupersedeAll(t, cs).Some?
    decreases |cs|
  {
    if cs != [] {
      assert cs[0] in cs;
      var t1 := SupersedeOne(t, cs[0]).value;
      var h := SupersedeOneMarks(t, cs[0], t1);
      forall c | c in cs[1..] ensures exists i :: 0 <= i < |t1| && Hit(t1[i], c) {
        var m :| 1 <= m < |cs| && cs[m] == c;
        assert c in cs;
        var i :| 0 <= i < |t| && Hit(t[i], c);
        assert Hit(t1[i], c);
      }
      SupersedeAllSucceeds(t1, cs[1..]);
    }
  }

  lemma {:induction false} CorrectionsDistinct(items: seq<Item>)
    requires forall k, l :: 0 <= k < l < |items| ==> items[k].row.id != items[l].row.id
    ensures var cs := Corrections(items); forall k, l :: 0 <= k < l < |cs| ==> cs[k].newId != cs[l].newId
  {
    if items != [] {
      var n := |items| - 1;
      CorrectionsDistinct(items[..n]);
      var cs := Corrections(items[..n]);
      forall k | 0 <= k < |cs| ensures cs[k].newId != items[n].row.id {
        var a := CorrectionOrigin(items[..n], cs[k]);
      }
    }
  }

  lemma PlanCorrectionOrigin(t: Table, w: Window, fetched: seq<Observation>, c: Correction) returns (j: int)
    requires Chained(t) && Fetched(t, w, fetched) && c in Corrections(Plan(t, w, fetched))
    ensures 0 <= j < |fetched| && fetched[j].id == c.newId && fetched[j].key.observedAt == c.observedAt
    ensures var prior := PriorAt(CurrentInWindow(t, w), fetched[j].key.observedAt);
            && prior.Some? && prior.value.id == c.oldId && prior.value in t
            && prior.value.key == fetched[j].key && Hit(prior.value, c)
            && !SameWeather(fetched[j].readings, prior.value.readings)
  {
    var items := Plan(t, w, fetched);
    var k := CorrectionOrigin(items, c);
    j := PlanOrigin(CurrentInWindow(t, w), fetched, items[k]);
    PriorIsLiveRow(t, w, fetched[j]);
  }

  lemma TwoCorrectionsTwice(t: Table, w: Window, fetched: seq<Observation>, k: int, l: int)
    requires Chained(t) && Fetched(t, w, fetched)
    requires 0 <= k < l < |Corrections(Plan(t, w, fetched))|
    requires Corrections(Plan(t, w, fetched))[k].oldId == Corrections(Plan(t, w, fetched))[l].oldId
    ensures exists a, b :: CorrectedTwice(t, w, fetched, a, b)
  {
    var cs := Corrections(Plan(t, w, fetched));
    PlanIsOk(t, w, fetched);
    CorrectionsDistinct(Plan(t, w, fetched));
    var a := PlanCorrectionOrigin(t, w, fetched, cs[k]);
    var b := PlanCorrectionOrigin(t, w, fetched, cs[l]);
    var current := CurrentInWindow(t, w);
    var pa, pb := PriorAt(current, fetched[a].key.observedAt).value, PriorAt(current, fetched[b].key.observedAt).value;
    assert pa == pb;
    if a < b {
      assert CorrectedTwice(t, w, fetched, a, b);
    } else {
      assert CorrectedTwice(t, w, fetched, b, a);
    }
  }

  lemma TwiceAborts(t: Table, w: Window, fetched: seq<Observation>, j: int, l: int)
    requires Chained(t) && Fetched(t, w, fetched) && CorrectedTwice(t, w, fetched, j, l)
    ensures Commit(t, Plan(t, w, fetched)).None?
  {
    var current, items := CurrentInWindow(t, w), Plan(t, w, fetched);
    var cs := Corrections(items);
    var prior := PriorAt(current, fetched[j].key.observedAt).value;
    var c := Correction(prior.id, fetched[j].key.observedAt, fetched[j].id);
    var d := Correction(prior.id, fetched[l].key.observedAt, fetched[l].id);
    PlanComplete(current, fetched, j);
    PlanComplete(current, fetched, l);
    var a :| 0 <= a < |items| && items[a] == ItemFor(current, fetched[j])[0];
    var b :| 0 <= b < |items| && items[b] == ItemFor(current, fetched[l])[0];
    CorrectionListed(items, a);
    CorrectionListed(items, b);
    if SupersedeAll(t, cs).Some? {
      var t' := SupersedeAll(t, cs).value;
      var k :| 0 <= k < |cs| && cs[k] == c;
      var m :| 0 <= m < |cs| && cs[m] == d;
      var x := AppliedTo(t, cs, t', k);
      var y := AppliedTo(t, cs, t', m);
      assert false;
    }
  }

  /** The exact abort condition: one response corrects the same in-window live row twice. */
  lemma AbortsExactlyWhenCorrectedTwice(t: Table, w: Window, fetched: seq<Observation>)
    requires Chained(t) && Fetched(t, w, fetched)
    ensures Commit(t, Plan(t, w, fetched)).None? <==> exists j, l :: CorrectedTwice(t, w, fetched, j, l)
  {
    if j, l :| CorrectedTwice(t, w, fetched, j, l) {
      TwiceAborts(t, w, fetched, j, l);
    } else {
      var cs := Corrections(Plan(t, w, fetched));
      forall k, l | 0 <= k < l < |cs| ensures cs[k].oldId != cs[l].oldId {
        if cs[k].oldId == cs[l].oldId {
          TwoCorrectionsTwice(t, w, fetched, k, l);
          assert false;
        }
      }
      forall c | c in cs ensures exists i :: 0 <= i < |t| && Hit(t[i], c) {
        var j := PlanCorrectionOrigin(t, w, fetched, c);
      }
      SupersedeAllSucceeds(t, cs);
    }
  }

  /** A row of one station and hour with a temperature alone, for examples. */
  function ExampleRow(id: ObservationId, temperature: real): Observation {
    Observation(id, Key("station", 1, 0), Station, Readings(Some(temperature), None, None, None, None, None), Valid, None)
  }

  /** One stored hour, and a response that gives it twice, each time off by more than the tolerance. */
  ghost predicate GivenTwice(t: Table, w: Window, fetched: seq<Observation>) {
    && |t| == 1 && Live(t[0]) && InWindow(w, t[0].key) && |fetched| == 2 && Fetched(t, w, fetched)
    && forall j :: 0 <= j < 2 ==> fetched[j].key == t[0].key && !SameWeather(fetched[j].readings, t[0].readings)
  }

  lemma GivenTwiceAborts(t: Table, w: Window, fetched: seq<Observation>)
    requires GivenTwice(t, w, fetched)
    ensures Chained(t) && Commit(t, Plan(t, w, fetched)).None?
  {
    PriorIsLiveRow(t, w, fetched[0]);
    assert CorrectedTwice(t, w, fetched, 0, 1);
    AbortsExactlyWhenCorrectedTwice(t, w, fetched);
  }

  /** Such a table and response: 10 degrees stored, 12 and 13 fetched for the same hour. */
  lemma SameHourTwiceAborts() returns (t: Table, w: Window, fetched: seq<Observation>)
    ensures t == [ExampleRow(1, 10.0)] && w == Window("station", 1, 0, 0)
    ensures fetched == [ExampleRow(2, 12.0), ExampleRow(3, 13.0)]
    ensures Chained(t) && Fetched(t, w, fetched) && Commit(t, Plan(t, w, fetched)).None?
  {
    t, w := [ExampleRow(1, 10.0)], Window("station", 1, 0, 0);
    fetched := [ExampleRow(2, 12.0), ExampleRow(3, 13.0)];
    assert GivenTwice(t, w, fetched);
    GivenTwiceAborts(t, w, fetched);
  }

  // ---- What a commit leaves behind -----------------------------------------------------

  lemma {:induction false} InsertAllGrows(t: Table, rows: seq<Observation>)
    ensures t <= InsertAll(t, rows)
    decreases |rows|
  {
    if rows != [] {
      InsertAllGrows(InsertOne(t, rows[0]), rows[1..]);
    }
  }

  lemma {:induction false} InsertedFrom(t: Table, rows: seq<Observation>, i: int)
    requires |t| <= i < |InsertAll(t, rows)|
    ensures InsertAll(t, rows)[i] in rows
    decreases |rows|
  {
    var t1 := InsertOne(t, rows[0]);
    InsertAllGrows(t1, rows[1..]);
    if i >= |t1| {
      InsertedFrom(t1, rows[1..], i);
    }
  }

  lemma {:induction false} InsertAllHasLive(t: Table, rows: seq<Observation>, k: int)
    requires 0 <= k < |rows| && Live(rows[k])
    ensures HasLive(InsertAll(t, rows), rows[k].key)
    decreases |rows|
  {
    var t1 := InsertOne(t, rows[0]);
    if k == 0 {
      InsertAllGrows(t1, rows[1..]);
      assert HasLive(t1, rows[0].key) by {
        if !HasLive(t, rows[0].key) {
          assert t1[|t|] == rows[0];
        }
      }
      var i :| 0 <= i < |t1| && t1[i].key == rows[0].key && Live(t1[i]);
      assert InsertAll(t1, rows[1..])[i] == t1[i];
    } else {
      InsertAllHasLive(t1, rows[1..], k - 1);
    }
  }

  ghost predicate DistinctHours(fetched: seq<Observation>) {
    forall j, l :: 0 <= j < l < |fetched| ==> fetched[j].key.observedAt != fetched[l].key.observedAt
  }

  ghost predicate UpToDate(t: Table, o: Observation) {
    exists i :: 0 <= i < |t| && t[i].key == o.key && Live(t[i]) && SameWeather(o.readings, t[i].readings)
  }

  /** A fetched row that was planned, and whose key no live row holds any more, is the new live row. */
  lemma PlannedRowLands(t: Table, items: seq<Item>, k: int)
    requires 0 <= k < |items| && Live(items[k].row)
    requires !HasLive(t, items[k].row.key)
    requires forall l :: 0 <= l < |items| && items[l].row.key == items[k].row.key ==> l == k
    ensures items[k].row in InsertAll(t, Rows(items))
  {
    var t', rows := InsertAll(t, Rows(items)), Rows(items);
    InsertAllHasLive(t, rows, k);
    InsertAllGrows(t, rows);
    var i :| 0 <= i < |t'| && t'[i].key == items[k].row.key && Live(t'[i]);
    assert i >= |t|;
    InsertedFrom(t, rows, i);
    var l :| 0 <= l < |rows| && rows[l] == t'[i];
    assert l == k;
  }

  lemma PlanHoursDistinct(t: Table, w: Window, fetched: seq<Observation>, j: int, k: int, l: int)
    requires Chained(t) && Fetched(t, w, fetched) && DistinctHours(fetched)
    requires 0 <= j < |fetched|
    requires 0 <= k < |Plan(t, w, fetched)| && 0 <= l < |Plan(t, w, fetched)|
    requires ItemFor(CurrentInWindow(t, w), fetched[j]) == [Plan(t, w, fetched)[k]]
    requires Plan(t, w, fetched)[l].row.key == Plan(t, w, fetched)[k].row.key
    ensures l == k
  {
    var current, items := CurrentInWindow(t, w), Plan(t, w, fetched);
    PlanIsOk(t, w, fetched);
    var m := PlanOrigin(current, fetched, items[l]);
    assert m == j;
  }

  lemma CorrectedRowFalls(t: Table, items: seq<Item>, k: int, t': Table, x: int)
    requires Chained(t) && PlanOk(t, items) && SupersedeAll(t, Corrections(items)) == Some(t')
    requires 0 <= k < |items| && items[k].corrects.Some?
    requires 0 <= x < |t| && t[x].key == items[k].row.key && Live(t[x])
    ensures !Live(t'[x])
  {
    CorrectionListed(items, k);
    var cs := Corrections(items);
    var m :| 0 <= m < |cs| && cs[m] == Correction(items[k].corrects.value, items[k].row.key.observedAt, items[k].row.id);
    var y := AppliedTo(t, cs, t', m);
    var i :| Corrects(t, i, items[k]);
    assert i == y == x;
  }

  /** A correction that commits makes its own row the live one. */
  lemma CorrectionLands(t: Table, items: seq<Item>, k: int)
    requires Chained(t) && PlanOk(t, items) && Commit(t, items).Some?
    requires 0 <= k < |items| && items[k].corrects.Some?
    requires forall l :: 0 <= l < |items| && items[l].row.key == items[k].row.key ==> l == k
    ensures items[k].row in Commit(t, items).value
  {
    var t1 := SupersedeAll(t, Corrections(items)).value;
    SupersedeAllEvolves(t, Corrections(items), t1);
    forall x | 0 <= x < |t1| && t1[x].key == items[k].row.key ensures !Live(t1[x]) {
      if Live(t[x]) {
        CorrectedRowFalls(t, items, k, t1, x);
      }
    }
    PlannedRowLands(t1, items, k);
  }

  /** A new hour that no live row holds at the commit gets its planned row. */
  lemma NewHourLands(t: Table, items: seq<Item>, k: int)
    requires Chained(t) && PlanOk(t, items) && Commit(t, items).Some?
    requires 0 <= k < |items| && !HasLive(t, items[k].row.key)
    requires forall l :: 0 <= l < |items| && items[l].row.key == items[k].row.key ==> l == k
    ensures items[k].row in Commit(t, items).value
  {
    var t1 := SupersedeAll(t, Corrections(items)).value;
    SupersedeAllEvolves(t, Corrections(items), t1);
    PlannedRowLands(t1, items, k);
  }

  /** A row that no correction is planned for stays as it is. */
  lemma UncorrectedStays(t: Table, items: seq<Item>, i: int)
    requires Chained(t) && PlanOk(t, items) && Commit(t, items).Some? && 0 <= i < |t|
    requires forall k :: 0 <= k < |items| && items[k].row.key == t[i].key ==> items[k].corrects.None?
    ensures i < |Commit(t, items).value| && Commit(t, items).value[i] == t[i]
  {
    var cs := Corrections(items);
    var t1 := SupersedeAll(t, cs).value;
    SupersedeAllEvolves(t, cs, t1);
    InsertAllGrows(t1, Rows(items));
    if t1[i] != t[i] {
      var m := ChangedBy(t, cs, t1, i);
      var k := CorrectionOrigin(items, cs[m]);
      assert false;
    }
  }

  ghost predicate LiveRowsAgree(t: Table, o: Observation) {
    forall i :: 0 <= i < |t| && t[i].key == o.key && Live(t[i]) ==> SameWeather(o.readings, t[i].readings)
  }

  /** The read saw a live row of this key that the fetched row corrects. */
  predicate PlansCorrection(t: Table, w: Window, o: Observation) {
    var prior := PriorAt(CurrentInWindow(t, w), o.key.observedAt);
    prior.Some? && !SameWeather(o.readings, prior.value.readings)
  }

  /** What the table holds of a key after a commit whose plan does not correct it. */
  lemma UncorrectedAgrees(t: Table, items: seq<Item>, o: Observation)
    requires Chained(t) && PlanOk(t, items) && Commit(t, items).Some? && HasLive(t, o.key)
    requires forall k :: 0 <= k < |items| && items[k].row.key == o.key ==> items[k].corrects.None?
    ensures UpToDate(Commit(t, items).value, o) <==> LiveRowsAgree(t, o)
  {
    var t' := Commit(t, items).value;
    CommitKeepsChains(t, items);
    var i :| 0 <= i < |t| && t[i].key == o.key && Live(t[i]);
    UncorrectedStays(t, items, i);
    assert t'[i] == t[i];
    assert forall x :: 0 <= x < |t'| && t'[x].key == o.key && Live(t'[x]) ==> x == i;
    assert forall x :: 0 <= x < |t| && t[x].key == o.key && Live(t[x]) ==> x == i;
  }

  lemma LandedIsUpToDate(t: Table, o: Observation, row: Observation)
    requires row in t && row.key == o.key && row.readings == o.readings && Live(row)
    ensures UpToDate(t, o)
  {
    SelfAgrees(o.readings);
    var i :| 0 <= i < |t| && t[i] == row;
  }

  /** However stale its read, a commit that succeeds leaves the live row of a fetched in-window hour
      within tolerance of what was fetched if and only if the read planned a correction of that hour
      or the live row it meets at the commit, if there is one, already agrees. */
  lemma StaleCommitIsUpToDateExactlyWhen(read: Table, t: Table, w: Window, fetched: seq<Observation>, j: int)
    requires Chained(read) && Fetched(read, w, fetched) && DistinctHours(fetched)
    requires Chained(t) && Evolves(read, t) && Fetched(t, w, fetched)
    requires 0 <= j < |fetched| && InWindow(w, fetched[j].key) && Commit(t, Plan(read, w, fetched)).Some?
    ensures UpToDate(Commit(t, Plan(read, w, fetched)).value, fetched[j]) <==>
            PlansCorrection(read, w, fetched[j]) || LiveRowsAgree(t, fetched[j])
  {
    var current, items, o := CurrentInWindow(read, w), Plan(read, w, fetched), fetched[j];
    PlanIsOk(read, w, fetched);
    PlanStaysFresh(read, t, w, fetched);
    PlanSurvives(read, t, items);
    PriorIsLiveRow(read, w, o);
    if ItemFor(current, o) == [] {
      LiveSurvives(read, t, o.key);
      NoItemOfKey(read, w, fetched, j);
      UncorrectedAgrees(t, items, o);
    } else {
      PlanComplete(current, fetched, j);
      var k :| 0 <= k < |items| && items[k] == ItemFor(current, o)[0];
      forall l | 0 <= l < |items| && items[l].row.key == items[k].row.key ensures l == k {
        PlanHoursDistinct(read, w, fetched, j, k, l);
      }
      if items[k].corrects.Some? {
        CorrectionLands(t, items, k);
        LandedIsUpToDate(Commit(t, items).value, o, items[k].row);
      } else if HasLive(t, o.key) {
        UncorrectedAgrees(t, items, o);
      } else {
        NewHourLands(t, items, k);
        LandedIsUpToDate(Commit(t, items).value, o, items[k].row);
      }
    }
  }

  lemma PlanStaysFresh(read: Table, t: Table, w: Window, fetched: seq<Observation>)
    requires Fetched(t, w, fetched)
    ensures var items := Plan(read, w, fetched);
            forall i, k :: 0 <= i < |t| && 0 <= k < |items| ==> t[i].id != items[k].row.id
  {
    var items := Plan(read, w, fetched);
    forall i, k | 0 <= i < |t| && 0 <= k < |items| ensures t[i].id != items[k].row.id {
      var j := PlanOrigin(CurrentInWindow(read, w), fetched, items[k]);
    }
  }

  lemma LiveSurvives(t: Table, t': Table, key: Key)
    requires Chained(t') && Evolves(t, t') && HasLive(t, key)
    ensures HasLive(t', key)
  {
    var i :| 0 <= i < |t| && t[i].key == key && Live(t[i]);
    var j := ChainEnd(t', i);
  }

  lemma NoItemOfKey(t: Table, w: Window, fetched: seq<Observation>, j: int)
    requires Chained(t) && Fetched(t, w, fetched) && DistinctHours(fetched) && 0 <= j < |fetched|
    requires ItemFor(CurrentInWindow(t, w), fetched[j]) == []
    ensures forall k :: 0 <= k < |Plan(t, w, fetched)| ==> Plan(t, w, fetched)[k].row.key != fetched[j].key
  {
    forall k | 0 <= k < |Plan(t, w, fetched)| ensures Plan(t, w, fetched)[k].row.key != fetched[j].key {
      var m := PlanOrigin(CurrentInWindow(t, w), fetched, Plan(t, w, fetched)[k]);
    }
  }

  /** After a commit from a fresh read the live row of every fetched in-window hour agrees with what
      was fetched. */
  lemma CommitIsUpToDate(t: Table, w: Window, fetched: seq<Observation>, j: int)
    requires Chained(t) && Fetched(t, w, fetched) && DistinctHours(fetched)
    requires 0 <= j < |fetched| && InWindow(w, fetched[j].key)
    ensures Commit(t, Plan(t, w, fetched)).Some?
    ensures UpToDate(Commit(t, Plan(t, w, fetched)).value, fetched[j])
  {
    AbortsExactlyWhenCorrectedTwice(t, w, fetched);
    assert forall a, b :: !CorrectedTwice(t, w, fetched, a, b);
    PriorIsLiveRow(t, w, fetched[j]);
    StaleCommitIsUpToDateExactlyWhen(t, t, w, fetched, j);
  }

  // ---- What becomes of one fetched hour ------------------------------------------------

  ghost predicate LiveAt(t: Table, key: Key, i: int) {
    0 <= i < |t| && t[i].key == key && t[i].supersededBy == None
  }

  /** The live row says what was fetched: it stays, and its key gets no other row. */
  ghost predicate Kept(t: Table, t': Table, o: Observation, i: int)
    requires 0 <= i < |t| <= |t'|
  {
    t'[i] == t[i] && forall k :: |t| <= k < |t'| ==> t'[k].key != o.key
  }

  /** The live row says something else: it points to a new live row, flagged as a correction, that
      holds what was fetched. */
  ghost predicate Replaced(t: Table, t': Table, o: Observation, i: int)
    requires 0 <= i < |t| <= |t'|
  {
    && t'[i] == t[i].(supersededBy := Some(o.id))
    && Observation(o.id, o.key, o.provenance, o.readings, Corrected, None) in t'[|t|..]
  }

  /** A fetched hour after the commit: what its live row says, and what became of the row before. */
  ghost predicate Settled(t: Table, t': Table, o: Observation) {
    && |t| <= |t'|
    && (exists i :: LiveAt(t', o.key, i) && SameWeather(o.readings, t'[i].readings))
    && (forall i :: LiveAt(t, o.key, i) ==>
          if SameWeather(o.readings, t[i].readings) then Kept(t, t', o, i) else Replaced(t, t', o, i))
    && ((forall i :: !LiveAt(t, o.key, i)) ==> o in t'[|t|..])
  }

  lemma CorrectedRowPoints(t: Table, items: seq<Item>, k: int, x: int)
    requires Chained(t) && PlanOk(t, items) && Commit(t, items).Some?
    requires 0 <= k < |items| && items[k].corrects.Some? && LiveAt(t, items[k].row.key, x)
    requires forall l :: 0 <= l < |items| && items[l].row.key == items[k].row.key ==> l == k
    ensures x < |Commit(t, items).value|
    ensures Commit(t, items).value[x] == t[x].(supersededBy := Some(items[k].row.id))
  {
    var cs := Corrections(items);
    var t1 := SupersedeAll(t, cs).value;
    InsertAllGrows(t1, Rows(items));
    CorrectionListed(items, k);
    var m :| 0 <= m < |cs| && cs[m] == Correction(items[k].corrects.value, items[k].row.key.observedAt, items[k].row.id);
    var y := AppliedTo(t, cs, t1, m);
    var i :| Corrects(t, i, items[k]);
    assert i == y == x;
  }

  lemma NewRow(t: Table, t': Table, row: Observation)
    requires DistinctIds(t') && Evolves(t, t') && row in t' && forall i :: 0 <= i < |t| ==> t[i].id != row.id
    ensures row in t'[|t|..]
  {
    var i :| 0 <= i < |t'| && t'[i] == row;
    assert i >= |t|;
    assert t'[|t|..][i - |t|] == row;
  }

  lemma NoRowAdded(t: Table, items: seq<Item>, key: Key)
    requires Chained(t) && PlanOk(t, items) && Commit(t, items).Some?
    requires forall k :: 0 <= k < |items| ==> items[k].row.key != key
    ensures forall k :: |t| <= k < |Commit(t, items).value| ==> Commit(t, items).value[k].key != key
  {
    var t1 := SupersedeAll(t, Corrections(items)).value;
    forall k | |t| <= k < |Commit(t, items).value| ensures Commit(t, items).value[k].key != key {
      InsertedFrom(t1, Rows(items), k);
      var l :| 0 <= l < |items| && Rows(items)[l] == Commit(t, items).value[k];
    }
  }

  lemma QuietHourKept(t: Table, w: Window, fetched: seq<Observation>, j: int, i: int)
    requires Chained(t) && Fetched(t, w, fetched) && DistinctHours(fetched) && 0 <= j < |fetched|
    requires Commit(t, Plan(t, w, fetched)).Some? && LiveAt(t, fetched[j].key, i)
    requires ItemFor(CurrentInWindow(t, w), fetched[j]) == []
    ensures |t| <= |Commit(t, Plan(t, w, fetched)).value| && Kept(t, Commit(t, Plan(t, w, fetched)).value, fetched[j], i)
  {
    var items := Plan(t, w, fetched);
    PlanIsOk(t, w, fetched);
    NoItemOfKey(t, w, fetched, j);
    UncorrectedStays(t, items, i);
    NoRowAdded(t, items, fetched[j].key);
    CommitKeepsChains(t, items);
  }

  lemma PlannedHour(t: Table, w: Window, fetched: seq<Observation>, j: int) returns (k: int)
    requires Chained(t) && Fetched(t, w, fetched) && DistinctHours(fetched) && 0 <= j < |fetched|
    requires ItemFor(CurrentInWindow(t, w), fetched[j]) != []
    ensures 0 <= k < |Plan(t, w, fetched)| && [Plan(t, w, fetched)[k]] == ItemFor(CurrentInWindow(t, w), fetched[j])
    ensures var items := Plan(t, w, fetched); forall l :: 0 <= l < |items| && items[l].row.key == items[k].row.key ==> l == k
  {
    var current, items := CurrentInWindow(t, w), Plan(t, w, fetched);
    PlanComplete(current, fetched, j);
    k :| 0 <= k < |items| && items[k] == ItemFor(current, fetched[j])[0];
    forall l | 0 <= l < |items| && items[l].row.key == items[k].row.key ensures l == k {
      PlanHoursDistinct(t, w, fetched, j, k, l);
    }
  }

  lemma CorrectedHourReplaced(t: Table, w: Window, fetched: seq<Observation>, j: int, i: int)
    requires Chained(t) && Fetched(t, w, fetched) && DistinctHours(fetched) && 0 <= j < |fetched|
    requires Commit(t, Plan(t, w, fetched)).Some? && LiveAt(t, fetched[j].key, i)
    requires InWindow(w, fetched[j].key) && ItemFor(CurrentInWindow(t, w), fetched[j]) != []
    ensures |t| <= |Commit(t, Plan(t, w, fetched)).value| && Replaced(t, Commit(t, Plan(t, w, fetched)).value, fetched[j], i)
  {
    var items := Plan(t, w, fetched);
    var t' := Commit(t, items).value;
    PlanIsOk(t, w, fetched);
    PriorIsLiveRow(t, w, fetched[j]);
    var k := PlannedHour(t, w, fetched, j);
    CorrectedRowPoints(t, items, k, i);
    CorrectionLands(t, items, k);
    CommitKeepsChains(t, items);
    NewRow(t, t', items[k].row);
  }

  lemma NewHourAdded(t: Table, w: Window, fetched: seq<Observation>, j: int)
    requires Chained(t) && Fetched(t, w, fetched) && DistinctHours(fetched) && 0 <= j < |fetched|
    requires Commit(t, Plan(t, w, fetched)).Some? && forall i :: !LiveAt(t, fetched[j].key, i)
    ensures |t| <= |Commit(t, Plan(t, w, fetched)).value| && fetched[j] in Commit(t, Plan(t, w, fetched)).value[|t|..]
  {
    var items := Plan(t, w, fetched);
    var t' := Commit(t, items).value;
    assert !HasLive(t, fetched[j].key) by {
      if i :| 0 <= i < |t| && t[i].key == fetched[j].key && Live(t[i]) {
        assert LiveAt(t, fetched[j].key, i);
      }
    }
    PlanIsOk(t, w, fetched);
    PriorIsLiveRow(t, w, fetched[j]);
    var k := PlannedHour(t, w, fetched, j);
    NewHourLands(t, items, k);
    CommitKeepsChains(t, items);
    NewRow(t, t', items[k].row);
  }

  /** After a commit from a fresh read, every fetched in-window hour has a live row with the same
      readings known and none off by more than its tolerance.  A row that already said so stays as it
      is and alone; any other is superseded by the fetched row, flagged as a correction; an hour
      without a live row gets the fetched row as it came. */
  lemma FetchedHourSettles(t: Table, w: Window, fetched: seq<Observation>, j: int)
    requires Chained(t) && Fetched(t, w, fetched) && DistinctHours(fetched)
    requires 0 <= j < |fetched| && w.start <= fetched[j].key.observedAt <= w.end
    ensures Commit(t, Plan(t, w, fetched)).Some?
    ensures Settled(t, Commit(t, Plan(t, w, fetched)).value, fetched[j])
  {
    CommitIsUpToDate(t, w, fetched, j);
    var o, items := fetched[j], Plan(t, w, fetched);
    var t' := Commit(t, items).value;
    PlanIsOk(t, w, fetched);
    CommitKeepsChains(t, items);
    var x :| 0 <= x < |t'| && t'[x].key == o.key && Live(t'[x]) && SameWeather(o.readings, t'[x].readings);
    assert LiveAt(t', o.key, x);
    forall i | LiveAt(t, o.key, i)
      ensures if SameWeather(o.readings, t[i].readings) then Kept(t, t', o, i) else Replaced(t, t', o, i)
    {
      HourItem(t, w, o, i);
      if SameWeather(o.readings, t[i].readings) {
        QuietHourKept(t, w, fetched, j, i);
      } else {
        CorrectedHourReplaced(t, w, fetched, j, i);
      }
    }
    if forall i :: !LiveAt(t, o.key, i) {
      NewHourAdded(t, w, fetched, j);
    }
  }

  /** Every fetched hour from the start to the end of the window, both included, is settled. */
  ghost predicate HoursSettled(t: Table, t': Table, w: Window, fetched: seq<Observation>) {
    forall j :: 0 <= j < |fetched| && w.start <= fetched[j].key.observedAt <= w.end ==> Settled(t, t', fetched[j])
  }

  lemma FetchedHoursSettle(t: Table, w: Window, fetched: seq<Observation>)
    requires Chained(t) && Fetched(t, w, fetched)
    ensures Commit(t, Plan(t, w, fetched)).Some? ==> OnlyFetchedTouched(t, Commit(t, Plan(t, w, fetched)).value, fetched)
    ensures DistinctHours(fetched) ==> Commit(t, Plan(t, w, fetched)).Some?
    ensures DistinctHours(fetched) ==> HoursSettled(t, Commit(t, Plan(t, w, fetched)).value, w, fetched)
  {
    if Commit(t, Plan(t, w, fetched)).Some? {
      OthersUntouched(t, w, fetched);
    }
    if DistinctHours(fetched) {
      AbortsExactlyWhenCorrectedTwice(t, w, fetched);
      forall j | 0 <= j < |fetched| && w.start <= fetched[j].key.observedAt <= w.end
        ensures Settled(t, Commit(t, Plan(t, w, fetched)).value, fetched[j])
      {
        FetchedHourSettles(t, w, fetched, j);
      }
    }
  }

  lemma HourItem(t: Table, w: Window, o: Observation, i: int)
    requires Chained(t) && InWindow(w, o.key) && LiveAt(t, o.key, i)
    ensures ItemFor(CurrentInWindow(t, w), o) == [] <==> SameWeather(o.readings, t[i].readings)
  {
    assert HasLive(t, o.key);
    PriorIsLiveRow(t, w, o);
    var prior := PriorAt(CurrentInWindow(t, w), o.key.observedAt).value;
    var x :| 0 <= x < |t| && t[x] == prior;
    assert x == i;
  }

  /** Rows of keys that were not fetched stay, and every new row is a fetched one. */
  ghost predicate OnlyFetchedTouched(t: Table, t': Table, fetched: seq<Observation>) {
    && |t| <= |t'|
    && (forall i :: 0 <= i < |t| && Unfetched(t[i].key, fetched) ==> t'[i] == t[i])
    && (forall k :: |t| <= k < |t'| ==> ComesFrom(t'[k], fetched))
  }

  ghost predicate Unfetched(key: Key, fetched: seq<Observation>) {
    forall j :: 0 <= j < |fetched| ==> fetched[j].key != key
  }

  ghost predicate ComesFrom(row: Observation, fetched: seq<Observation>) {
    exists j :: 0 <= j < |fetched| && row == fetched[j].(quality := row.quality)
  }

  lemma UnfetchedStays(t: Table, w: Window, fetched: seq<Observation>, i: int)
    requires Chained(t) && Fetched(t, w, fetched) && Commit(t, Plan(t, w, fetched)).Some?
    requires 0 <= i < |t| && Unfetched(t[i].key, fetched)
    ensures i < |Commit(t, Plan(t, w, fetched)).value| && Commit(t, Plan(t, w, fetched)).value[i] == t[i]
  {
    var items := Plan(t, w, fetched);
    PlanIsOk(t, w, fetched);
    forall k | 0 <= k < |items| ensures items[k].row.key != t[i].key {
      var j := PlanOrigin(CurrentInWindow(t, w), fetched, items[k]);
    }
    UncorrectedStays(t, items, i);
  }

  lemma AddedWasFetched(t: Table, w: Window, fetched: seq<Observation>, k: int)
    requires Commit(t, Plan(t, w, fetched)).Some? && |t| <= k < |Commit(t, Plan(t, w, fetched)).value|
    ensures ComesFrom(Commit(t, Plan(t, w, fetched)).value[k], fetched)
  {
    var items := Plan(t, w, fetched);
    InsertedFrom(SupersedeAll(t, Corrections(items)).value, Rows(items), k);
    var l :| 0 <= l < |items| && Rows(items)[l] == Commit(t, items).value[k];
    PlannedWasFetched(CurrentInWindow(t, w), fetched, items[l]);
  }

  lemma PlannedWasFetched(current: seq<Observation>, fetched: seq<Observation>, item: Item)
    requires item in PlanFor(current, fetched)
    ensures ComesFrom(item.row, fetched)
  {
    var j := PlanOrigin(current, fetched, item);
  }

  lemma OthersUntouched(t: Table, w: Window, fetched: seq<Observation>)
    requires Chained(t) && Fetched(t, w, fetched) && Commit(t, Plan(t, w, fetched)).Some?
    ensures OnlyFetchedTouched(t, Commit(t, Plan(t, w, fetched)).value, fetched)
  {
    var t' := Commit(t, Plan(t, w, fetched)).value;
    PlanIsOk(t, w, fetched);
    CommitKeepsChains(t, Plan(t, w, fetched));
    forall i | 0 <= i < |t| && Unfetched(t[i].key, fetched) ensures t'[i] == t[i] {
      UnfetchedStays(t, w, fetched, i);
    }
    forall k | |t| <= k < |t'| ensures ComesFrom(t'[k], fetched) {
      AddedWasFetched(t, w, fetched, k);
    }
  }

  lemma SelfAgrees(r: Readings)
    ensures SameWeather(r, r) && !DiffersFrom(r, r)
  {
  }

  // ---- Re-observing --------------------------------------------------------------------

  lemma {:induction false} NothingToWrite(t: Table, current: seq<Observation>, fetched: seq<Observation>)
    requires forall j :: 0 <= j < |fetched| ==> QuietItem(t, current, fetched[j])
    ensures Corrections(PlanFor(current, fetched)) == []
    ensures forall k :: 0 <= k < |PlanFor(current, fetched)| ==> HasLive(t, PlanFor(current, fetched)[k].row.key)
  {
    if fetched != [] {
      var n := |fetched| - 1;
      var front := PlanFor(current, fetched[..n]);
      NothingToWrite(t, current, fetched[..n]);
      assert QuietItem(t, current, fetched[n]);
      var items := PlanFor(current, fetched);
      if ItemFor(current, fetched[n]) == [] {
        assert items == front;
      } else {
        assert items[..|items| - 1] == front;
      }
    }
  }

  ghost predicate QuietItem(t: Table, current: seq<Observation>, o: Observation) {
    || ItemFor(current, o) == []
    || (ItemFor(current, o) == [Item(o, None)] && HasLive(t, o.key))
  }

  lemma {:induction false} InsertAllIdle(t: Table, rows: seq<Observation>)
    requires forall k :: 0 <= k < |rows| ==> HasLive(t, rows[k].key)
    ensures InsertAll(t, rows) == t
    decreases |rows|
  {
    if rows != [] {
      InsertAllIdle(t, rows[1..]);
    }
  }

  /** The same hours and values fetched again, under fresh ids. */
  ghost predicate SameData(a: seq<Observation>, b: seq<Observation>) {
    |a| == |b| && forall j :: 0 <= j < |a| ==> a[j].key == b[j].key && a[j].readings == b[j].readings
  }

  lemma ReobserveIsQuiet(t: Table, w: Window, fetched: seq<Observation>, again: seq<Observation>, j: int)
    requires Chained(t) && Fetched(t, w, fetched) && DistinctHours(fetched)
    requires Commit(t, Plan(t, w, fetched)).Some?
    requires Fetched(Commit(t, Plan(t, w, fetched)).value, w, again) && SameData(fetched, again)
    requires 0 <= j < |again|
    ensures var t' := Commit(t, Plan(t, w, fetched)).value;
            QuietItem(t', CurrentInWindow(t', w), again[j])
  {
    var items := Plan(t, w, fetched);
    var t' := Commit(t, items).value;
    PlanIsOk(t, w, fetched);
    CommitKeepsChains(t, items);
    PriorIsLiveRow(t', w, again[j]);
    if InWindow(w, again[j].key) {
      CommitIsUpToDate(t, w, fetched, j);
      assert UpToDate(t', again[j]);
      assert ItemFor(CurrentInWindow(t', w), again[j]) == [];
    } else {
      PriorIsLiveRow(t, w, fetched[j]);
      PlanComplete(CurrentInWindow(t, w), fetched, j);
      var k :| 0 <= k < |items| && items[k] == ItemFor(CurrentInWindow(t, w), fetched[j])[0];
      InsertAllHasLive(SupersedeAll(t, Corrections(items)).value, Rows(items), k);
    }
  }

  /** Observing the same data again changes nothing. */
  lemma ReobserveStoresNothing(t: Table, w: Window, fetched: seq<Observation>, again: seq<Observation>)
    requires Chained(t) && Fetched(t, w, fetched) && DistinctHours(fetched)
    requires Commit(t, Plan(t, w, fetched)).Some?
    requires Fetched(Commit(t, Plan(t, w, fetched)).value, w, again) && SameData(fetched, again)
    ensures var t' := Commit(t, Plan(t, w, fetched)).value;
            Commit(t', Plan(t', w, again)) == Some(t')
  {
    var t' := Commit(t, Plan(t, w, fetched)).value;
    forall j | 0 <= j < |again| ensures QuietItem(t', CurrentInWindow(t', w), again[j]) {
      ReobserveIsQuiet(t, w, fetched, again, j);
    }
    NothingToWrite(t', CurrentInWindow(t', w), again);
    QuietCommit(t', Plan(t', w, again));
  }

  lemma QuietCommit(t: Table, items: seq<Item>)
    requires Corrections(items) == []
    requires forall k :: 0 <= k < |items| ==> HasLive(t, items[k].row.key)
    ensures Commit(t, items) == Some(t)
  {
    InsertAllIdle(t, Rows(items));
  }

  // ---- The service ---------------------------------------------------------------------

  datatype ObserveError = Inactive | FetchFailed | NothingSuperseded

  datatype ObserveResult = Stored(count: nat) | Rejected(error: ObserveError)

  class ObservationStore {
    var rows: Table

    constructor ()
      ensures rows == [] && Chained(rows)
    {
      rows := [];
    }

    /** The guarded update behind a correction: the live row of that id and hour gets its pointer, and
        nothing else of it or of any other row changes; false when there is no such row. */
    method Supersede(c: Correction) returns (ok: bool)
      modifies this
      ensures |rows| == |old(rows)|
      ensures forall i :: 0 <= i < |rows| ==> rows[i] == old(rows)[i].(supersededBy := rows[i].supersededBy)
      ensures forall i :: 0 <= i < |rows| && Hit(old(rows)[i], c) ==> rows[i].supersededBy == Some(c.newId)
      ensures forall i :: 0 <= i < |rows| && !Hit(old(rows)[i], c) ==> rows[i] == old(rows)[i]
      ensures ok <==> exists i :: 0 <= i < |rows| && Hit(old(rows)[i], c)
      ensures SupersedeOne(old(rows), c) == if ok then Some(rows) else None
    {
      ok := false;
      var out: Table := [];
      for i := 0 to |rows|
        invariant rows == old(rows) && |out| == i
        invariant forall k :: 0 <= k < i ==> out[k] == Mark(rows[k], c)
        invariant ok <==> exists k :: 0 <= k < i && Hit(rows[k], c)
      {
        var row := rows[i];
        if row.id == c.oldId && row.key.observedAt == c.observedAt && row.supersededBy.None? {
          row := row.(supersededBy := Some(c.newId));
          ok := true;
        }
        out := out + [row];
      }
      assert ok ==> SupersedeOne(rows, c).value == out;
      rows := out;
    }

    /** The correction loop: stops at the first update that touches no row. */
    method SupersedeEach(corrections: seq<Correction>) returns (ok: bool)
      modifies this
      ensures ok <==> SupersedeAll(old(rows), corrections).Some?
      ensures ok ==> rows == SupersedeAll(old(rows), corrections).value
    {
      var i := 0;
      while i < |corrections|
        invariant 0 <= i <= |corrections|
        invariant SupersedeAll(rows, corrections[i..]) == SupersedeAll(old(rows), corrections)
      {
        var hit := Supersede(corrections[i]);
        if !hit {
          return false;
        }
        i := i + 1;
      }
      ok := true;
    }

    method InsertBatch(batch: seq<Observation>) returns (stored: nat)
      modifies this
      ensures rows == InsertAll(old(rows), batch)
      ensures stored == |rows| - |old(rows)|
    {
      stored := 0;
      var i := 0;
      while i < |batch|
        invariant 0 <= i <= |batch|
        invariant InsertAll(rows, batch[i..]) == InsertAll(old(rows), batch)
        invariant stored == |rows| - |old(rows)|
      {
        if !HasLive(rows, batch[i].key) {
          rows := rows + [batch[i]];
          stored := stored + 1;
        }
        i := i + 1;
      }
    }

    /** One observation run: the whole transaction lands, or the table is untouched. */
    method Observe(active: bool, fetchedOk: bool, w: Window, fetched: seq<Observation>)
      returns (r: ObserveResult)
      requires Chained(rows) && Fetched(rows, w, fetched)
      modifies this
      ensures Chained(rows) && Evolves(old(rows), rows)
      ensures !active ==> r == Rejected(Inactive)
      ensures active && !fetchedOk ==> r == Rejected(FetchFailed)
      ensures active && fetchedOk ==>
                match Commit(old(rows), Plan(old(rows), w, fetched))
                case None => r == Rejected(NothingSuperseded)
                case Some(t) => rows == t && r == Stored(|rows| - |old(rows)|)
      ensures r.Rejected? ==> rows == old(rows)
      ensures r.Stored? ==> OnlyFetchedTouched(old(rows), rows, fetched)
      ensures active && fetchedOk && DistinctHours(fetched) ==>
                r.Stored? && HoursSettled(old(rows), rows, w, fetched)
    {
      if !active { return Rejected(Inactive); }
      if !fetchedOk { return Rejected(FetchFailed); }
      var before := rows;
      var current := CurrentInWindow(rows, w);
      var byHour := IndexByHour(current);
      var toInsert, corrections := Classify(current, byHour, fetched);
      PlanIsOk(before, w, fetched);
      CommitKeepsChains(before, Plan(before, w, fetched));
      FetchedHoursSettle(before, w, fetched);
      var ok := SupersedeEach(corrections);
      if !ok {
        rows := before;
        return Rejected(NothingSuperseded);
      }
      var stored := InsertBatch(toInsert);
      r := Stored(stored);
    }
  }

  method IndexByHour(current: seq<Observation>) returns (byHour: map<int, Observation>)
    ensures forall at :: PriorAt(current, at) == if at in byHour then Some(byHour[at]) else None
  {
    byHour := map[];
    var i := 0;
    while i < |current|
      invariant 0 <= i <= |current|
      invariant forall at :: PriorAt(current[..i], at) == if at in byHour then Some(byHour[at]) else None
    {
      assert current[..i + 1][..i] == current[..i];
      byHour := byHour[current[i].key.observedAt := current[i]];
      i := i + 1;
    }
    assert current[..i] == current;
  }

  /** New hours and genuine corrections go in; values within epsilon of the live row do not. */
  method Classify(ghost current: seq<Observation>, byHour: map<int, Observation>, fetched: seq<Observation>)
    returns (toInsert: seq<Observation>, corrections: seq<Correction>)
    requires forall at :: PriorAt(current, at) == if at in byHour then Some(byHour[at]) else None
    ensures toInsert == Rows(PlanFor(current, fetched))
    ensures corrections == Corrections(PlanFor(current, fetched))
  {
    toInsert, corrections := [], [];
    ghost var items: seq<Item> := [];
    var i := 0;
    while i < |fetched|
      invariant 0 <= i <= |fetched|
      invariant items == PlanFor(current, fetched[..i])
      invariant toInsert == Rows(items) && corrections == Corrections(items)
    {
      var o := fetched[i];
      assert fetched[..i + 1][..i] == fetched[..i];
      if o.key.observedAt !in byHour {
        toInsert := toInsert + [o];
        items := AppendItem(items, Item(o, None));
      } else {
        var prev := byHour[o.key.observedAt];
        DiffersExactly(o.readings, prev.readings);
        if DiffersFrom(o.readings, prev.readings) {
          var corrected := o.(quality := Corrected);
          corrections := corrections + [Correction(prev.id, o.key.observedAt, o.id)];
          toInsert := toInsert + [corrected];
          items := AppendItem(items, Item(corrected, Some(prev.id)));
        }
      }
      i := i + 1;
    }
    assert fetched[..i] == fetched;
  }

  ghost function AppendItem(items: seq<Item>, item: Item): (r: seq<Item>)
    ensures r == items + [item]
    ensures Rows(r) == Rows(items) + [item.row]
    ensures Corrections(r) == Corrections(items) +
              if item.corrects.Some? then [Correction(item.corrects.value, item.row.key.observedAt, item.row.id)] else []
  {
    assert (items + [item])[..|items|] == items;
    items + [item]
  }
}
