/** Append-only publication with supersession, as used for metric rows and for ranking rows.

    A batch is inserted live and then each of its rows supersedes every other live row of the same
    key. Rows are kept in insertion order; the only update sets `supersededBy`. */
module Publication {
  import opened Options

  datatype Row<K, V> = Row(id: nat, key: K, content: V, supersededBy: Option<nat>)

  predicate Live<K, V>(r: Row<K, V>) { r.supersededBy.None? }

  /** The UPDATE of one row: same key, still live, and not the winner itself. */
  function Yield<K(==), V>(r: Row<K, V>, winner: Row<K, V>): Row<K, V> {
    if r.key == winner.key && Live(r) && r.id != winner.id then r.(supersededBy := Some(winner.id)) else r
  }

  function Supersede<K(==), V>(t: seq<Row<K, V>>, winner: Row<K, V>): seq<Row<K, V>> {
    seq(|t|, i requires 0 <= i < |t| => Yield(t[i], winner))
  }

  /** What happens to one row when the batch's rows supersede in turn. */
  function YieldAll<K(==), V>(r: Row<K, V>, batch: seq<Row<K, V>>): Row<K, V> {
    if batch == [] then r else Yield(YieldAll(r, batch[..|batch| - 1]), batch[|batch| - 1])
  }

  /** The table after the whole transaction: insert, then supersede once per inserted row. */
  function Publish<K(==), V>(t: seq<Row<K, V>>, batch: seq<Row<K, V>>): seq<Row<K, V>> {
    seq(|t + batch|, i requires 0 <= i < |t + batch| => YieldAll((t + batch)[i], batch))
  }

  // ---- What one batch does to one row --------------------------------------------------

  /** A row keeps everything but its pointer, and a superseded row never changes again. */
  lemma {:induction false} YieldsOnce<K, V>(r: Row<K, V>, batch: seq<Row<K, V>>)
    ensures YieldAll(r, batch).(supersededBy := r.supersededBy) == r
    ensures !Live(r) ==> YieldAll(r, batch) == r
  {
    if batch != [] {
      YieldsOnce(r, batch[..|batch| - 1]);
    }
  }

  ghost predicate Rival<K, V>(r: Row<K, V>, w: Row<K, V>) {
    w.key == r.key && w.id != r.id
  }

  /** A live row stays live exactly when the batch holds no other row of its key; otherwise the
      first such row supersedes it. */
  lemma {:induction false} YieldsToFirst<K, V>(r: Row<K, V>, batch: seq<Row<K, V>>)
    requires Live(r)
    ensures Live(YieldAll(r, batch)) <==> forall j :: 0 <= j < |batch| ==> !Rival(r, batch[j])
    ensures forall j :: 0 <= j < |batch| && Rival(r, batch[j]) && (forall k :: 0 <= k < j ==> !Rival(r, batch[k])) ==>
                          YieldAll(r, batch) == r.(supersededBy := Some(batch[j].id))
  {
    if batch != [] {
      var n := |batch| - 1;
      YieldsToFirst(r, batch[..n]);
      YieldsOnce(r, batch[..n]);
      assert forall j :: 0 <= j < n ==> batch[..n][j] == batch[j];
    }
  }

  // ---- Batches -------------------------------------------------------------------------

  ghost predicate DistinctIds<K, V>(t: seq<Row<K, V>>) {
    forall i, j :: 0 <= i < j < |t| ==> t[i].id != t[j].id
  }

  ghost predicate DistinctKeys<K, V>(t: seq<Row<K, V>>) {
    forall i, j :: 0 <= i < j < |t| ==> t[i].key != t[j].key
  }

  /** Newly built rows: live, with identifiers that occur nowhere else. */
  ghost predicate NewRows<K, V>(t: seq<Row<K, V>>, batch: seq<Row<K, V>>) {
    DistinctIds(t + batch) && forall i :: 0 <= i < |batch| ==> Live(batch[i])
  }

  ghost predicate LiveAt<K, V>(t: seq<Row<K, V>>, i: int, key: K) {
    0 <= i < |t| && t[i].key == key && Live(t[i])
  }

  /** Exactly one live row of a key. */
  ghost predicate OneLive<K, V>(t: seq<Row<K, V>>, key: K) {
    (exists i :: LiveAt(t, i, key)) && forall i, j :: LiveAt(t, i, key) && LiveAt(t, j, key) ==> i == j
  }

  ghost predicate Writes<K, V>(batch: seq<Row<K, V>>, key: K) {
    exists i :: 0 <= i < |batch| && batch[i].key == key
  }

  ghost predicate WritesOnce<K, V>(batch: seq<Row<K, V>>, key: K) {
    forall i, j :: 0 <= i < j < |batch| && batch[i].key == key ==> batch[j].key != key
  }

  lemma PublishedAt<K, V>(t: seq<Row<K, V>>, batch: seq<Row<K, V>>, i: nat)
    requires i < |t + batch|
    ensures Publish(t, batch)[i] == YieldAll((t + batch)[i], batch)
    ensures Publish(t, batch)[i].key == (t + batch)[i].key
  {
    YieldsOnce((t + batch)[i], batch);
  }

  /** No row of a written key that was in the table before survives. */
  lemma OldRowsYield<K, V>(t: seq<Row<K, V>>, batch: seq<Row<K, V>>, i: nat, key: K)
    requires NewRows(t, batch) && i < |t| && t[i].key == key && Writes(batch, key)
    ensures !LiveAt(Publish(t, batch), i, key)
  {
    PublishedAt(t, batch, i);
    YieldsOnce(t[i], batch);
    var j :| 0 <= j < |batch| && batch[j].key == key;
    assert (t + batch)[|t| + j] == batch[j];
    assert Rival(t[i], batch[j]);
    if Live(t[i]) {
      YieldsToFirst(t[i], batch);
    }
  }

  /** A row of the batch is live afterwards exactly when no other row of the batch has its key. */
  lemma NewRowLiveExactly<K, V>(t: seq<Row<K, V>>, batch: seq<Row<K, V>>, j: nat)
    requires NewRows(t, batch) && j < |batch|
    ensures LiveAt(Publish(t, batch), |t| + j, batch[j].key) <==> WritesOnce(batch, batch[j].key)
    ensures WritesOnce(batch, batch[j].key) ==> Publish(t, batch)[|t| + j] == batch[j]
  {
    var r := batch[j];
    assert (t + batch)[|t| + j] == r;
    PublishedAt(t, batch, |t| + j);
    YieldsToFirst(r, batch);
    YieldsOnce(r, batch);
    forall k | 0 <= k < |batch|
      ensures Rival(r, batch[k]) <==> k != j && batch[k].key == r.key
    {
      assert (t + batch)[|t| + k] == batch[k];
    }
    if !WritesOnce(batch, r.key) {
      var a, b :| 0 <= a < b < |batch| && batch[a].key == r.key && batch[b].key == r.key;
      assert Rival(r, batch[a]) || Rival(r, batch[b]);
    }
  }

  /** Publishing leaves exactly one live row of a written key if and only if the batch writes that
      key once. A batch that writes it twice leaves none: its rows supersede each other. */
  lemma OneLiveExactlyWhen<K, V>(t: seq<Row<K, V>>, batch: seq<Row<K, V>>, key: K)
    requires NewRows(t, batch) && Writes(batch, key)
    ensures OneLive(Publish(t, batch), key) <==> WritesOnce(batch, key)
    ensures !WritesOnce(batch, key) ==> forall i :: !LiveAt(Publish(t, batch), i, key)
  {
    var p := Publish(t, batch);
    forall i | LiveAt(p, i, key)
      ensures i >= |t| && batch[i - |t|].key == key && WritesOnce(batch, key)
    {
      PublishedAt(t, batch, i);
      if i < |t| {
        OldRowsYield(t, batch, i, key);
      } else {
        NewRowLiveExactly(t, batch, i - |t|);
      }
    }
    if WritesOnce(batch, key) {
      var j :| 0 <= j < |batch| && batch[j].key == key;
      NewRowLiveExactly(t, batch, j);
      assert LiveAt(p, |t| + j, key);
    }
  }

  // ---- Runs ----------------------------------------------------------------------------

  ghost predicate PointsTo<K, V>(t: seq<Row<K, V>>, i: int, j: int) {
    0 <= i < j < |t| && t[i].supersededBy == Some(t[j].id) && t[j].key == t[i].key
  }

  /** Pointers lead to later rows of the same key, so following them ends. */
  ghost predicate Chained<K, V>(t: seq<Row<K, V>>) {
    forall i {:trigger t[i].supersededBy} :: 0 <= i < |t| && !Live(t[i]) ==> HasNext(t, i)
  }

  ghost predicate HasNext<K, V>(t: seq<Row<K, V>>, i: int) {
    exists j :: PointsTo(t, i, j)
  }

  ghost predicate Inv<K, V>(t: seq<Row<K, V>>) {
    DistinctIds(t) && Chained(t) && forall i {:trigger t[i].key} :: 0 <= i < |t| ==> OneLive(t, t[i].key)
  }

  lemma PublishKeepsIds<K, V>(t: seq<Row<K, V>>, batch: seq<Row<K, V>>)
    requires NewRows(t, batch)
    ensures DistinctIds(Publish(t, batch))
  {
    forall i | 0 <= i < |t + batch|
      ensures Publish(t, batch)[i].id == (t + batch)[i].id
    {
      PublishedAt(t, batch, i);
      YieldsOnce((t + batch)[i], batch);
    }
  }

  lemma NextAfterPublish<K, V>(t: seq<Row<K, V>>, batch: seq<Row<K, V>>, i: nat) returns (j: nat)
    requires NewRows(t, batch) && DistinctKeys(batch) && Chained(t)
    requires i < |t + batch| && !Live(Publish(t, batch)[i])
    ensures PointsTo(Publish(t, batch), i, j)
  {
    var p := Publish(t, batch);
    PublishedAt(t, batch, i);
    if i >= |t| {
      NewRowLiveExactly(t, batch, i - |t|);
      assert false;
    } else if !Live(t[i]) {
      YieldsOnce(t[i], batch);
      assert HasNext(t, i);
      j :| PointsTo(t, i, j);
      PublishedAt(t, batch, j);
      YieldsOnce(t[j], batch);
    } else {
      YieldsToFirst(t[i], batch);
      var k :| 0 <= k < |batch| && Rival(t[i], batch[k]);
      assert forall m :: 0 <= m < k ==> !Rival(t[i], batch[m]);
      j := |t| + k;
      assert (t + batch)[j] == batch[k];
      PublishedAt(t, batch, j);
      YieldsOnce(batch[k], batch);
    }
  }

  lemma OtherKeysUnchanged<K, V>(t: seq<Row<K, V>>, batch: seq<Row<K, V>>, i: nat)
    requires i < |t| && !Writes(batch, t[i].key)
    ensures Publish(t, batch)[i] == t[i]
  {
    PublishedAt(t, batch, i);
    if Live(t[i]) {
      YieldsToFirst(t[i], batch);
    }
    YieldsOnce(t[i], batch);
  }

  lemma NewRowsWrite<K, V>(t: seq<Row<K, V>>, batch: seq<Row<K, V>>, i: nat)
    requires |t| <= i < |t + batch|
    ensures Writes(batch, (t + batch)[i].key)
  {
    assert (t + batch)[i] == batch[i - |t|];
  }

  lemma KeptKeyOneLive<K, V>(t: seq<Row<K, V>>, batch: seq<Row<K, V>>, key: K)
    requires OneLive(t, key) && !Writes(batch, key)
    ensures OneLive(Publish(t, batch), key)
    ensures forall i :: LiveAt(Publish(t, batch), i, key) ==> LiveAt(t, i, key) && Publish(t, batch)[i] == t[i]
  {
    var p := Publish(t, batch);
    var live :| LiveAt(t, live, key);
    OtherKeysUnchanged(t, batch, live);
    assert LiveAt(p, live, key);
    forall i | LiveAt(p, i, key)
      ensures LiveAt(t, i, key) && p[i] == t[i]
    {
      PublishedAt(t, batch, i);
      if i >= |t| {
        NewRowsWrite(t, batch, i);
        assert false;
      }
      OtherKeysUnchanged(t, batch, i);
    }
  }

  /** Every batch that writes each of its keys once keeps the invariant. */
  lemma PublishKeepsInv<K, V>(t: seq<Row<K, V>>, batch: seq<Row<K, V>>)
    requires Inv(t) && NewRows(t, batch) && DistinctKeys(batch)
    ensures Inv(Publish(t, batch))
  {
    var p := Publish(t, batch);
    PublishKeepsIds(t, batch);
    forall i | 0 <= i < |p| && !Live(p[i])
      ensures HasNext(p, i)
    {
      var j := NextAfterPublish(t, batch, i);
    }
    forall i | 0 <= i < |p|
      ensures OneLive(p, p[i].key)
    {
      PublishedAt(t, batch, i);
      var key := p[i].key;
      if Writes(batch, key) {
        OneLiveExactlyWhen(t, batch, key);
      } else {
        if i >= |t| {
          NewRowsWrite(t, batch, i);
          assert false;
        }
        KeptKeyOneLive(t, batch, key);
      }
    }
  }

  // ---- Chains --------------------------------------------------------------------------

  /** Row `j` is where following the pointers from row `i` leads after some steps. */
  ghost predicate Leads<K, V>(t: seq<Row<K, V>>, i: int, j: int)
    decreases |t| - i
  {
    0 <= i < |t| && (i == j || exists k :: PointsTo(t, i, k) && Leads(t, k, j))
  }

  /** Every row's chain ends, after finitely many steps, in the one live row of its key. */
  lemma {:induction false} ChainEnds<K, V>(t: seq<Row<K, V>>, i: nat) returns (j: nat)
    requires Inv(t) && i < |t|
    ensures Leads(t, i, j) && LiveAt(t, j, t[i].key)
    decreases |t| - i
  {
    if Live(t[i]) {
      return i;
    }
    assert HasNext(t, i);
    var k :| PointsTo(t, i, k);
    j := ChainEnds(t, k);
  }

  // ---- Whole runs ----------------------------------------------------------------------

  /** The table after publishing the batches in order. */
  ghost function TableAfter<K, V>(batches: seq<seq<Row<K, V>>>): seq<Row<K, V>> {
    if batches == [] then [] else Publish(TableAfter(batches[..|batches| - 1]), batches[|batches| - 1])
  }

  ghost predicate GoodRun<K, V>(batches: seq<seq<Row<K, V>>>) {
    batches == [] ||
    (GoodRun(batches[..|batches| - 1]) && DistinctKeys(batches[|batches| - 1]) &&
     NewRows(TableAfter(batches[..|batches| - 1]), batches[|batches| - 1]))
  }

  /** `r` is the row of `key` in the latest batch that writes it. */
  ghost predicate Latest<K, V>(batches: seq<seq<Row<K, V>>>, key: K, r: Row<K, V>) {
    batches != [] &&
    var last := batches[|batches| - 1];
    if Writes(last, key) then r in last && r.key == key else Latest(batches[..|batches| - 1], key, r)
  }

  ghost predicate Written<K, V>(batches: seq<seq<Row<K, V>>>, key: K) {
    exists b :: 0 <= b < |batches| && Writes(batches[b], key)
  }

  lemma {:induction false} RunKeepsInv<K, V>(batches: seq<seq<Row<K, V>>>)
    requires GoodRun(batches)
    ensures Inv(TableAfter(batches))
  {
    if batches != [] {
      RunKeepsInv(batches[..|batches| - 1]);
      PublishKeepsInv(TableAfter(batches[..|batches| - 1]), batches[|batches| - 1]);
    }
  }

  /** A key has rows exactly when some batch wrote it. */
  lemma {:induction false} RowsExactlyWhenWritten<K, V>(batches: seq<seq<Row<K, V>>>, key: K)
    requires GoodRun(batches)
    ensures Written(batches, key) <==> Writes(TableAfter(batches), key)
  {
    if batches != [] {
      var n := |batches| - 1;
      var t, batch := TableAfter(batches[..n]), batches[n];
      RowsExactlyWhenWritten(batches[..n], key);
      PublishWrites(t, batch, key);
      if Written(batches, key) {
        var b :| 0 <= b < |batches| && Writes(batches[b], key);
        assert b < n ==> Writes(batches[..n][b], key);
      }
      if Written(batches[..n], key) {
        var b :| 0 <= b < n && Writes(batches[..n][b], key);
        assert Writes(batches[b], key);
      }
    }
  }

  lemma PublishWrites<K, V>(t: seq<Row<K, V>>, batch: seq<Row<K, V>>, key: K)
    ensures Writes(Publish(t, batch), key) <==> Writes(t, key) || Writes(batch, key)
  {
    var p := Publish(t, batch);
    forall i | 0 <= i < |p|
      ensures p[i].key == (t + batch)[i].key
    {
      PublishedAt(t, batch, i);
    }
    if Writes(t, key) {
      var i :| 0 <= i < |t| && t[i].key == key;
      assert p[i].key == key;
    }
    if Writes(batch, key) {
      var i :| 0 <= i < |batch| && batch[i].key == key;
      assert (t + batch)[|t| + i] == batch[i];
      assert p[|t| + i].key == key;
    }
    if Writes(p, key) {
      var i :| 0 <= i < |p| && p[i].key == key;
      assert (t + batch)[i] == if i < |t| then t[i] else batch[i - |t|];
    }
  }

  /** Over any run, a written key has exactly one live row: the one from the latest batch that
      wrote it, as it was written. */
  lemma {:induction false} RunPublishesLatest<K, V>(batches: seq<seq<Row<K, V>>>, key: K)
    requires GoodRun(batches) && Written(batches, key)
    ensures OneLive(TableAfter(batches), key)
    ensures forall i :: LiveAt(TableAfter(batches), i, key) ==> Latest(batches, key, TableAfter(batches)[i])
  {
    var n := |batches| - 1;
    var t, batch := TableAfter(batches[..n]), batches[n];
    if Writes(batch, key) {
      OneLiveExactlyWhen(t, batch, key);
      forall i | LiveAt(Publish(t, batch), i, key)
        ensures Latest(batches, key, Publish(t, batch)[i])
      {
        PublishedAt(t, batch, i);
        if i < |t| {
          OldRowsYield(t, batch, i, key);
          assert false;
        }
        NewRowLiveExactly(t, batch, i - |t|);
      }
    } else {
      var b :| 0 <= b < |batches| && Writes(batches[b], key);
      assert Writes(batches[..n][b], key);
      RunPublishesLatest(batches[..n], key);
      KeptKeyOneLive(t, batch, key);
    }
  }

  // ---- The stored table ----------------------------------------------------------------

  class Store<K(==), V> {
    var table: seq<Row<K, V>>

    constructor ()
      ensures table == []
    {
      table := [];
    }

    method InsertRows(batch: seq<Row<K, V>>)
      modifies this
      ensures table == old(table) + batch
    {
      table := table + batch;
    }

    method SupersedePrevious(winner: Row<K, V>)
      modifies this
      ensures table == Supersede(old(table), winner)
    {
      var out := [];
      for i := 0 to |table|
        invariant table == old(table)
        invariant |out| == i && forall k :: 0 <= k < i ==> out[k] == Yield(table[k], winner)
      {
        var r := table[i];
        if r.key == winner.key && r.supersededBy.None? && r.id != winner.id {
          r := r.(supersededBy := Some(winner.id));
        }
        out := out + [r];
      }
      table := out;
    }

    /** One transaction: insert every row, then supersede once per row. */
    method PublishBatch(batch: seq<Row<K, V>>)
      modifies this
      ensures table == Publish(old(table), batch)
      ensures Inv(old(table)) && NewRows(old(table), batch) && DistinctKeys(batch) ==> Inv(table)
    {
      InsertRows(batch);
      ghost var inserted := table;
      for i := 0 to |batch|
        invariant |table| == |inserted|
        invariant forall k :: 0 <= k < |table| ==> table[k] == YieldAll(inserted[k], batch[..i])
      {
        SupersedePrevious(batch[i]);
        assert batch[..i + 1][..i] == batch[..i];
      }
      assert batch[..|batch|] == batch;
      assert table == Publish(old(table), batch);
      if Inv(old(table)) && NewRows(old(table), batch) && DistinctKeys(batch) {
        PublishKeepsInv(old(table), batch);
      }
    }
  }
}
