/** The in-process response store: a least-recently-used list with expiry, and an index into it.

    The list runs from the most recently used entry to the least. The transition functions say
    what one lookup or store does to it; the class keeps list and index in step with them. */
module ResponseCache {
  import opened Options

  datatype Entry<K, V> = Entry(key: K, value: V, expiresAt: int)

  /** The entries of every other key, in order. */
  function Without<K(==), V>(s: seq<Entry<K, V>>, k: K): seq<Entry<K, V>> {
    if s == [] then []
    else Without(s[..|s| - 1], k) + (if s[|s| - 1].key == k then [] else [s[|s| - 1]])
  }

  function Lookup<K(==), V>(s: seq<Entry<K, V>>, k: K): Option<Entry<K, V>> {
    if s == [] then None
    else if s[|s| - 1].key == k then Some(s[|s| - 1])
    else Lookup(s[..|s| - 1], k)
  }

  ghost predicate DistinctKeys<K, V>(s: seq<Entry<K, V>>) {
    forall i, j :: 0 <= i < j < |s| ==> s[i].key != s[j].key
  }

  /** Any operation on the store: look a key up, or store an entry. */
  datatype Op<K, V> = Get(key: K, now: int) | Put(entry: Entry<K, V>)

  function KeyOf<K, V>(op: Op<K, V>): K {
    match op
    case Get(k, _) => k
    case Put(e) => e.key
  }

  /** A hit moves to the front; an expired entry is dropped; a missing key changes nothing. */
  function AfterGet<K(==), V>(s: seq<Entry<K, V>>, k: K, now: int): seq<Entry<K, V>> {
    match Lookup(s, k)
    case None => s
    case Some(e) => if now > e.expiresAt then Without(s, k) else [e] + Without(s, k)
  }

  function Result<K(==), V>(s: seq<Entry<K, V>>, k: K, now: int): Option<Entry<K, V>> {
    match Lookup(s, k)
    case None => None
    case Some(e) => if now > e.expiresAt then None else Some(e)
  }

  function Trim<K, V>(s: seq<Entry<K, V>>, cap: nat): seq<Entry<K, V>> {
    if |s| <= cap then s else s[..cap]
  }

  /** A known key is refreshed at the front; a new one may push the last entry out. */
  function AfterPut<K(==), V>(s: seq<Entry<K, V>>, e: Entry<K, V>, cap: nat): seq<Entry<K, V>> {
    if Lookup(s, e.key).Some? then [e] + Without(s, e.key) else Trim([e] + s, cap)
  }

  function After<K(==), V>(s: seq<Entry<K, V>>, op: Op<K, V>, cap: nat): seq<Entry<K, V>> {
    match op
    case Get(k, now) => AfterGet(s, k, now)
    case Put(e) => AfterPut(s, e, cap)
  }

  // ---- Removing a key ------------------------------------------------------------------

  lemma {:induction false} WithoutHas<K, V>(s: seq<Entry<K, V>>, k: K)
    ensures forall e :: e in Without(s, k) <==> e in s && e.key != k
    ensures |Without(s, k)| <= |s|
  {
    if s != [] {
      WithoutHas(s[..|s| - 1], k);
      assert s == s[..|s| - 1] + [s[|s| - 1]];
    }
  }

  lemma {:induction false} LookupFinds<K, V>(s: seq<Entry<K, V>>, k: K)
    ensures Lookup(s, k).Some? ==> Lookup(s, k).value in s && Lookup(s, k).value.key == k
    ensures Lookup(s, k).None? ==> forall e :: e in s ==> e.key != k
  {
    if s != [] {
      LookupFinds(s[..|s| - 1], k);
      assert s == s[..|s| - 1] + [s[|s| - 1]];
    }
  }

  /** Taking out the entry at place `i` of a list of distinct keys. */
  lemma {:induction false} WithoutAt<K, V>(s: seq<Entry<K, V>>, i: nat)
    requires DistinctKeys(s) && i < |s|
    ensures Without(s, s[i].key) == s[..i] + s[i + 1..]
  {
    var n := |s| - 1;
    var front := s[..n];
    if i == n {
      NoneToRemove(front, s[n].key);
      assert s[..n] + s[n + 1..] == front;
    } else {
      WithoutAt(front, i);
      assert front[..i] + front[i + 1..] + [s[n]] == s[..i] + s[i + 1..];
    }
  }

  lemma {:induction false} NoneToRemove<K, V>(s: seq<Entry<K, V>>, k: K)
    requires forall i :: 0 <= i < |s| ==> s[i].key != k
    ensures Without(s, k) == s
  {
    if s != [] {
      NoneToRemove(s[..|s| - 1], k);
    }
  }

  lemma {:induction false} LookupAt<K, V>(s: seq<Entry<K, V>>, i: nat)
    requires DistinctKeys(s) && i < |s|
    ensures Lookup(s, s[i].key) == Some(s[i])
  {
    if i < |s| - 1 {
      LookupAt(s[..|s| - 1], i);
    }
  }

  ghost predicate Lacks<K, V>(s: seq<Entry<K, V>>, k: K) {
    forall i :: 0 <= i < |s| ==> s[i].key != k
  }

  /** Removing a key leaves the others distinct, and one entry fewer if it was there. */
  lemma WithoutKeepsDistinct<K, V>(s: seq<Entry<K, V>>, k: K)
    requires DistinctKeys(s)
    ensures DistinctKeys(Without(s, k)) && Lacks(Without(s, k), k)
    ensures |Without(s, k)| == if Lookup(s, k).Some? then |s| - 1 else |s|
  {
    LookupFinds(s, k);
    if Lookup(s, k).Some? {
      var i :| 0 <= i < |s| && s[i] == Lookup(s, k).value;
      WithoutAt(s, i);
      var t := s[..i] + s[i + 1..];
      forall a | 0 <= a < |t|
        ensures t[a] == s[if a < i then a else a + 1]
      {
      }
    } else {
      forall i | 0 <= i < |s|
        ensures s[i].key != k
      {
        assert s[i] in s;
      }
      NoneToRemove(s, k);
    }
  }

  lemma FrontKeepsDistinct<K, V>(e: Entry<K, V>, s: seq<Entry<K, V>>)
    requires DistinctKeys(s) && Lacks(s, e.key)
    ensures DistinctKeys([e] + s)
  {
  }

  /** Every operation keeps keys distinct and the list within its capacity. */
  lemma StepKeeps<K, V>(s: seq<Entry<K, V>>, op: Op<K, V>, cap: nat)
    requires DistinctKeys(s) && |s| <= cap && cap > 0
    ensures DistinctKeys(After(s, op, cap)) && |After(s, op, cap)| <= cap
  {
    var k := KeyOf(op);
    WithoutKeepsDistinct(s, k);
    LookupFinds(s, k);
    match op
    case Get(_, now) =>
      if Lookup(s, k).Some? {
        FrontKeepsDistinct(Lookup(s, k).value, Without(s, k));
      }
    case Put(e) =>
      if Lookup(s, k).Some? {
        FrontKeepsDistinct(e, Without(s, k));
      } else {
        assert Lacks(s, k) by {
          forall i | 0 <= i < |s|
            ensures s[i].key != k
          {
            assert s[i] in s;
          }
        }
        FrontKeepsDistinct(e, s);
      }
  }

  // ---- Whole runs ----------------------------------------------------------------------

  /** The list after a run of operations on an empty store. */
  function Run<K(==), V>(ops: seq<Op<K, V>>, cap: nat): seq<Entry<K, V>> {
    if ops == [] then [] else After(Run(ops[..|ops| - 1], cap), ops[|ops| - 1], cap)
  }

  /** The list after further operations. */
  function Resume<K(==), V>(s: seq<Entry<K, V>>, ops: seq<Op<K, V>>, cap: nat): seq<Entry<K, V>> {
    if ops == [] then s else After(Resume(s, ops[..|ops| - 1], cap), ops[|ops| - 1], cap)
  }

  /** The entry most recently stored under a key. */
  function LastPut<K(==), V>(ops: seq<Op<K, V>>, k: K): Option<Entry<K, V>> {
    if ops == [] then None
    else if ops[|ops| - 1].Put? && ops[|ops| - 1].entry.key == k then Some(ops[|ops| - 1].entry)
    else LastPut(ops[..|ops| - 1], k)
  }

  lemma {:induction false} RunKeeps<K, V>(ops: seq<Op<K, V>>, cap: nat)
    requires cap > 0
    ensures DistinctKeys(Run(ops, cap)) && |Run(ops, cap)| <= cap
  {
    if ops != [] {
      RunKeeps(ops[..|ops| - 1], cap);
      StepKeeps(Run(ops[..|ops| - 1], cap), ops[|ops| - 1], cap);
    }
  }

  /** An operation adds no entry but the one it stores. */
  lemma StepAddsOnlyPut<K, V>(s: seq<Entry<K, V>>, op: Op<K, V>, cap: nat, e: Entry<K, V>)
    requires e in After(s, op, cap)
    ensures (op.Put? && op.entry == e) || (e in s && (op.Put? ==> op.entry.key != e.key))
  {
    var k := KeyOf(op);
    WithoutHas(s, k);
    LookupFinds(s, k);
    if op.Put? && Lookup(s, k).None? {
      var t := [op.entry] + s;
      assert e in t;
    }
  }

  /** In every reachable state, each stored entry is the latest one stored under its key. */
  lemma {:induction false} StoredIsLatest<K, V>(ops: seq<Op<K, V>>, cap: nat, e: Entry<K, V>)
    requires e in Run(ops, cap)
    ensures LastPut(ops, e.key) == Some(e)
  {
    var n := |ops| - 1;
    StepAddsOnlyPut(Run(ops[..n], cap), ops[n], cap, e);
    if !(ops[n].Put? && ops[n].entry == e) {
      StoredIsLatest(ops[..n], cap, e);
    }
  }

  /** A hit, after any run, is the latest entry stored under that key and has not expired. */
  lemma HitIsLatest<K, V>(ops: seq<Op<K, V>>, cap: nat, k: K, now: int)
    requires Result(Run(ops, cap), k, now).Some?
    ensures LastPut(ops, k) == Result(Run(ops, cap), k, now)
    ensures now <= LastPut(ops, k).value.expiresAt
  {
    LookupFinds(Run(ops, cap), k);
    StoredIsLatest(ops, cap, Lookup(Run(ops, cap), k).value);
  }

  // ---- Retention -----------------------------------------------------------------------

  /** Distinct keys drawn from a set are no more than the set has. */
  lemma {:induction false} CountWithin<K, V>(s: seq<Entry<K, V>>, i: nat, t: set<K>)
    requires DistinctKeys(s) && i <= |s| && forall a :: 0 <= a < i ==> s[a].key in t
    ensures i <= |t|
    decreases i
  {
    if i > 0 {
      CountWithin(s, i - 1, t - {s[i - 1].key});
    }
  }

  /** The keys that a run of operations names. */
  function Touched<K(==), V>(ops: seq<Op<K, V>>): set<K> {
    set i | 0 <= i < |ops| :: KeyOf(ops[i])
  }

  /** Entry `e` is stored at place `i`, and only keys in `t` are in front of it. */
  ghost predicate HeldAt<K, V>(s: seq<Entry<K, V>>, e: Entry<K, V>, i: nat, t: set<K>) {
    i < |s| && s[i] == e && forall a :: 0 <= a < i ==> s[a].key in t
  }

  /** An operation on another key keeps an entry stored while fewer keys than the capacity, this one
      included, have been in front of it. */
  lemma StepHolds<K, V>(s: seq<Entry<K, V>>, op: Op<K, V>, cap: nat, e: Entry<K, V>, i: nat, t: set<K>) returns (j: nat)
    requires DistinctKeys(s) && HeldAt(s, e, i, t) && KeyOf(op) != e.key
    requires KeyOf(op) in t && |t| < cap
    ensures HeldAt(After(s, op, cap), e, j, t)
  {
    var k := KeyOf(op);
    LookupFinds(s, k);
    if Lookup(s, k).Some? {
      var m :| 0 <= m < |s| && s[m] == Lookup(s, k).value;
      WithoutAt(s, m);
      j := MovedHolds(s, m, e, i, t, op, cap);
    } else if op.Get? {
      j := i;
    } else {
      j := i + 1;
      PushedHolds(s, op.entry, cap, e, i, t);
    }
  }

  lemma PushedHolds<K, V>(s: seq<Entry<K, V>>, x: Entry<K, V>, cap: nat, e: Entry<K, V>, i: nat, t: set<K>)
    requires DistinctKeys(s) && HeldAt(s, e, i, t) && x.key in t && |t| < cap && (forall y :: y in s ==> y.key != x.key)
    ensures HeldAt(Trim([x] + s, cap), e, i + 1, t)
  {
    var u := [x] + s;
    forall y | 0 <= y < |s|
      ensures s[y].key != x.key
    {
      assert s[y] in s;
    }
    FrontKeepsDistinct(x, s);
    forall a | 0 <= a < i + 1
      ensures u[a].key in t
    {
      assert a > 0 ==> u[a] == s[a - 1];
    }
    CountWithin(u, i + 1, t);
    forall a | 0 <= a <= i + 1
      ensures Trim(u, cap)[a] == u[a]
    {
    }
  }

  lemma MovedHolds<K, V>(s: seq<Entry<K, V>>, m: nat, e: Entry<K, V>, i: nat, t: set<K>, op: Op<K, V>, cap: nat) returns (j: nat)
    requires DistinctKeys(s) && HeldAt(s, e, i, t) && m < |s| && m != i && s[m].key == KeyOf(op) && KeyOf(op) in t
    requires Lookup(s, KeyOf(op)) == Some(s[m]) && Without(s, KeyOf(op)) == s[..m] + s[m + 1..]
    ensures HeldAt(After(s, op, cap), e, j, t)
  {
    var w := s[..m] + s[m + 1..];
    var place := if m < i then i - 1 else i;
    assert w[place] == e;
    forall a | 0 <= a < place
      ensures w[a].key in t
    {
      var b := if a < m then a else a + 1;
      assert w[a] == s[b];
    }
    if op.Get? && op.now > s[m].expiresAt {
      j := place;
    } else {
      j := place + 1;
      var x := if op.Put? then op.entry else s[m];
      assert After(s, op, cap) == [x] + w;
      forall a | 0 <= a < j
        ensures ([x] + w)[a].key in t
      {
        assert a > 0 ==> ([x] + w)[a] == w[a - 1];
      }
    }
  }

  lemma {:induction false} RunHolds<K, V>(s: seq<Entry<K, V>>, ops: seq<Op<K, V>>, cap: nat, e: Entry<K, V>, t: set<K>) returns (j: nat)
    requires DistinctKeys(s) && |s| <= cap && s != [] && s[0] == e
    requires forall i :: 0 <= i < |ops| ==> KeyOf(ops[i]) != e.key && KeyOf(ops[i]) in t
    requires |t| < cap
    ensures HeldAt(Resume(s, ops, cap), e, j, t) && DistinctKeys(Resume(s, ops, cap)) && |Resume(s, ops, cap)| <= cap
    decreases |ops|
  {
    if ops == [] {
      j := 0;
    } else {
      var n := |ops| - 1;
      var i := RunHolds(s, ops[..n], cap, e, t);
      StepKeeps(Resume(s, ops[..n], cap), ops[n], cap);
      j := StepHolds(Resume(s, ops[..n], cap), ops[n], cap, e, i, t);
    }
  }

  /** Just after a hit or a store of its own, an entry that then sees any operations naming fewer
      than `cap` distinct other keys is still there: a lookup before it expires returns it. */
  lemma RecentAlwaysHits<K, V>(s: seq<Entry<K, V>>, ops: seq<Op<K, V>>, cap: nat, e: Entry<K, V>, now: int)
    requires DistinctKeys(s) && |s| <= cap && s != [] && s[0] == e
    requires e.key !in Touched(ops) && |Touched(ops)| < cap && now <= e.expiresAt
    ensures Result(Resume(s, ops, cap), e.key, now) == Some(e)
  {
    forall i | 0 <= i < |ops|
      ensures KeyOf(ops[i]) != e.key && KeyOf(ops[i]) in Touched(ops)
    {
    }
    var j := RunHolds(s, ops, cap, e, Touched(ops));
    LookupAt(Resume(s, ops, cap), j);
  }

  /** A store or a hit puts its entry at the front. */
  lemma TouchLeads<K, V>(s: seq<Entry<K, V>>, op: Op<K, V>, cap: nat)
    requires cap > 0 && (op.Get? ==> Result(s, op.key, op.now).Some?)
    ensures After(s, op, cap) != []
    ensures After(s, op, cap)[0] == if op.Put? then op.entry else Result(s, op.key, op.now).value
  {
  }

  // ---- The store -----------------------------------------------------------------------

  /** The index holds exactly the listed entries, by key. */
  ghost predicate Indexed<K, V>(ll: seq<Entry<K, V>>, items: map<K, Entry<K, V>>) {
    (forall i :: 0 <= i < |ll| ==> ll[i].key in items && items[ll[i].key] == ll[i]) &&
    (forall k :: k in items ==> items[k] in ll && items[k].key == k)
  }

  lemma IndexedRemove<K, V>(ll: seq<Entry<K, V>>, items: map<K, Entry<K, V>>, i: nat)
    requires DistinctKeys(ll) && Indexed(ll, items) && i < |ll|
    ensures Indexed(ll[..i] + ll[i + 1..], items - {ll[i].key}) && Lacks(ll[..i] + ll[i + 1..], ll[i].key)
  {
    var w, rest := ll[..i] + ll[i + 1..], items - {ll[i].key};
    forall a | 0 <= a < |w|
      ensures w[a].key in rest && rest[w[a].key] == w[a]
    {
      assert w[a] == ll[if a < i then a else a + 1];
    }
    forall k | k in rest
      ensures rest[k] in w
    {
      var a :| 0 <= a < |ll| && ll[a] == items[k];
      assert w[if a < i then a else a - 1] == ll[a];
    }
  }

  lemma IndexedPush<K, V>(ll: seq<Entry<K, V>>, items: map<K, Entry<K, V>>, e: Entry<K, V>)
    requires Indexed(ll, items) && Lacks(ll, e.key)
    ensures Indexed([e] + ll, items[e.key := e])
  {
    var u, more := [e] + ll, items[e.key := e];
    forall a | 0 <= a < |u|
      ensures u[a].key in more && more[u[a].key] == u[a]
    {
      assert a > 0 ==> u[a] == ll[a - 1];
    }
    assert u[0] == e;
  }

  lemma Found<K, V>(ll: seq<Entry<K, V>>, items: map<K, Entry<K, V>>, k: K)
    requires DistinctKeys(ll) && Indexed(ll, items)
    ensures Lookup(ll, k) == if k in items then Some(items[k]) else None
    ensures k !in items ==> Lacks(ll, k)
  {
    LookupFinds(ll, k);
    if k in items {
      var i :| 0 <= i < |ll| && ll[i] == items[k];
      LookupAt(ll, i);
    }
  }

  class Store<K(==), V> {
    const cap: nat
    var ll: seq<Entry<K, V>>
    var items: map<K, Entry<K, V>>

    /** List and index hold the same entries, one per key, at most `cap` of them. */
    ghost predicate Valid()
      reads this
    {
      cap > 0 && DistinctKeys(ll) && |ll| <= cap && Indexed(ll, items)
    }

    constructor (capacity: int)
      ensures Valid() && ll == [] && cap == if capacity <= 0 then 256 else capacity
    {
      cap := if capacity <= 0 then 256 else capacity;
      ll := [];
      items := map[];
    }

    /** Where the list holds a key. */
    method Place(key: K) returns (i: nat)
      requires Valid() && key in items
      ensures i < |ll| && ll[i] == items[key] && Without(ll, key) == ll[..i] + ll[i + 1..]
    {
      ghost var w :| 0 <= w < |ll| && ll[w] == items[key];
      i := 0;
      while ll[i].key != key
        invariant 0 <= i <= w
        decreases w - i
      {
        i := i + 1;
      }
      WithoutAt(ll, i);
    }

    method Get(key: K, now: int) returns (hit: Option<Entry<K, V>>)
      requires Valid()
      modifies this
      ensures Valid() && ll == AfterGet(old(ll), key, now) && hit == Result(old(ll), key, now)
    {
      Found(ll, items, key);
      StepKeeps(ll, Op.Get(key, now), cap);
      if key !in items {
        return None;
      }
      var e := items[key];
      var i := Place(key);
      IndexedRemove(ll, items, i);
      if now > e.expiresAt {
        ll := ll[..i] + ll[i + 1..];
        items := items - {key};
        return None;
      }
      Reindexed(ll, items, i, e);
      ll := [e] + (ll[..i] + ll[i + 1..]);
      assert items == items[key := e];
      return Some(e);
    }

    method Put(e: Entry<K, V>)
      requires Valid()
      modifies this
      ensures Valid() && ll == AfterPut(old(ll), e, cap)
    {
      Found(ll, items, e.key);
      StepKeeps(ll, Op.Put(e), cap);
      if e.key in items {
        var i := Place(e.key);
        Reindexed(ll, items, i, e);
        ll := [e] + (ll[..i] + ll[i + 1..]);
        items := items[e.key := e];
        return;
      }
      IndexedPush(ll, items, e);
      FrontKeepsDistinct(e, ll);
      ll := [e] + ll;
      items := items[e.key := e];
      Evict();
    }

    /** Drop entries from the back until the list fits. */
    method Evict()
      requires cap > 0 && DistinctKeys(ll) && Indexed(ll, items)
      modifies this
      ensures Valid() && ll == Trim(old(ll), cap)
    {
      while |ll| > cap
        invariant DistinctKeys(ll) && Indexed(ll, items)
        invariant |ll| <= |old(ll)| && ll == old(ll)[..|ll|] && (|ll| < |old(ll)| ==> |ll| >= cap)
        decreases |ll|
      {
        var n := |ll| - 1;
        IndexedRemove(ll, items, n);
        assert ll[..n] + ll[n + 1..] == ll[..n];
        items := items - {ll[n].key};
        ll := ll[..n];
      }
    }
  }

  /** Moving the entry of a key to the front, with a new value, keeps the index. */
  lemma Reindexed<K, V>(ll: seq<Entry<K, V>>, items: map<K, Entry<K, V>>, i: nat, e: Entry<K, V>)
    requires DistinctKeys(ll) && Indexed(ll, items) && i < |ll| && ll[i].key == e.key
    ensures Indexed([e] + (ll[..i] + ll[i + 1..]), items[e.key := e])
  {
    IndexedRemove(ll, items, i);
    IndexedPush(ll[..i] + ll[i + 1..], items - {e.key}, e);
    assert (items - {e.key})[e.key := e] == items[e.key := e];
  }
}
