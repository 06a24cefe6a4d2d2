/** The matching engine: candidate selection, the keyset-chunked pass over unmatched snapshots,
    and the rematch pass that follows supersession links one step at a time. */
module Matching {
  import opened Options
  import opened Hours
  import opened Observations

  type SnapshotId = nat

  datatype Snapshot = Snapshot(id: SnapshotId, provider: nat, location: nat, target: int, horizon: int)

  /** One matched_evaluations row; the table is unique on (snapshot, observation). */
  datatype Pair = Pair(snapshot: Snapshot, observation: ObservationId)

  // ---- Candidate selection -------------------------------------------------------------

  function ProvenanceRank(p: Provenance): nat {
    match p
    case Station => 1
    case Interpolated => 2
    case Reanalysis => 2
    case ProviderEstimated => 3
    case Unrecognized => 99
  }

  function Distance(o: Observation, hour: int): int {
    if o.key.observedAt < hour then hour - o.key.observedAt else o.key.observedAt - hour
  }

  predicate CandidateLess(a: Observation, b: Observation, hour: int) {
    if (a.quality == Corrected) != (b.quality == Corrected) then a.quality == Corrected
    else if ProvenanceRank(a.provenance) != ProvenanceRank(b.provenance) then
      ProvenanceRank(a.provenance) < ProvenanceRank(b.provenance)
    else if Distance(a, hour) != Distance(b, hour) then Distance(a, hour) < Distance(b, hour)
    else a.id < b.id
  }

  /** A strict order that is total on rows with different ids. */
  lemma CandidateLessIsStrictTotal(a: Observation, b: Observation, c: Observation, hour: int)
    ensures !CandidateLess(a, a, hour)
    ensures CandidateLess(a, b, hour) && CandidateLess(b, c, hour) ==> CandidateLess(a, c, hour)
    ensures a.id != b.id ==> CandidateLess(a, b, hour) || CandidateLess(b, a, hour)
    ensures !(CandidateLess(a, b, hour) && CandidateLess(b, a, hour))
  {
  }

  ghost predicate IsLeast(best: Observation, candidates: seq<Option<Observation>>, hour: int) {
    && Some(best) in candidates
    && forall c :: Some(c) in candidates ==> !CandidateLess(c, best, hour)
  }

  function Preferred(best: Option<Observation>, c: Option<Observation>, hour: int): Option<Observation> {
    if c.None? then best
    else if best.None? || CandidateLess(c.value, best.value, hour) then c
    else best
  }

  function Select(candidates: seq<Option<Observation>>, hour: int): Option<Observation> {
    if candidates == [] then None
    else Preferred(Select(candidates[..|candidates| - 1], hour), candidates[|candidates| - 1], hour)
  }

  lemma {:induction false} SelectIsLeast(candidates: seq<Option<Observation>>, hour: int)
    ensures var r := Select(candidates, hour);
            if r.Some? then IsLeast(r.value, candidates, hour)
            else forall c :: c in candidates ==> c.None?
  {
    if candidates != [] {
      var front, c := candidates[..|candidates| - 1], candidates[|candidates| - 1];
      assert candidates == front + [c];
      SelectIsLeast(front, hour);
      var r := Select(candidates, hour);
      if r.Some? {
        forall d | Some(d) in candidates ensures !CandidateLess(d, r.value, hour) {
          if Select(front, hour).Some? {
            CandidateLessIsStrictTotal(d, r.value, Select(front, hour).value, hour);
          } else {
            CandidateLessIsStrictTotal(d, d, d, hour);
          }
        }
      }
    }
  }

  /** A station is a better source than interpolated or reanalysed data, which are equal; those are
      better than a provider's estimate, and that is better than an unknown source. */
  predicate BetterSource(a: Provenance, b: Provenance) {
    || (a == Station && b != Station)
    || ((a == Interpolated || a == Reanalysis) && (b == ProviderEstimated || b == Unrecognized))
    || (a == ProviderEstimated && b == Unrecognized)
  }

  /** Observed strictly nearer to the hour. */
  predicate Nearer(a: Observation, b: Observation, hour: int) {
    var x, y := a.key.observedAt, b.key.observedAt;
    (y < hour && y < x < 2 * hour - y) || (y > hour && 2 * hour - y < x < y)
  }

  /** Corrections before everything else, then the better source, then the nearer time, then the
      smaller id. */
  predicate Preferable(a: Observation, b: Observation, hour: int) {
    if a.quality == Corrected && b.quality != Corrected then true
    else if a.quality != Corrected && b.quality == Corrected then false
    else if BetterSource(a.provenance, b.provenance) then true
    else if BetterSource(b.provenance, a.provenance) then false
    else if Nearer(a, b, hour) then true
    else if Nearer(b, a, hour) then false
    else a.id <= b.id
  }

  /** Whatever the candidates, the selection is one of them and none is preferable to it. */
  lemma SelectIsBest(candidates: seq<Option<Observation>>, hour: int)
    ensures var r := Select(candidates, hour);
            r.Some? ==> r in candidates && forall c :: Some(c) in candidates ==> Preferable(r.value, c, hour)
    ensures Select(candidates, hour).None? <==> forall c :: c in candidates ==> c.None?
  {
    SelectIsLeast(candidates, hour);
  }

  ghost predicate OneRowPerId(candidates: seq<Option<Observation>>) {
    forall a, b :: Some(a) in candidates && Some(b) in candidates && a.id == b.id ==> a == b
  }

  /** The choice depends on which candidates there are, never on their order or repetition. */
  lemma SelectIgnoresOrder(a: seq<Option<Observation>>, b: seq<Option<Observation>>, hour: int)
    requires OneRowPerId(a)
    requires forall c :: Some(c) in a <==> Some(c) in b
    ensures Select(a, hour) == Select(b, hour)
  {
    SelectIsLeast(a, hour);
    SelectIsLeast(b, hour);
    var x, y := Select(a, hour), Select(b, hour);
    if x.Some? && y.Some? {
      CandidateLessIsStrictTotal(x.value, y.value, x.value, hour);
    }
  }

  method SelectCandidate(hour: int, candidates: seq<Option<Observation>>) returns (best: Option<Observation>)
    ensures best == Select(candidates, hour)
    ensures best.None? <==> forall c :: c in candidates ==> c.None?
    ensures best.Some? ==> IsLeast(best.value, candidates, hour)
  {
    best := None;
    var i := 0;
    while i < |candidates|
      invariant 0 <= i <= |candidates|
      invariant best == Select(candidates[..i], hour)
    {
      assert candidates[..i + 1][..i] == candidates[..i];
      var c := candidates[i];
      if c.Some? {
        if best.None? || CandidateLess(c.value, best.value, hour) {
          best := c;
        }
      }
      i := i + 1;
    }
    assert candidates[..i] == candidates;
    SelectIsLeast(candidates, hour);
  }

  predicate Candidate(o: Observation, location: nat, hour: int) {
    o.key.location == location && o.key.observedAt == hour && o.quality != Suspect && Live(o)
  }

  function FindCandidates(t: Table, location: nat, hour: int): seq<Option<Observation>> {
    if t == [] then []
    else
      var o := t[|t| - 1];
      FindCandidates(t[..|t| - 1], location, hour) + if Candidate(o, location, hour) then [Some(o)] else []
  }

  lemma {:induction false} CandidateFound(t: Table, location: nat, hour: int, o: Observation)
    ensures Some(o) in FindCandidates(t, location, hour) <==> o in t && Candidate(o, location, hour)
  {
    if t != [] {
      CandidateFound(t[..|t| - 1], location, hour, o);
      assert t == t[..|t| - 1] + [t[|t| - 1]];
    }
  }

  function Choice(t: Table, s: Snapshot): Option<Observation> {
    Select(FindCandidates(t, s.location, Hour(s.target)), Hour(s.target))
  }

  /** A choice is a live, non-suspect row of the snapshot's location and hour. */
  lemma ChoiceFits(t: Table, s: Snapshot)
    ensures Choice(t, s).Some? ==> Choice(t, s).value in t && Candidate(Choice(t, s).value, s.location, Hour(s.target))
    ensures Choice(t, s).None? ==> forall o :: o in t ==> !Candidate(o, s.location, Hour(s.target))
  {
    var hour := Hour(s.target);
    var cs := FindCandidates(t, s.location, hour);
    SelectIsLeast(cs, hour);
    if Choice(t, s).Some? {
      CandidateFound(t, s.location, hour, Choice(t, s).value);
    } else {
      forall o | o in t ensures !Candidate(o, s.location, hour) {
        CandidateFound(t, s.location, hour, o);
      }
    }
  }

  /** A live, non-suspect observation of the place and the full hour a snapshot forecasts. */
  predicate Answers(o: Observation, s: Snapshot) {
    && o.key.location == s.location && o.quality != Suspect && o.supersededBy == None
    && o.key.observedAt % 3600 == 0 && o.key.observedAt <= s.target < o.key.observedAt + 3600
  }

  /** Corrections before everything else, then the better source, then the smaller id. */
  predicate AtLeastAsGood(a: Observation, b: Observation) {
    if a.quality == Corrected && b.quality != Corrected then true
    else if a.quality != Corrected && b.quality == Corrected then false
    else if BetterSource(a.provenance, b.provenance) then true
    else if BetterSource(b.provenance, a.provenance) then false
    else a.id <= b.id
  }

  ghost predicate BestAnswer(t: Table, s: Snapshot, best: Observation) {
    && best in t && Answers(best, s)
    && forall o :: o in t && Answers(o, s) ==> AtLeastAsGood(best, o)
  }

  lemma AnswersMeans(o: Observation, s: Snapshot)
    ensures Answers(o, s) <==> Candidate(o, s.location, Hour(s.target))
  {
  }

  /** A snapshot is matched to its best answer, and to nothing only if it has none. */
  lemma ChoiceIsBest(t: Table, s: Snapshot)
    ensures Choice(t, s).Some? ==> BestAnswer(t, s, Choice(t, s).value)
    ensures Choice(t, s).None? <==> forall o :: o in t ==> !Answers(o, s)
  {
    var hour := Hour(s.target);
    ChoiceFits(t, s);
    SelectIsLeast(FindCandidates(t, s.location, hour), hour);
    forall o | o in t && Answers(o, s)
      ensures Choice(t, s).Some? && AtLeastAsGood(Choice(t, s).value, o)
    {
      AnswersMeans(o, s);
      CandidateFound(t, s.location, hour, o);
      assert !CandidateLess(o, Choice(t, s).value, hour);
    }
    if Choice(t, s).Some? {
      AnswersMeans(Choice(t, s).value, s);
    }
  }

  // ---- The keyset scan -----------------------------------------------------------------

  predicate Matched(pairs: set<Pair>, id: SnapshotId) {
    exists p :: p in pairs && p.snapshot.id == id
  }

  ghost predicate Sorted(snapshots: seq<Snapshot>) {
    && (forall i :: 0 <= i < |snapshots| ==> 0 < snapshots[i].id)
    && (forall i, j :: 0 <= i < j < |snapshots| ==> snapshots[i].id < snapshots[j].id)
  }

  predicate Scanned(s: Snapshot, pairs: set<Pair>, from: int, to: int, after: SnapshotId) {
    from <= s.target < to && s.id > after && !Matched(pairs, s.id)
  }

  /** The rows of the unmatched scan in primary-key order, before its LIMIT. */
  function Unmatched(snapshots: seq<Snapshot>, pairs: set<Pair>, from: int, to: int, after: SnapshotId): seq<Snapshot> {
    if snapshots == [] then []
    else
      (if Scanned(snapshots[0], pairs, from, to, after) then [snapshots[0]] else []) +
      Unmatched(snapshots[1..], pairs, from, to, after)
  }

  lemma {:induction false} UnmatchedExactly(
    snapshots: seq<Snapshot>, pairs: set<Pair>, from: int, to: int, after: SnapshotId, s: Snapshot)
    ensures s in Unmatched(snapshots, pairs, from, to, after) <==>
            s in snapshots && Scanned(s, pairs, from, to, after)
  {
    if snapshots != [] {
      UnmatchedExactly(snapshots[1..], pairs, from, to, after, s);
      assert snapshots == [snapshots[0]] + snapshots[1..];
    }
  }

  lemma {:induction false} UnmatchedSorted(
    snapshots: seq<Snapshot>, pairs: set<Pair>, from: int, to: int, after: SnapshotId)
    requires Sorted(snapshots)
    ensures Sorted(Unmatched(snapshots, pairs, from, to, after))
  {
    if snapshots != [] {
      var rest := Unmatched(snapshots[1..], pairs, from, to, after);
      UnmatchedSorted(snapshots[1..], pairs, from, to, after);
      forall s | s in rest ensures snapshots[0].id < s.id {
        UnmatchedExactly(snapshots[1..], pairs, from, to, after, s);
      }
      SortedCons(snapshots[0], rest);
    }
  }

  lemma SortedCons(s: Snapshot, rest: seq<Snapshot>)
    requires Sorted(rest) && 0 < s.id && forall r :: r in rest ==> s.id < r.id
    ensures Sorted([s] + rest)
  {
  }

  lemma {:induction false} SameScan(
    snapshots: seq<Snapshot>, a: set<Pair>, b: set<Pair>, from: int, to: int, after: SnapshotId, after': SnapshotId)
    requires forall i :: 0 <= i < |snapshots| ==>
               Scanned(snapshots[i], a, from, to, after) == Scanned(snapshots[i], b, from, to, after')
    ensures Unmatched(snapshots, a, from, to, after) == Unmatched(snapshots, b, from, to, after')
  {
    if snapshots != [] {
      SameScan(snapshots[1..], a, b, from, to, after, after');
    }
  }

  /** Resuming after the k-th row sees exactly the rows from the k-th on. */
  lemma {:induction false} ScanResumes(
    snapshots: seq<Snapshot>, a: set<Pair>, b: set<Pair>, from: int, to: int, after: SnapshotId, k: nat)
    requires Sorted(snapshots)
    requires 0 < k <= |Unmatched(snapshots, a, from, to, after)|
    requires var last := Unmatched(snapshots, a, from, to, after)[k - 1].id;
             forall id :: id > last ==> Matched(a, id) == Matched(b, id)
    ensures var rows := Unmatched(snapshots, a, from, to, after);
            Unmatched(snapshots, b, from, to, rows[k - 1].id) == rows[k..]
  {
    var rows := Unmatched(snapshots, a, from, to, after);
    var last, rest := rows[k - 1].id, snapshots[1..];
    if Scanned(snapshots[0], a, from, to, after) && k == 1 {
      SameScan(rest, a, b, from, to, after, last);
    } else {
      var j := if Scanned(snapshots[0], a, from, to, after) then k - 1 else k;
      ScanResumes(rest, a, b, from, to, after, j);
      UnmatchedExactly(rest, a, from, to, after, rows[k - 1]);
    }
  }

  // ---- The pass ------------------------------------------------------------------------

  /** The pairs a pass over these snapshots creates. */
  function NewPairs(t: Table, todo: seq<Snapshot>): set<Pair> {
    if todo == [] then {} else NewPairs(t, todo[..|todo| - 1]) + ChosenPair(t, todo[|todo| - 1])
  }

  function ChosenPair(t: Table, s: Snapshot): set<Pair> {
    match Choice(t, s)
    case None => {}
    case Some(o) => {Pair(s, o.id)}
  }

  lemma {:induction false} NewPairsExactly(t: Table, todo: seq<Snapshot>, p: Pair)
    ensures p in NewPairs(t, todo) <==> p.snapshot in todo && p in ChosenPair(t, p.snapshot)
  {
    if todo != [] {
      NewPairsExactly(t, todo[..|todo| - 1], p);
      assert todo == todo[..|todo| - 1] + [todo[|todo| - 1]];
    }
  }

  /** One chunk: its matches are collected before anything is inserted. */
  method MatchChunk(t: Table, chunk: seq<Snapshot>) returns (matches: set<Pair>)
    ensures matches == NewPairs(t, chunk)
  {
    matches := {};
    var i := 0;
    while i < |chunk|
      invariant 0 <= i <= |chunk|
      invariant matches == NewPairs(t, chunk[..i])
    {
      var snap := chunk[i];
      assert chunk[..i + 1][..i] == chunk[..i];
      var hour := Hour(snap.target);
      var candidates := FindCandidates(t, snap.location, hour);
      var chosen := SelectCandidate(hour, candidates);
      if chosen.Some? {
        matches := matches + {Pair(snap, chosen.value.id)};
      }
      i := i + 1;
    }
    assert chunk[..i] == chunk;
  }

  lemma ChunkStep(
    snapshots: seq<Snapshot>, t: Table, pairs: set<Pair>, from: int, to: int, after: SnapshotId, k: nat)
    requires Sorted(snapshots) && 0 < k <= |Unmatched(snapshots, pairs, from, to, after)|
    ensures var rows := Unmatched(snapshots, pairs, from, to, after);
            var pairs' := pairs + NewPairs(t, rows[..k]);
            Unmatched(snapshots, pairs', from, to, rows[k - 1].id) == rows[k..]
  {
    var rows := Unmatched(snapshots, pairs, from, to, after);
    UnmatchedSorted(snapshots, pairs, from, to, after);
    forall p | p in NewPairs(t, rows[..k]) ensures p.snapshot.id <= rows[k - 1].id {
      NewPairsExactly(t, rows[..k], p);
      var i :| 0 <= i < k && rows[i] == p.snapshot;
    }
    ScanResumes(snapshots, pairs, pairs + NewPairs(t, rows[..k]), from, to, after, k);
  }

  lemma {:induction false} NewPairsAppend(t: Table, a: seq<Snapshot>, b: seq<Snapshot>)
    ensures NewPairs(t, a + b) == NewPairs(t, a) + NewPairs(t, b)
  {
    if b == [] {
      assert a + b == a;
    } else {
      var n := |b| - 1;
      assert (a + b)[..|a| + n] == a + b[..n];
      NewPairsAppend(t, a, b[..n]);
    }
  }

  function Min(a: nat, b: nat): nat {
    if a < b then a else b
  }

  lemma SplitAt(done: seq<Snapshot>, rest: seq<Snapshot>, k: nat)
    requires k <= |rest|
    ensures done + rest[..k] + rest[k..] == done + rest
  {
  }

  lemma UnionSize(a: set<Pair>, b: set<Pair>)
    ensures a + (b - a) == a + b
    ensures |a + b| == |a| + |b - a|
  {
    assert a + (b - a) == a + b;
  }

  class MatchStore {
    var snapshots: seq<Snapshot>
    var observations: Table
    var pairs: set<Pair>

    constructor (snapshots: seq<Snapshot>, observations: Table)
      ensures this.snapshots == snapshots && this.observations == observations && pairs == {}
    {
      this.snapshots, this.observations, this.pairs := snapshots, observations, {};
    }

    /** One chunk of the scan, matched and inserted. */
    method MatchNextChunk(from: int, to: int, after: SnapshotId, chunkSize: nat)
      returns (chunk: seq<Snapshot>, created: nat)
      requires Sorted(snapshots) && chunkSize > 0
      modifies `pairs
      ensures var rows := Unmatched(snapshots, old(pairs), from, to, after);
              && chunk == rows[..Min(|rows|, chunkSize)]
              && pairs == old(pairs) + NewPairs(observations, chunk)
              && (chunk != [] ==> Unmatched(snapshots, pairs, from, to, chunk[|chunk| - 1].id) == rows[|chunk|..])
      ensures created == |pairs| - |old(pairs)|
    {
      var rows := Unmatched(snapshots, pairs, from, to, after);
      chunk := rows[..Min(|rows|, chunkSize)];
      var matches := MatchChunk(observations, chunk);
      var inserted := matches - pairs;
      UnionSize(pairs, matches);
      if chunk != [] {
        ChunkStep(snapshots, observations, pairs, from, to, after, |chunk|);
      }
      pairs := pairs + inserted;
      created := |inserted|;
    }

    /** The pass visits every in-window unmatched snapshot exactly once, in id order, and creates
        the pairs of that list: nothing in the result depends on the chunk size. */
    method MatchUnmatched(from: int, to: int, chunkSize: nat) returns (created: int, ghost visited: seq<Snapshot>)
      requires Sorted(snapshots) && chunkSize > 0
      modifies `pairs
      ensures visited == Unmatched(snapshots, old(pairs), from, to, 0)
      ensures pairs == old(pairs) + NewPairs(observations, visited)
      ensures created == |pairs| - |old(pairs)|
    {
      created, visited := 0, [];
      var after := 0;
      ghost var rest := Unmatched(snapshots, pairs, from, to, 0);
      ghost var all := rest;
      while true
        invariant visited + rest == all
        invariant rest == Unmatched(snapshots, pairs, from, to, after)
        invariant pairs == old(pairs) + NewPairs(observations, visited)
        invariant created == |pairs| - |old(pairs)|
        decreases |rest|
      {
        var chunk, n := MatchNextChunk(from, to, after, chunkSize);
        if |chunk| == 0 {
          break;
        }
        NewPairsAppend(observations, visited, chunk);
        SplitAt(visited, rest, |chunk|);
        created := created + n;
        after := chunk[|chunk| - 1].id;
        visited, rest := visited + chunk, rest[|chunk|..];
        if |chunk| < chunkSize {
          break;
        }
      }
      assert rest == [];
    }

    /** The rematch pass: the first targets in snapshot order, up to the limit. */
    method Rematch(limit: nat) returns (created: nat, ghost chosen: set<Pair>)
      modifies `pairs
      ensures TakesTargets(observations, limit, old(pairs), chosen)
      ensures pairs == old(pairs) + chosen && created == |chosen|
    {
      var taken := TakeFirst(Targets(observations, pairs), limit);
      pairs := pairs + taken;
      created, chosen := |taken|, taken;
    }

    /** One batch: the matching pass over [now - 30 days, now - 2 hours), then one bounded rematch. */
    method MatchBatch(now: int, chunkSize: nat) returns (created: int)
      requires Sorted(snapshots) && chunkSize > 0
      modifies `pairs
      ensures BatchStep(observations, snapshots, now - 30 * 86400, now - 2 * 3600, 5000, old(pairs), pairs)
      ensures created == |pairs| - |old(pairs)|
    {
      var from, to := now - MatchWindowBack, now - PublicationMargin;
      ghost var visited, chosen;
      created, visited := MatchUnmatched(from, to, chunkSize);
      ghost var matched := pairs;
      var rematched: nat;
      rematched, chosen := Rematch(RematchBatchLimit);
      UnionSize(matched, chosen);
      assert chosen - matched == chosen;
      created := created + rematched;
    }
  }

  const MatchWindowBack: int := 30 * 24 * 3600
  const PublicationMargin: int := 2 * 3600
  const RematchBatchLimit: nat := 5000

  /** Nothing left behind has a smaller snapshot id than something taken. */
  ghost predicate FirstBySnapshot(taken: set<Pair>, targets: set<Pair>) {
    forall c, r :: c in taken && r in targets && r !in taken ==> c.snapshot.id <= r.snapshot.id
  }

  /** ORDER BY snapshot id LIMIT limit. */
  method TakeFirst(targets: set<Pair>, limit: nat) returns (taken: set<Pair>)
    ensures taken <= targets && |taken| == Min(limit, |targets|)
    ensures FirstBySnapshot(taken, targets)
  {
    taken := {};
    var rest := targets;
    while |taken| < limit && rest != {}
      invariant taken <= targets && rest == targets - taken
      invariant |taken| <= limit && |taken| + |rest| == |targets|
      invariant FirstBySnapshot(taken, targets)
      decreases rest
    {
      LowestExists(rest);
      var q :| q in rest && forall r | r in rest :: q.snapshot.id <= r.snapshot.id;
      taken, rest := taken + {q}, rest - {q};
    }
  }

  lemma {:induction false} LowestExists(pairs: set<Pair>)
    requires pairs != {}
    ensures exists q :: q in pairs && forall r | r in pairs :: q.snapshot.id <= r.snapshot.id
  {
    var p :| p in pairs;
    if pairs != {p} {
      var rest := pairs - {p};
      LowestExists(rest);
      var q :| q in rest && forall r | r in rest :: q.snapshot.id <= r.snapshot.id;
      var low := if p.snapshot.id <= q.snapshot.id then p else q;
      assert low in pairs && forall r | r in pairs :: low.snapshot.id <= r.snapshot.id;
    }
  }

  // ---- Rematching ----------------------------------------------------------------------

  /** The supersession pointer of the row with this id. */
  function SupersededTo(t: Table, id: ObservationId): Option<ObservationId> {
    if t == [] then None
    else if t[|t| - 1].id == id then t[|t| - 1].supersededBy
    else SupersededTo(t[..|t| - 1], id)
  }

  predicate Stored(t: Table, id: ObservationId) {
    exists i :: 0 <= i < |t| && t[i].id == id
  }

  function Repaired(t: Table, p: Pair): Option<Pair> {
    match SupersededTo(t, p.observation)
    case None => None
    case Some(n) => if Stored(t, n) then Some(Pair(p.snapshot, n)) else None
  }

  /** The rematch query before its LIMIT: re-pairings that do not exist yet. */
  function Targets(t: Table, pairs: set<Pair>): set<Pair> {
    set p | p in pairs && Repaired(t, p).Some? && Repaired(t, p).value !in pairs :: Repaired(t, p).value
  }

  lemma {:induction false} SupersededToAt(t: Table, id: ObservationId)
    requires DistinctIds(t)
    ensures forall i :: 0 <= i < |t| && t[i].id == id ==> SupersededTo(t, id) == t[i].supersededBy
    ensures !Stored(t, id) ==> SupersededTo(t, id) == None
  {
    if t != [] {
      SupersededToAt(t[..|t| - 1], id);
    }
  }

  ghost predicate PairedAt(t: Table, p: Pair, i: int) {
    0 <= i < |t| && t[i].id == p.observation
  }

  /** What every reachable pair table satisfies: pairs name stored, usable rows of their snapshot's
      place and hour, and all pairs of one snapshot lie on one key, that is, on one chain. */
  ghost predicate OnChains(t: Table, pairs: set<Pair>) {
    && (forall p :: p in pairs ==> Usable(t, p))
    && (forall p, q :: p in pairs && q in pairs && p.snapshot.id == q.snapshot.id ==> SameChain(t, p, q))
  }

  ghost predicate Usable(t: Table, p: Pair) {
    exists i :: PairFits(t, p, i)
  }

  ghost predicate PairFits(t: Table, p: Pair, i: int) {
    && PairedAt(t, p, i)
    && t[i].key.location == p.snapshot.location
    && t[i].key.observedAt == Hour(p.snapshot.target)
    && t[i].quality != Suspect
  }

  ghost predicate SameChain(t: Table, p: Pair, q: Pair) {
    && p.snapshot == q.snapshot
    && forall i, j :: PairedAt(t, p, i) && PairedAt(t, q, j) ==> t[i].key == t[j].key
  }

  /** A later row of the chain of a paired observation, not itself paired. */
  ghost predicate Lags(t: Table, pairs: set<Pair>, p: Pair, i: int, j: int) {
    && p in pairs && PairedAt(t, p, i) && i < j < |t| && t[i].key == t[j].key
    && Pair(p.snapshot, t[j].id) !in pairs
  }

  /** Every chain link a matched snapshot still has to be re-paired to. */
  ghost function Missing(t: Table, pairs: set<Pair>): set<Pair> {
    set p, i, j | p in pairs && 0 <= i < |t| && 0 <= j < |t| && Lags(t, pairs, p, i, j) :: Pair(p.snapshot, t[j].id)
  }

  lemma MissingWitness(t: Table, pairs: set<Pair>, q: Pair) returns (p: Pair, i: int, j: int)
    requires q in Missing(t, pairs)
    ensures Lags(t, pairs, p, i, j) && q == Pair(p.snapshot, t[j].id)
  {
    p, i, j :| p in pairs && 0 <= i < |t| && 0 <= j < |t| && Lags(t, pairs, p, i, j) && q == Pair(p.snapshot, t[j].id);
  }

  lemma TargetWitness(t: Table, pairs: set<Pair>, q: Pair) returns (p: Pair, i: int, j: int)
    requires Chained(t) && q in Targets(t, pairs)
    ensures p in pairs && q !in pairs
    ensures PairedAt(t, p, i) && Successor(t, i, j) && q == Pair(p.snapshot, t[j].id)
  {
    p :| p in pairs && Repaired(t, p) == Some(q);
    SupersededToAt(t, p.observation);
    i :| 0 <= i < |t| && t[i].id == p.observation;
    j := NextRow(t, i);
  }

  lemma IsTarget(t: Table, pairs: set<Pair>, p: Pair, i: int, j: int)
    requires Chained(t) && p in pairs && PairedAt(t, p, i) && Successor(t, i, j)
    requires Pair(p.snapshot, t[j].id) !in pairs
    ensures Pair(p.snapshot, t[j].id) in Targets(t, pairs)
  {
    SupersededToAt(t, p.observation);
    assert Repaired(t, p) == Some(Pair(p.snapshot, t[j].id));
  }

  lemma TargetsAreMissing(t: Table, pairs: set<Pair>)
    requires Chained(t)
    ensures Targets(t, pairs) <= Missing(t, pairs)
  {
    forall q | q in Targets(t, pairs) ensures q in Missing(t, pairs) {
      var p, i, j := TargetWitness(t, pairs, q);
      assert Lags(t, pairs, p, i, j);
    }
  }

  /** While a link is missing there is a target: the first unpaired row of the chain. */
  lemma {:induction false} MissingGivesTarget(t: Table, pairs: set<Pair>, p: Pair, i: int, j: int)
    requires Chained(t) && Lags(t, pairs, p, i, j)
    ensures Targets(t, pairs) != {}
    decreases j - i
  {
    var k := NextRow(t, i);
    var q := Pair(p.snapshot, t[k].id);
    if q !in pairs {
      IsTarget(t, pairs, p, i, k);
    } else {
      assert Lags(t, pairs, q, k, j);
      MissingGivesTarget(t, pairs, q, k, j);
    }
  }

  /** Inserting targets removes exactly them from what is missing. */
  lemma RematchShrinksMissing(t: Table, pairs: set<Pair>, chosen: set<Pair>)
    requires Chained(t) && chosen <= Targets(t, pairs)
    ensures Missing(t, pairs + chosen) == Missing(t, pairs) - chosen
    ensures |Missing(t, pairs + chosen)| == |Missing(t, pairs)| - |chosen|
  {
    TargetsAreMissing(t, pairs);
    forall q | q in Missing(t, pairs + chosen) ensures q in Missing(t, pairs) && q !in chosen {
      var p, i, j := MissingWitness(t, pairs + chosen, q);
      if p in pairs {
        assert Lags(t, pairs, p, i, j);
      } else {
        var p0, i0, m := TargetWitness(t, pairs, p);
        assert m == i;
        assert Lags(t, pairs, p0, i0, j);
      }
    }
    forall q | q in Missing(t, pairs) && q !in chosen ensures q in Missing(t, pairs + chosen) {
      var p, i, j := MissingWitness(t, pairs, q);
      assert Lags(t, pairs + chosen, p, i, j);
    }
  }

  // ---- The fixpoint --------------------------------------------------------------------

  ghost predicate LivePair(t: Table, p: Pair) {
    exists i :: PairedAt(t, p, i) && Live(t[i])
  }

  /** No snapshot is ever counted twice: it has at most one pair to a live row. */
  lemma AtMostOneLivePair(t: Table, pairs: set<Pair>, p: Pair, q: Pair)
    requires Chained(t) && OnChains(t, pairs) && p in pairs && q in pairs
    requires p.snapshot.id == q.snapshot.id && LivePair(t, p) && LivePair(t, q)
    ensures p == q
  {
    var i :| PairedAt(t, p, i) && Live(t[i]);
    var j :| PairedAt(t, q, j) && Live(t[j]);
    assert SameChain(t, p, q);
  }

  /** At a fixpoint every matched snapshot is paired to its live, usable row. */
  lemma FixpointIsLive(t: Table, pairs: set<Pair>, p: Pair) returns (q: Pair)
    requires Chained(t) && OnChains(t, pairs) && Targets(t, pairs) == {} && p in pairs
    ensures q in pairs && q.snapshot == p.snapshot && LivePair(t, q)
    ensures exists i :: PairFits(t, q, i) && Live(t[i])
  {
    var i :| PairFits(t, p, i);
    var j := ChainEnd(t, i);
    q := Pair(p.snapshot, t[j].id);
    if q !in pairs {
      MissingGivesTarget(t, pairs, p, i, j);
      assert false;
    }
    assert PairedAt(t, q, j);
    var k :| PairFits(t, q, k);
    assert k == j;
  }

  /** One rematch: as many targets as the limit allows, the first by snapshot. */
  ghost predicate RematchStep(t: Table, limit: nat, pairs: set<Pair>, pairs': set<Pair>) {
    exists chosen :: TakesTargets(t, limit, pairs, chosen) && pairs' == pairs + chosen
  }

  ghost predicate TakesTargets(t: Table, limit: nat, pairs: set<Pair>, chosen: set<Pair>) {
    && chosen <= Targets(t, pairs) && |chosen| == Min(limit, |Targets(t, pairs)|)
    && FirstBySnapshot(chosen, Targets(t, pairs))
  }

  /** Each rematch that finds work leaves strictly fewer links missing. */
  lemma RematchProgress(t: Table, limit: nat, pairs: set<Pair>, pairs': set<Pair>)
    requires Chained(t) && limit > 0 && RematchStep(t, limit, pairs, pairs')
    ensures Targets(t, pairs) != {} ==> |Missing(t, pairs')| < |Missing(t, pairs)|
    ensures Targets(t, pairs) == {} ==> pairs' == pairs
  {
    var chosen :| TakesTargets(t, limit, pairs, chosen) && pairs' == pairs + chosen;
    RematchShrinksMissing(t, pairs, chosen);
    if Targets(t, pairs) == {} {
      assert chosen == {};
    } else {
      assert |Targets(t, pairs)| > 0;
    }
  }

  // ---- Batches -------------------------------------------------------------------------

  function AfterMatching(t: Table, snapshots: seq<Snapshot>, from: int, to: int, pairs: set<Pair>): set<Pair> {
    pairs + NewPairs(t, Unmatched(snapshots, pairs, from, to, 0))
  }

  ghost predicate BatchStep(
    t: Table, snapshots: seq<Snapshot>, from: int, to: int, limit: nat, pairs: set<Pair>, pairs': set<Pair>)
  {
    RematchStep(t, limit, AfterMatching(t, snapshots, from, to, pairs), pairs')
  }

  /** A new pair belongs to an unmatched snapshot and names a live row. */
  lemma NewPairIsLive(t: Table, snapshots: seq<Snapshot>, from: int, to: int, pairs: set<Pair>, q: Pair)
    requires DistinctIds(t) && q in NewPairs(t, Unmatched(snapshots, pairs, from, to, 0))
    ensures !Matched(pairs, q.snapshot.id) && q.snapshot in snapshots && Repaired(t, q).None?
  {
    var todo := Unmatched(snapshots, pairs, from, to, 0);
    NewPairsExactly(t, todo, q);
    UnmatchedExactly(snapshots, pairs, from, to, 0, q.snapshot);
    ChoiceFits(t, q.snapshot);
    SupersededToAt(t, q.observation);
  }

  /** Matching creates no rematch work and takes none away. */
  lemma MatchingKeepsTargets(t: Table, snapshots: seq<Snapshot>, from: int, to: int, pairs: set<Pair>)
    requires DistinctIds(t)
    ensures Targets(t, AfterMatching(t, snapshots, from, to, pairs)) == Targets(t, pairs)
  {
    var added := NewPairs(t, Unmatched(snapshots, pairs, from, to, 0));
    forall q | q in added ensures Repaired(t, q).None? && !Matched(pairs, q.snapshot.id) {
      NewPairIsLive(t, snapshots, from, to, pairs, q);
    }
  }

  /** After one batch no snapshot in the window is left that could have been matched. */
  lemma MatchingIsDone(t: Table, snapshots: seq<Snapshot>, from: int, to: int, pairs: set<Pair>, pairs': set<Pair>)
    requires AfterMatching(t, snapshots, from, to, pairs) <= pairs'
    ensures NewPairs(t, Unmatched(snapshots, pairs', from, to, 0)) == {}
  {
    var todo, todo' := Unmatched(snapshots, pairs, from, to, 0), Unmatched(snapshots, pairs', from, to, 0);
    forall q | q in NewPairs(t, todo') ensures false {
      NewPairsExactly(t, todo', q);
      UnmatchedExactly(snapshots, pairs', from, to, 0, q.snapshot);
      assert !Matched(pairs, q.snapshot.id);
      UnmatchedExactly(snapshots, pairs, from, to, 0, q.snapshot);
      NewPairsExactly(t, todo, q);
    }
  }

  lemma SuccessorIsInjective(t: Table, a: ObservationId, b: ObservationId)
    requires Chained(t) && Stored(t, a) && Stored(t, b)
    requires SupersededTo(t, a).Some? && SupersededTo(t, a) == SupersededTo(t, b)
    ensures a == b
  {
    SupersededToAt(t, a);
    SupersededToAt(t, b);
    var i :| 0 <= i < |t| && t[i].id == a;
    var k :| 0 <= k < |t| && t[k].id == b;
    var j := NextRow(t, i);
    var l := NextRow(t, k);
    assert j == l;
  }

  /** The re-pairing q is the last one its snapshot needs. */
  ghost predicate LastLink(t: Table, pairs: set<Pair>, q: Pair) {
    Repaired(t, q).None? || Repaired(t, q).value in pairs
  }

  lemma RematchEmptiesTargets(t: Table, pairs: set<Pair>)
    requires forall q :: q in Targets(t, pairs) ==> LastLink(t, pairs, q)
    ensures Targets(t, pairs + Targets(t, pairs)) == {}
  {
  }

  lemma EmptyTargetsMeanLastLinks(t: Table, pairs: set<Pair>, chosen: set<Pair>)
    requires Chained(t) && chosen <= Targets(t, pairs) && Targets(t, pairs + chosen) == {}
    ensures chosen == Targets(t, pairs)
    ensures forall q :: q in Targets(t, pairs) ==> LastLink(t, pairs, q)
  {
    var all := pairs + chosen;
    forall p | p in all && Repaired(t, p).Some? ensures Repaired(t, p).value in all {
      assert Repaired(t, p).value !in Targets(t, all);
    }
    forall q | q in Targets(t, pairs) ensures q in chosen {
      var p :| p in pairs && Repaired(t, p) == Some(q);
    }
    forall q | q in Targets(t, pairs) ensures LastLink(t, pairs, q) {
      if Repaired(t, q).Some? && Repaired(t, q).value in chosen {
        var r := Repaired(t, q).value;
        var p :| p in pairs && Repaired(t, p) == Some(r);
        SupersededToAt(t, p.observation);
        SupersededToAt(t, q.observation);
        SuccessorIsInjective(t, p.observation, q.observation);
        assert false;
      }
    }
  }

  /** The exact condition under which re-running a batch creates nothing: before the first batch
      the rematch work fits its limit and every snapshot is at most one link behind. */
  lemma RerunCreatesNothingExactlyWhen(
    t: Table, snapshots: seq<Snapshot>, from: int, to: int, limit: nat,
    pairs: set<Pair>, once: set<Pair>, twice: set<Pair>)
    requires Chained(t) && limit > 0
    requires BatchStep(t, snapshots, from, to, limit, pairs, once)
    requires BatchStep(t, snapshots, from, to, limit, once, twice)
    ensures twice == once <==>
            |Targets(t, pairs)| <= limit && forall q :: q in Targets(t, pairs) ==> LastLink(t, pairs, q)
  {
    var matched := AfterMatching(t, snapshots, from, to, pairs);
    MatchingKeepsTargets(t, snapshots, from, to, pairs);
    MatchingIsDone(t, snapshots, from, to, pairs, once);
    RematchProgress(t, limit, once, twice);
    assert twice == once <==> Targets(t, once) == {};
    var chosen :| TakesTargets(t, limit, matched, chosen) && once == matched + chosen;
    LastLinksAgree(t, snapshots, from, to, pairs);
    if Targets(t, once) == {} {
      EmptyTargetsMeanLastLinks(t, matched, chosen);
    } else if |Targets(t, pairs)| <= limit {
      SubsetOfSameSize(chosen, Targets(t, matched));
      if forall q :: q in Targets(t, pairs) ==> LastLink(t, pairs, q) {
        RematchEmptiesTargets(t, matched);
        assert false;
      }
    }
  }

  lemma LastLinksAgree(t: Table, snapshots: seq<Snapshot>, from: int, to: int, pairs: set<Pair>)
    requires DistinctIds(t)
    ensures forall q :: q in Targets(t, pairs) ==>
              LastLink(t, pairs, q) == LastLink(t, AfterMatching(t, snapshots, from, to, pairs), q)
  {
    var added := NewPairs(t, Unmatched(snapshots, pairs, from, to, 0));
    forall q | q in added ensures !Matched(pairs, q.snapshot.id) {
      NewPairIsLive(t, snapshots, from, to, pairs, q);
    }
    forall q | q in Targets(t, pairs) ensures Matched(pairs, q.snapshot.id) {
      var p :| p in pairs && Repaired(t, p) == Some(q);
    }
  }

  lemma {:induction false} SubsetOfSameSize(a: set<Pair>, b: set<Pair>)
    requires a <= b && |a| == |b|
    ensures a == b
  {
    assert b == a + (b - a);
    UnionSize(a, b);
    assert a + b == b;
    assert |b - a| == 0;
  }

  // ---- What every writer of pairs keeps ------------------------------------------------

  /** Fresh matches: usable rows for snapshots that have no pair yet, one row per snapshot. */
  ghost predicate FreshMatches(t: Table, pairs: set<Pair>, matches: set<Pair>) {
    && (forall q :: q in matches ==> !Matched(pairs, q.snapshot.id) && Usable(t, q))
    && (forall q, r :: q in matches && r in matches && q.snapshot.id == r.snapshot.id ==> q == r)
  }

  lemma MatchesKeepChains(t: Table, pairs: set<Pair>, matches: set<Pair>)
    requires DistinctIds(t) && OnChains(t, pairs) && FreshMatches(t, pairs, matches)
    ensures OnChains(t, pairs + matches)
  {
  }

  /** Re-pairings: usable rows on the chain of an existing pair of the same snapshot. */
  ghost predicate Repairings(t: Table, pairs: set<Pair>, added: set<Pair>) {
    forall q :: q in added ==> exists p :: Extends(t, pairs, p, q)
  }

  ghost predicate Extends(t: Table, pairs: set<Pair>, p: Pair, q: Pair) {
    p in pairs && SameChain(t, p, q) && Usable(t, q)
  }

  /** The pair of the old table on whose chain a pair of the new one lies. */
  lemma Anchor(t: Table, pairs: set<Pair>, added: set<Pair>, q: Pair) returns (p: Pair)
    requires OnChains(t, pairs) && Repairings(t, pairs, added) && q in pairs + added
    ensures p in pairs && SameChain(t, p, q)
  {
    if q in pairs {
      p := q;
    } else {
      p :| Extends(t, pairs, p, q);
    }
  }

  lemma RepairingsKeepChains(t: Table, pairs: set<Pair>, added: set<Pair>)
    requires OnChains(t, pairs) && Repairings(t, pairs, added)
    ensures OnChains(t, pairs + added)
  {
    var all := pairs + added;
    forall q, r | q in all && r in all && q.snapshot.id == r.snapshot.id ensures SameChain(t, q, r) {
      var p := Anchor(t, pairs, added, q);
      var o := Anchor(t, pairs, added, r);
      ChainsCompose(t, pairs, p, o, q, r);
    }
  }

  lemma ChainsCompose(t: Table, pairs: set<Pair>, p: Pair, o: Pair, q: Pair, r: Pair)
    requires OnChains(t, pairs) && p in pairs && o in pairs && q.snapshot.id == r.snapshot.id
    requires SameChain(t, p, q) && SameChain(t, o, r)
    ensures SameChain(t, q, r)
  {
    assert SameChain(t, p, o);
    var i :| PairFits(t, p, i);
    var j :| PairFits(t, o, j);
  }

  lemma TargetExtends(t: Table, pairs: set<Pair>, q: Pair)
    requires Chained(t) && OnChains(t, pairs) && q in Targets(t, pairs)
    ensures exists p :: Extends(t, pairs, p, q)
  {
    var p, i, j := TargetWitness(t, pairs, q);
    var k :| PairFits(t, p, k);
    assert k == i;
    assert PairFits(t, q, j);
    assert Extends(t, pairs, p, q);
  }

  /** Later corrections never break a pair's place on its chain. */
  lemma ChainsSurvive(t: Table, t': Table, pairs: set<Pair>)
    requires DistinctIds(t') && Evolves(t, t') && OnChains(t, pairs)
    ensures OnChains(t', pairs)
  {
    forall p | p in pairs ensures Usable(t', p) {
      var i :| PairFits(t, p, i);
      assert PairFits(t', p, i);
    }
    forall p, q | p in pairs && q in pairs && p.snapshot.id == q.snapshot.id ensures SameChain(t', p, q) {
      assert SameChain(t, p, q);
      var i :| PairFits(t, p, i);
      var j :| PairFits(t, q, j);
      assert t[i].key == t[j].key;
    }
  }

  // ---- What a batch matches ------------------------------------------------------------

  ghost predicate PairedToBest(t: Table, q: Pair) {
    exists best :: BestAnswer(t, q.snapshot, best) && q.observation == best.id
  }

  lemma NewPairsAreBest(t: Table, todo: seq<Snapshot>, q: Pair)
    requires q in NewPairs(t, todo)
    ensures PairedToBest(t, q) && q.snapshot in todo
  {
    NewPairsExactly(t, todo, q);
    ChoiceIsBest(t, q.snapshot);
    assert BestAnswer(t, q.snapshot, Choice(t, q.snapshot).value);
  }

  /** After a batch, what an unmatched snapshot was paired with is its best answer, and a snapshot of
      the window is left unmatched only if it has no answer. */
  lemma BatchMatchesBest(
    t: Table, snapshots: seq<Snapshot>, from: int, to: int, limit: nat, pairs: set<Pair>, pairs': set<Pair>)
    requires Chained(t) && Sorted(snapshots) && BatchStep(t, snapshots, from, to, limit, pairs, pairs')
    ensures forall q :: q in pairs' && !Matched(pairs, q.snapshot.id) ==>
              PairedToBest(t, q) && q.snapshot in snapshots && from <= q.snapshot.target < to
    ensures forall s :: s in snapshots && from <= s.target < to && !Matched(pairs', s.id) ==>
              forall o :: o in t ==> !Answers(o, s)
  {
    var matched := AfterMatching(t, snapshots, from, to, pairs);
    var chosen :| TakesTargets(t, limit, matched, chosen) && pairs' == matched + chosen;
    MatchingKeepsTargets(t, snapshots, from, to, pairs);
    forall q: Pair | q in chosen ensures Matched(pairs, q.snapshot.id) {
      var p :| p in pairs && Repaired(t, p) == Some(q);
    }
    forall q | q in pairs' && !Matched(pairs, q.snapshot.id)
      ensures PairedToBest(t, q) && q.snapshot in snapshots && from <= q.snapshot.target < to
    {
      NewPairsAreBest(t, Unmatched(snapshots, pairs, from, to, 0), q);
      UnmatchedExactly(snapshots, pairs, from, to, 0, q.snapshot);
    }
    forall s | s in snapshots && from <= s.target < to && !Matched(pairs', s.id)
      ensures forall o :: o in t ==> !Answers(o, s)
    {
      LeftUnmatched(t, snapshots, from, to, pairs, pairs', s);
    }
  }

  lemma LeftUnmatched(
    t: Table, snapshots: seq<Snapshot>, from: int, to: int, pairs: set<Pair>, pairs': set<Pair>, s: Snapshot)
    requires Sorted(snapshots) && AfterMatching(t, snapshots, from, to, pairs) <= pairs'
    requires s in snapshots && from <= s.target < to && !Matched(pairs', s.id)
    ensures forall o :: o in t ==> !Answers(o, s)
  {
    MatchingIsDone(t, snapshots, from, to, pairs, pairs');
    var todo := Unmatched(snapshots, pairs', from, to, 0);
    UnmatchedExactly(snapshots, pairs', from, to, 0, s);
    ChoiceIsBest(t, s);
    if Choice(t, s).Some? {
      NewPairsExactly(t, todo, Pair(s, Choice(t, s).value.id));
      assert false;
    }
  }

  // ---- Repeated batches ----------------------------------------------------------------

  /** A new pair names the last row of its chain: matching leaves no link behind and closes none. */
  lemma MatchingKeepsMissing(t: Table, snapshots: seq<Snapshot>, from: int, to: int, pairs: set<Pair>)
    requires Chained(t)
    ensures Missing(t, AfterMatching(t, snapshots, from, to, pairs)) == Missing(t, pairs)
  {
    var added := NewPairs(t, Unmatched(snapshots, pairs, from, to, 0));
    var all := AfterMatching(t, snapshots, from, to, pairs);
    forall q | q in added ensures !Matched(pairs, q.snapshot.id) && Repaired(t, q).None? {
      NewPairIsLive(t, snapshots, from, to, pairs, q);
    }
    forall q | q in Missing(t, all) ensures q in Missing(t, pairs) {
      var p, i, j := MissingWitness(t, all, q);
      if p in added {
        var k := NextRow(t, i);
        SupersededToAt(t, p.observation);
        assert false;
      }
      assert Lags(t, pairs, p, i, j);
    }
    forall q | q in Missing(t, pairs) ensures q in Missing(t, all) {
      var p, i, j := MissingWitness(t, pairs, q);
      assert Lags(t, all, p, i, j);
    }
  }

  lemma NewPairsAreFresh(t: Table, snapshots: seq<Snapshot>, from: int, to: int, pairs: set<Pair>)
    requires Chained(t) && Sorted(snapshots)
    ensures FreshMatches(t, pairs, NewPairs(t, Unmatched(snapshots, pairs, from, to, 0)))
  {
    var added := NewPairs(t, Unmatched(snapshots, pairs, from, to, 0));
    forall q | q in added ensures !Matched(pairs, q.snapshot.id) && Usable(t, q) && q.snapshot in snapshots
                                  && q in ChosenPair(t, q.snapshot) {
      NewPairIsLive(t, snapshots, from, to, pairs, q);
      NewPairsExactly(t, Unmatched(snapshots, pairs, from, to, 0), q);
      ChoiceFits(t, q.snapshot);
      var o := Choice(t, q.snapshot).value;
      var i :| 0 <= i < |t| && t[i] == o;
      assert PairFits(t, q, i);
    }
    forall q, r | q in added && r in added && q.snapshot.id == r.snapshot.id ensures q == r {
      assert q.snapshot == r.snapshot;
    }
  }

  /** A batch keeps all pairs of a snapshot on one chain. */
  lemma BatchKeepsChains(
    t: Table, snapshots: seq<Snapshot>, from: int, to: int, limit: nat, pairs: set<Pair>, pairs': set<Pair>)
    requires Chained(t) && Sorted(snapshots) && OnChains(t, pairs)
    requires BatchStep(t, snapshots, from, to, limit, pairs, pairs')
    ensures OnChains(t, pairs')
  {
    NewPairsAreFresh(t, snapshots, from, to, pairs);
    MatchesKeepChains(t, pairs, NewPairs(t, Unmatched(snapshots, pairs, from, to, 0)));
    var matched := AfterMatching(t, snapshots, from, to, pairs);
    var chosen :| TakesTargets(t, limit, matched, chosen) && pairs' == matched + chosen;
    forall q | q in chosen ensures exists p :: Extends(t, matched, p, q) {
      TargetExtends(t, matched, q);
    }
    RepairingsKeepChains(t, matched, chosen);
  }

  /** A batch closes at least one missing link as long as there is one. */
  lemma BatchProgress(
    t: Table, snapshots: seq<Snapshot>, from: int, to: int, limit: nat, pairs: set<Pair>, pairs': set<Pair>)
    requires Chained(t) && limit > 0 && BatchStep(t, snapshots, from, to, limit, pairs, pairs')
    ensures |Missing(t, pairs')| <= if Missing(t, pairs) == {} then 0 else |Missing(t, pairs)| - 1
  {
    var matched := AfterMatching(t, snapshots, from, to, pairs);
    MatchingKeepsMissing(t, snapshots, from, to, pairs);
    RematchProgress(t, limit, matched, pairs');
    if q :| q in Missing(t, matched) {
      var p, i, j := MissingWitness(t, matched, q);
      MissingGivesTarget(t, matched, p, i, j);
    } else {
      TargetsAreMissing(t, matched);
    }
  }

  /** The window of one batch, which moves with the clock. */
  datatype Span = Span(from: int, to: int)

  /** Batches one after the other over the same observations, each with its own window. */
  ghost predicate BatchRun(
    t: Table, snapshots: seq<Snapshot>, limit: nat, windows: seq<Span>, run: seq<set<Pair>>)
  {
    && |run| == |windows| + 1
    && forall k :: 0 <= k < |windows| ==> RunStep(t, snapshots, limit, windows[k], run[k], run[k + 1])
  }

  ghost predicate RunStep(
    t: Table, snapshots: seq<Snapshot>, limit: nat, w: Span, pairs: set<Pair>, pairs': set<Pair>)
  {
    BatchStep(t, snapshots, w.from, w.to, limit, pairs, pairs')
  }

  lemma {:induction false} BatchesKeepChains(
    t: Table, snapshots: seq<Snapshot>, limit: nat, windows: seq<Span>, run: seq<set<Pair>>, k: nat)
    requires Chained(t) && Sorted(snapshots) && BatchRun(t, snapshots, limit, windows, run)
    requires OnChains(t, run[0]) && k < |run|
    ensures OnChains(t, run[k])
    decreases k
  {
    if k > 0 {
      BatchesKeepChains(t, snapshots, limit, windows, run, k - 1);
      assert RunStep(t, snapshots, limit, windows[k - 1], run[k - 1], run[k]);
      BatchKeepsChains(t, snapshots, windows[k - 1].from, windows[k - 1].to, limit, run[k - 1], run[k]);
    }
  }

  lemma {:induction false} BatchesCloseLinks(
    t: Table, snapshots: seq<Snapshot>, limit: nat, windows: seq<Span>, run: seq<set<Pair>>, k: nat)
    requires Chained(t) && limit > 0 && BatchRun(t, snapshots, limit, windows, run) && k < |run|
    ensures |Missing(t, run[k])| <= if |Missing(t, run[0])| < k then 0 else |Missing(t, run[0])| - k
    decreases k
  {
    if k > 0 {
      BatchesCloseLinks(t, snapshots, limit, windows, run, k - 1);
      assert RunStep(t, snapshots, limit, windows[k - 1], run[k - 1], run[k]);
      BatchProgress(t, snapshots, windows[k - 1].from, windows[k - 1].to, limit, run[k - 1], run[k]);
    }
  }

  /** The snapshot of p has a pair to a live, usable row, and only one to a live row. */
  ghost predicate OneLivePair(t: Table, pairs: set<Pair>, p: Pair) {
    exists q :: IsOnlyLivePair(t, pairs, p, q)
  }

  ghost predicate IsOnlyLivePair(t: Table, pairs: set<Pair>, p: Pair, q: Pair) {
    && q in pairs && q.snapshot == p.snapshot && LivePair(t, q) && Usable(t, q)
    && forall r :: r in pairs && r.snapshot.id == p.snapshot.id && LivePair(t, r) ==> r == q
  }

  /** With observations fixed, as many batches as links were missing leave nothing to re-pair, and
      every matched snapshot has exactly one pair to a live row. */
  lemma BatchesReachFixpoint(
    t: Table, snapshots: seq<Snapshot>, limit: nat, windows: seq<Span>, run: seq<set<Pair>>)
    requires Chained(t) && Sorted(snapshots) && limit > 0 && BatchRun(t, snapshots, limit, windows, run)
    requires OnChains(t, run[0]) && |windows| >= |Missing(t, run[0])|
    ensures Targets(t, run[|windows|]) == {}
    ensures forall p :: p in run[|windows|] ==> OneLivePair(t, run[|windows|], p)
  {
    var last := run[|windows|];
    BatchesCloseLinks(t, snapshots, limit, windows, run, |windows|);
    TargetsAreMissing(t, last);
    BatchesKeepChains(t, snapshots, limit, windows, run, |windows|);
    forall p | p in last ensures OneLivePair(t, last, p) {
      var q := FixpointIsLive(t, last, p);
      forall r | r in last && r.snapshot.id == p.snapshot.id && LivePair(t, r) ensures r == q {
        AtMostOneLivePair(t, last, r, q);
      }
      assert IsOnlyLivePair(t, last, p, q);
    }
  }

  /** From then on the same batch again changes nothing. */
  lemma FixpointIsStable(
    t: Table, snapshots: seq<Snapshot>, limit: nat, windows: seq<Span>, run: seq<set<Pair>>, again: set<Pair>)
    requires Chained(t) && limit > 0 && BatchRun(t, snapshots, limit, windows, run)
    requires windows != [] && Targets(t, run[|windows|]) == {}
    requires RunStep(t, snapshots, limit, windows[|windows| - 1], run[|windows|], again)
    ensures again == run[|windows|]
  {
    var n, w := |windows|, windows[|windows| - 1];
    assert RunStep(t, snapshots, limit, windows[n - 1], run[n - 1], run[n]);
    var matched := AfterMatching(t, snapshots, w.from, w.to, run[n - 1]);
    assert matched <= run[n];
    MatchingIsDone(t, snapshots, w.from, w.to, run[n - 1], run[n]);
    assert AfterMatching(t, snapshots, w.from, w.to, run[n]) == run[n];
    RematchProgress(t, limit, run[n], again);
  }

  // ---- A re-run that does create pairs -------------------------------------------------

  /** A snapshot two corrections behind needs two batches. */
  lemma TwoCorrectionsNeedTwoBatches() returns (t: Table, pairs: set<Pair>, once: set<Pair>, twice: set<Pair>)
    ensures Chained(t) && OnChains(t, pairs)
    ensures BatchStep(t, [], 0, 0, RematchBatchLimit, pairs, once)
    ensures BatchStep(t, [], 0, 0, RematchBatchLimit, once, twice)
    ensures pairs < once < twice
  {
    t := CorrectedTwiceTable();
    ChainOfThree(t);
    var snap := Snapshot(1, 1, 7, 0, 60);
    pairs := {Pair(snap, 1)};
    once := pairs + {Pair(snap, 2)};
    twice := once + {Pair(snap, 3)};
    assert PairFits(t, Pair(snap, 1), 0);
    OneTarget(t, pairs, Pair(snap, 1), Pair(snap, 2));
    OneTarget(t, once, Pair(snap, 2), Pair(snap, 3));
  }

  lemma OneTarget(t: Table, pairs: set<Pair>, p: Pair, q: Pair)
    requires p in pairs && q !in pairs && Repaired(t, p) == Some(q)
    requires forall r :: r in pairs && r != p ==> Repaired(t, r) == Some(p)
    ensures BatchStep(t, [], 0, 0, RematchBatchLimit, pairs, pairs + {q})
  {
    assert Targets(t, pairs) == {q};
    assert TakesTargets(t, RematchBatchLimit, pairs, {q});
  }

  function CorrectedTwiceTable(): Table {
    var key := Key("openmeteo_historical", 7, 0);
    var values := Readings(None, None, None, None, None, None);
    [Observation(1, key, Reanalysis, values, Valid, Some(2)),
     Observation(2, key, Reanalysis, values, Corrected, Some(3)),
     Observation(3, key, Reanalysis, values, Corrected, None)]
  }

  lemma ChainOfThree(t: Table)
    requires t == CorrectedTwiceTable()
    ensures Chained(t)
    ensures Stored(t, 2) && Stored(t, 3)
    ensures SupersededTo(t, 1) == Some(2) && SupersededTo(t, 2) == Some(3)
  {
    assert Successor(t, 0, 1) && Successor(t, 1, 2);
    assert Linked(t, 0) && Linked(t, 1);
    SupersededToAt(t, 1);
    SupersededToAt(t, 2);
    assert t[0].id == 1 && t[1].id == 2 && t[2].id == 3;
  }
}
