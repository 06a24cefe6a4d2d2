/** Display order: greedy tie groups by interval overlap, and display ranks.

    Rows are taken in descending score, earlier rows first among equal scores. A row joins the
    current group when its interval overlaps the interval of the group's first row. */
module RankOrder {
  import opened Options
  import opened Intervals
  import opened Ranking

  predicate Overlap(a: ProviderRanking, b: ProviderRanking) {
    a.ci.Some? && b.ci.Some? && a.ci.value.lower <= b.ci.value.upper && b.ci.value.lower <= a.ci.value.upper
  }

  predicate Contains(r: ProviderRanking, x: real) {
    r.ci.Some? && r.ci.value.lower <= x <= r.ci.value.upper
  }

  /** Intervals overlap exactly when some score lies in both. */
  lemma OverlapMeansCommonScore(a: ProviderRanking, b: ProviderRanking)
    requires a.ci.Some? ==> a.ci.value.lower <= a.ci.value.upper
    requires b.ci.Some? ==> b.ci.value.lower <= b.ci.value.upper
    ensures Overlap(a, b) <==> exists x :: Contains(a, x) && Contains(b, x)
  {
    if Overlap(a, b) {
      var x := if a.ci.value.lower <= b.ci.value.lower then b.ci.value.lower else a.ci.value.lower;
      assert Contains(a, x) && Contains(b, x);
    }
  }

  // ---- Order by score ------------------------------------------------------------------

  predicate Scored(r: seq<ProviderRanking>, i: int) {
    0 <= i < |r| && r[i].score.Some?
  }

  /** Strictly before: a higher score, or the same score and an earlier position. */
  predicate Before(r: seq<ProviderRanking>, i: nat, j: nat)
    requires Scored(r, i) && Scored(r, j)
  {
    r[i].score.value > r[j].score.value || (r[i].score.value == r[j].score.value && i < j)
  }

  ghost predicate AllScored(r: seq<ProviderRanking>, s: seq<nat>) {
    forall k :: 0 <= k < |s| ==> Scored(r, s[k])
  }

  ghost predicate InOrder(r: seq<ProviderRanking>, s: seq<nat>) {
    AllScored(r, s) && forall a, b :: 0 <= a < b < |s| ==> Before(r, s[a], s[b])
  }

  /** The positions of the scored rows, in display order. */
  ghost predicate Sorted(r: seq<ProviderRanking>, s: seq<nat>) {
    InOrder(r, s) && forall i :: Scored(r, i) ==> i in s
  }

  lemma InsertKeepsOrder(r: seq<ProviderRanking>, s: seq<nat>, k: nat, i: nat)
    requires InOrder(r, s) && k <= |s| && Scored(r, i)
    requires forall a :: 0 <= a < k ==> Before(r, s[a], i)
    requires forall b :: k <= b < |s| ==> Before(r, i, s[b])
    ensures InOrder(r, s[..k] + [i] + s[k..])
  {
    var t := s[..k] + [i] + s[k..];
    forall a | 0 <= a < |t|
      ensures t[a] == if a < k then s[a] else if a == k then i else s[a - 1]
    {
    }
  }

  lemma InsertKeepsElements(s: seq<nat>, k: nat, i: nat)
    requires k <= |s|
    ensures forall x :: x in s[..k] + [i] + s[k..] <==> x in s || x == i
  {
    assert s == s[..k] + s[k..];
  }

  /** Insert a position after every row that scores at least as high. */
  method InsertByScore(r: seq<ProviderRanking>, s: seq<nat>, i: nat) returns (t: seq<nat>)
    requires InOrder(r, s) && Scored(r, i) && forall k :: 0 <= k < |s| ==> s[k] < i
    ensures InOrder(r, t) && forall x :: x in t <==> x in s || x == i
  {
    var k := |s|;
    while k > 0 && r[s[k - 1]].score.value < r[i].score.value
      invariant 0 <= k <= |s|
      invariant forall b :: k <= b < |s| ==> Before(r, i, s[b])
    {
      k := k - 1;
    }
    if k > 0 {
      forall a | 0 <= a < k
        ensures Before(r, s[a], i)
      {
        assert a < k - 1 ==> Before(r, s[a], s[k - 1]);
      }
    }
    InsertKeepsOrder(r, s, k, i);
    InsertKeepsElements(s, k, i);
    t := s[..k] + [i] + s[k..];
  }

  /** The stable descending sort of the scored positions. */
  method SortByScore(r: seq<ProviderRanking>) returns (s: seq<nat>)
    ensures Sorted(r, s)
  {
    s := [];
    for i := 0 to |r|
      invariant InOrder(r, s)
      invariant forall k :: 0 <= k < |s| ==> s[k] < i
      invariant forall j :: 0 <= j < i && Scored(r, j) ==> j in s
    {
      if r[i].score.Some? {
        var t := InsertByScore(r, s, i);
        forall k | 0 <= k < |t|
          ensures t[k] < i + 1
        {
          assert t[k] in t;
        }
        s := t;
      }
    }
  }

  // ---- Greedy groups -------------------------------------------------------------------

  function Flat(groups: seq<seq<nat>>): seq<nat> {
    if groups == [] then [] else Flat(groups[..|groups| - 1]) + groups[|groups| - 1]
  }

  ghost predicate ValidGroups(r: seq<ProviderRanking>, groups: seq<seq<nat>>) {
    forall g :: 0 <= g < |groups| ==> groups[g] != [] && forall k :: 0 <= k < |groups[g]| ==> groups[g][k] < |r|
  }

  /** Every other member overlaps its group's leader. */
  ghost predicate FollowsLeader(r: seq<ProviderRanking>, groups: seq<seq<nat>>)
    requires ValidGroups(r, groups)
  {
    forall g, k :: 0 <= g < |groups| && 0 < k < |groups[g]| ==> Overlap(r[groups[g][0]], r[groups[g][k]])
  }

  /** A leader does not overlap the leader before it. */
  ghost predicate LeadersApart(r: seq<ProviderRanking>, groups: seq<seq<nat>>)
    requires ValidGroups(r, groups)
  {
    forall g :: 0 < g < |groups| ==> !Overlap(r[groups[g - 1][0]], r[groups[g][0]])
  }

  /** The greedy tie groups of a list of positions. */
  ghost predicate Grouped(r: seq<ProviderRanking>, s: seq<nat>, groups: seq<seq<nat>>) {
    ValidGroups(r, groups) && Flat(groups) == s && FollowsLeader(r, groups) && LeadersApart(r, groups)
  }

  lemma FlatPush(groups: seq<seq<nat>>, g: seq<nat>)
    ensures Flat(groups + [g]) == Flat(groups) + g
  {
    assert (groups + [g])[..|groups + [g]| - 1] == groups;
  }

  lemma FlatExtend(groups: seq<seq<nat>>, i: nat)
    requires groups != []
    ensures var n := |groups| - 1; Flat(groups[n := groups[n] + [i]]) == Flat(groups) + [i]
  {
    var n := |groups| - 1;
    var out := groups[n := groups[n] + [i]];
    assert out[..n] == groups[..n];
  }

  lemma JoinsGroup(r: seq<ProviderRanking>, s: seq<nat>, groups: seq<seq<nat>>, i: nat)
    requires Grouped(r, s, groups) && groups != [] && i < |r| && Overlap(r[groups[|groups| - 1][0]], r[i])
    ensures Grouped(r, s + [i], groups[|groups| - 1 := groups[|groups| - 1] + [i]])
  {
    FlatExtend(groups, i);
  }

  lemma StartsGroup(r: seq<ProviderRanking>, s: seq<nat>, groups: seq<seq<nat>>, i: nat)
    requires Grouped(r, s, groups) && i < |r|
    requires groups != [] ==> !Overlap(r[groups[|groups| - 1][0]], r[i])
    ensures Grouped(r, s + [i], groups + [[i]])
  {
    FlatPush(groups, [i]);
  }

  method RankOrder(r: seq<ProviderRanking>) returns (groups: seq<seq<nat>>)
    ensures Sorted(r, Flat(groups)) && Grouped(r, Flat(groups), groups)
  {
    var s := SortByScore(r);
    groups := [];
    for k := 0 to |s|
      invariant Grouped(r, s[..k], groups)
    {
      var i := s[k];
      assert s[..k + 1] == s[..k] + [i];
      var n := |groups|;
      if n > 0 && Overlap(r[groups[n - 1][0]], r[i]) {
        JoinsGroup(r, s[..k], groups, i);
        groups := groups[n - 1 := groups[n - 1] + [i]];
      } else {
        StartsGroup(r, s[..k], groups, i);
        groups := groups + [[i]];
      }
    }
    assert s[..|s|] == s;
  }

  /** Overlap of the rows at two places of a list of positions. */
  predicate OverlapAt(r: seq<ProviderRanking>, s: seq<nat>, a: nat, b: nat) {
    a < |s| && b < |s| && s[a] < |r| && s[b] < |r| && Overlap(r[s[a]], r[s[b]])
  }

  // ---- The groups are determined -------------------------------------------------------

  /** The rows at a list of positions. */
  function RowsAt(r: seq<ProviderRanking>, s: seq<nat>): seq<ProviderRanking>
    requires forall k :: 0 <= k < |s| ==> s[k] < |r|
  {
    seq(|s|, k requires 0 <= k < |s| => r[s[k]])
  }

  ghost predicate SameRows(ra: seq<ProviderRanking>, sa: seq<nat>, rb: seq<ProviderRanking>, sb: seq<nat>) {
    |sa| == |sb| && forall k :: 0 <= k < |sa| ==> sa[k] < |ra| && sb[k] < |rb| && ra[sa[k]] == rb[sb[k]]
  }

  ghost predicate SameRowGroups(ra: seq<ProviderRanking>, ga: seq<seq<nat>>, rb: seq<ProviderRanking>, gb: seq<seq<nat>>) {
    |ga| == |gb| && forall g :: 0 <= g < |ga| ==> SameRows(ra, ga[g], rb, gb[g])
  }

  /** The greedy groups are determined by the rows in display order: their properties leave no
      choice of where a group ends. */
  lemma {:induction false} GroupingDetermined(ra: seq<ProviderRanking>, sa: seq<nat>, ga: seq<seq<nat>>,
                                              rb: seq<ProviderRanking>, sb: seq<nat>, gb: seq<seq<nat>>)
    requires Grouped(ra, sa, ga) && Grouped(rb, sb, gb) && SameRows(ra, sa, rb, sb)
    ensures SameRowGroups(ra, ga, rb, gb)
    decreases |sa|
  {
    EmptyGroups(ra, ga, sa);
    EmptyGroups(rb, gb, sb);
    if ga != [] && gb != [] {
      FirstGroup(ra, sa, ga);
      FirstGroup(rb, sb, gb);
      var m, n := |ga[0]|, |gb[0]|;
      SameOverlaps(ra, sa, rb, sb);
      assert m == n;
      GroupingDetermined(ra, sa[m..], ga[1..], rb, sb[m..], gb[1..]);
      forall g | 0 <= g < |ga|
        ensures SameRows(ra, ga[g], rb, gb[g])
      {
        if g == 0 {
          assert forall k :: 0 <= k < m ==> ga[0][k] == sa[k] && gb[0][k] == sb[k];
        } else {
          assert ga[g] == ga[1..][g - 1] && gb[g] == gb[1..][g - 1];
        }
      }
    }
  }

  lemma SameOverlaps(ra: seq<ProviderRanking>, sa: seq<nat>, rb: seq<ProviderRanking>, sb: seq<nat>)
    requires SameRows(ra, sa, rb, sb)
    ensures forall a, b :: OverlapAt(ra, sa, a, b) <==> OverlapAt(rb, sb, a, b)
  {
  }

  lemma {:induction false} FlatHead(groups: seq<seq<nat>>)
    requires groups != []
    ensures Flat(groups) == groups[0] + Flat(groups[1..])
  {
    var n := |groups| - 1;
    var tail := groups[1..];
    if n == 0 {
      assert tail == [] && groups[..0] == [];
    } else {
      FlatHead(groups[..n]);
      var middle := groups[..n][1..];
      assert middle == tail[..n - 1];
      assert Flat(tail) == Flat(middle) + groups[n];
      Associate(groups[0], Flat(middle), groups[n]);
    }
  }

  lemma Associate(x: seq<nat>, y: seq<nat>, z: seq<nat>)
    ensures (x + y) + z == x + (y + z)
  {
  }

  lemma EmptyGroups(r: seq<ProviderRanking>, groups: seq<seq<nat>>, s: seq<nat>)
    requires Grouped(r, s, groups)
    ensures groups == [] <==> s == []
  {
    if groups != [] {
      FlatHead(groups);
    }
  }

  /** The first group is a prefix of the list; the rest of the list is grouped by the rest. */
  lemma FirstGroup(r: seq<ProviderRanking>, s: seq<nat>, groups: seq<seq<nat>>)
    requires Grouped(r, s, groups) && groups != []
    ensures var n := |groups[0]|;
            && 0 < n <= |s| && s[..n] == groups[0] && Grouped(r, s[n..], groups[1..])
            && (n < |s| ==> !OverlapAt(r, s, 0, n)) && (forall k :: 0 < k < n ==> OverlapAt(r, s, 0, k))
  {
    FlatHead(groups);
    var n := |groups[0]|;
    assert s == groups[0] + Flat(groups[1..]);
    assert s[n..] == Flat(groups[1..]);
    if n < |s| {
      assert groups[1..] != [];
      FlatHead(groups[1..]);
      assert s[n] == groups[1][0];
    }
    assert forall k :: 0 <= k < n ==> s[k] == groups[0][k];
  }

  // ---- The tie rule --------------------------------------------------------------------

  /** The group that place `k` of the flattened groups falls into. */
  function GroupAt(groups: seq<seq<nat>>, k: nat): nat
    requires k < |Flat(groups)|
  {
    var n := |groups| - 1;
    if k < |Flat(groups[..n])| then GroupAt(groups[..n], k) else n
  }

  lemma {:induction false} GroupAtBelow(groups: seq<seq<nat>>, k: nat)
    requires k < |Flat(groups)|
    ensures GroupAt(groups, k) < |groups|
  {
    if k < |Flat(groups[..|groups| - 1])| {
      GroupAtBelow(groups[..|groups| - 1], k);
    }
  }

  /** Later places fall into the same group or a later one. */
  lemma {:induction false} GroupAtMonotone(groups: seq<seq<nat>>, a: nat, b: nat)
    requires a <= b < |Flat(groups)|
    ensures GroupAt(groups, a) <= GroupAt(groups, b)
  {
    var n := |groups| - 1;
    if b < |Flat(groups[..n])| {
      GroupAtMonotone(groups[..n], a, b);
    } else {
      GroupAtBelow(groups, a);
    }
  }

  /** Two rows share a rank if and only if their intervals overlap. */
  ghost predicate TieRule(r: seq<ProviderRanking>, groups: seq<seq<nat>>) {
    forall a, b {:trigger GroupAt(groups, a), GroupAt(groups, b)} ::
      0 <= a < b < |Flat(groups)| ==> (GroupAt(groups, a) == GroupAt(groups, b) <==> OverlapAt(r, Flat(groups), a, b))
  }

  predicate ConvexTriple(r: seq<ProviderRanking>, s: seq<nat>, a: nat, b: nat, c: nat) {
    OverlapAt(r, s, a, c) <==> OverlapAt(r, s, a, b) && OverlapAt(r, s, b, c)
  }

  /** In display order, two rows overlap exactly when both overlap every row between them. */
  ghost predicate Convex(r: seq<ProviderRanking>, s: seq<nat>) {
    forall a, b, c :: 0 <= a < b < c < |s| ==> ConvexTriple(r, s, a, b, c)
  }

  lemma ConvexAt(r: seq<ProviderRanking>, s: seq<nat>, a: nat, b: nat, c: nat)
    requires Convex(r, s) && a < b < c < |s|
    ensures OverlapAt(r, s, a, c) <==> OverlapAt(r, s, a, b) && OverlapAt(r, s, b, c)
  {
    assert ConvexTriple(r, s, a, b, c);
  }

  /** All groups but the last group the places before it. */
  lemma AllButLast(r: seq<ProviderRanking>, groups: seq<seq<nat>>)
    requires Grouped(r, Flat(groups), groups) && groups != []
    ensures Grouped(r, Flat(groups[..|groups| - 1]), groups[..|groups| - 1])
  {
    var front := groups[..|groups| - 1];
    assert ValidGroups(r, front);
    forall g, k | 0 <= g < |front| && 0 < k < |front[g]|
      ensures Overlap(r[front[g][0]], r[front[g][k]])
    {
      assert front[g] == groups[g];
    }
    forall g | 0 < g < |front|
      ensures !Overlap(r[front[g - 1][0]], r[front[g][0]])
    {
      assert front[g - 1] == groups[g - 1] && front[g] == groups[g];
    }
  }

  /** Where the last group starts, and that its leader overlaps the rest of it. */
  lemma LastGroup(r: seq<ProviderRanking>, groups: seq<seq<nat>>)
    requires Grouped(r, Flat(groups), groups) && groups != []
    ensures var m := |Flat(groups[..|groups| - 1])|;
            m < |Flat(groups)| && forall k :: m < k < |Flat(groups)| ==> OverlapAt(r, Flat(groups), m, k)
  {
    var n := |groups| - 1;
    var s, m := Flat(groups), |Flat(groups[..n])|;
    forall k | m <= k < |s|
      ensures s[k] == groups[n][k - m]
    {
    }
  }

  lemma LastLeadersApart(r: seq<ProviderRanking>, groups: seq<seq<nat>>)
    requires Grouped(r, Flat(groups), groups) && |groups| > 1
    ensures var n := |groups| - 1;
            !OverlapAt(r, Flat(groups), |Flat(groups[..n - 1])|, |Flat(groups[..n])|)
  {
    var n := |groups| - 1;
    var s, front := Flat(groups), Flat(groups[..n]);
    var before := Flat(groups[..n - 1]);
    assert groups[..n][..n - 1] == groups[..n - 1];
    assert front == before + groups[n - 1];
    assert s == front + groups[n];
    assert s[|before|] == groups[n - 1][0] && s[|front|] == groups[n][0];
  }

  /** Under convexity no row of an earlier group overlaps a row of the last one. */
  lemma ConvexSeparates(r: seq<ProviderRanking>, groups: seq<seq<nat>>, a: nat, b: nat)
    requires Grouped(r, Flat(groups), groups) && Convex(r, Flat(groups)) && groups != []
    requires a < |Flat(groups[..|groups| - 1])| <= b < |Flat(groups)|
    ensures !OverlapAt(r, Flat(groups), a, b)
  {
    var n := |groups| - 1;
    var s, m := Flat(groups), |Flat(groups[..n])|;
    if n > 0 {
      var p := |Flat(groups[..n - 1])|;
      LastLeadersApart(r, groups);
      AllButLast(r, groups);
      assert groups[..n][..n - 1] == groups[..n - 1];
      LastGroup(r, groups[..n]);
      PrefixOverlap(r, groups);
      if a < p {
        ConvexAt(r, s, a, p, m);
      } else if a > p {
        assert OverlapAt(r, s, p, a);
        ConvexAt(r, s, p, a, m);
      }
      if m < b {
        ConvexAt(r, s, a, m, b);
      }
    }
  }

  lemma PrefixOverlap(r: seq<ProviderRanking>, groups: seq<seq<nat>>)
    requires groups != []
    ensures var front := Flat(groups[..|groups| - 1]);
            forall a, b :: 0 <= a < |front| && 0 <= b < |front| ==>
                             (OverlapAt(r, front, a, b) <==> OverlapAt(r, Flat(groups), a, b))
  {
    var front := Flat(groups[..|groups| - 1]);
    assert Flat(groups) == front + groups[|groups| - 1];
  }

  lemma {:induction false} ConvexGivesTieRule(r: seq<ProviderRanking>, groups: seq<seq<nat>>)
    requires Grouped(r, Flat(groups), groups) && Convex(r, Flat(groups))
    ensures TieRule(r, groups)
  {
    if groups != [] {
      var n := |groups| - 1;
      var s, front := Flat(groups), groups[..n];
      var m := |Flat(front)|;
      AllButLast(r, groups);
      LastGroup(r, groups);
      PrefixOverlap(r, groups);
      PrefixConvex(r, groups);
      ConvexGivesTieRule(r, front);
      forall a, b | 0 <= a < b < |s|
        ensures GroupAt(groups, a) == GroupAt(groups, b) <==> OverlapAt(r, s, a, b)
      {
        if b < m {
          assert GroupAt(front, a) == GroupAt(front, b) <==> OverlapAt(r, Flat(front), a, b);
        } else if a < m {
          ConvexSeparates(r, groups, a, b);
          GroupAtBelow(front, a);
        } else if m < a {
          ConvexAt(r, s, m, a, b);
        }
      }
    }
  }

  lemma PrefixConvex(r: seq<ProviderRanking>, groups: seq<seq<nat>>)
    requires groups != [] && Convex(r, Flat(groups))
    ensures Convex(r, Flat(groups[..|groups| - 1]))
  {
    var front := Flat(groups[..|groups| - 1]);
    PrefixOverlap(r, groups);
    assert Flat(groups) == front + groups[|groups| - 1];
    forall a, b, c | 0 <= a < b < c < |front|
      ensures ConvexTriple(r, front, a, b, c)
    {
      ConvexAt(r, Flat(groups), a, b, c);
    }
  }

  lemma TieRuleGivesConvex(r: seq<ProviderRanking>, groups: seq<seq<nat>>)
    requires TieRule(r, groups)
    ensures Convex(r, Flat(groups))
  {
    var s := Flat(groups);
    forall a, b, c | 0 <= a < b < c < |s|
      ensures ConvexTriple(r, s, a, b, c)
    {
      GroupAtMonotone(groups, a, b);
      GroupAtMonotone(groups, b, c);
    }
  }

  /** The published tie rule, that rows share a rank when their intervals overlap, holds of the
      greedy groups in both directions if and only if overlap is convex in display order. */
  lemma TieRuleExactlyWhen(r: seq<ProviderRanking>, groups: seq<seq<nat>>)
    requires Grouped(r, Flat(groups), groups)
    ensures TieRule(r, groups) <==> Convex(r, Flat(groups))
  {
    if TieRule(r, groups) {
      TieRuleGivesConvex(r, groups);
    }
    if Convex(r, Flat(groups)) {
      ConvexGivesTieRule(r, groups);
    }
  }

  /** A scored row with the given interval, for examples. */
  function Example(provider: nat, score: real, lower: real, upper: real): ProviderRanking {
    ProviderRanking(provider, Some(score), Some(Interval(lower, upper)), Ranked, 30, Some(1.0), Some(1.0), [])
  }

  // ---- The order is determined ---------------------------------------------------------

  ghost predicate StrictlySorted<T>(s: seq<T>, before: (T, T) -> bool) {
    forall a, b :: 0 <= a < b < |s| ==> before(s[a], s[b]) && !before(s[b], s[a]) && s[a] != s[b]
  }

  /** Two strictly sorted sequences with the same elements are the same sequence. */
  lemma {:induction false} SortedUnique<T>(s: seq<T>, t: seq<T>, before: (T, T) -> bool)
    requires StrictlySorted(s, before) && StrictlySorted(t, before) && forall x :: x in s <==> x in t
    ensures s == t
    decreases |s|
  {
    if s != [] {
      FirstAgrees(s, t, before);
      RestOf(s, before);
      RestOf(t, before);
      SortedUnique(s[1..], t[1..], before);
      assert s == [s[0]] + s[1..] && t == [t[0]] + t[1..];
    } else if t != [] {
      FirstAgrees(t, s, before);
      assert false;
    }
  }

  lemma FirstAgrees<T>(s: seq<T>, t: seq<T>, before: (T, T) -> bool)
    requires StrictlySorted(s, before) && StrictlySorted(t, before) && s != [] && forall x :: x in s <==> x in t
    ensures t != [] && s[0] == t[0]
  {
    var x := s[0];
    assert x in s && x in t;
    var a :| 0 <= a < |t| && t[a] == x;
    var y := t[0];
    assert y in t && y in s;
    var b :| 0 <= b < |s| && s[b] == y;
  }

  lemma RestOf<T>(s: seq<T>, before: (T, T) -> bool)
    requires StrictlySorted(s, before) && s != []
    ensures forall x :: x in s[1..] <==> x in s && x != s[0]
  {
    assert s == [s[0]] + s[1..];
  }

  predicate HigherScore(a: ProviderRanking, b: ProviderRanking) {
    a.score.Some? && b.score.Some? && a.score.value > b.score.value
  }

  /** No two scored rows have the same score. */
  ghost predicate DistinctScores(r: seq<ProviderRanking>) {
    forall i, j :: 0 <= i < j < |r| && Scored(r, i) && Scored(r, j) ==> r[i].score.value != r[j].score.value
  }

  lemma RowsSorted(r: seq<ProviderRanking>, s: seq<nat>)
    requires Sorted(r, s) && DistinctScores(r)
    ensures StrictlySorted(RowsAt(r, s), HigherScore)
    ensures forall x :: x in RowsAt(r, s) <==> x in r && x.score.Some?
  {
    var u := RowsAt(r, s);
    forall a, b | 0 <= a < b < |u|
      ensures HigherScore(u[a], u[b])
    {
      assert Before(r, s[a], s[b]);
    }
    forall x | x in r && x.score.Some?
      ensures x in u
    {
      var i :| 0 <= i < |r| && r[i] == x;
      assert Scored(r, i);
      var k :| 0 <= k < |s| && s[k] == i;
      assert u[k] == x;
    }
  }

  /** With distinct scores the groups, as rows, do not depend on the order of the input. */
  lemma GroupsIgnoreOrder(a: seq<ProviderRanking>, ga: seq<seq<nat>>, b: seq<ProviderRanking>, gb: seq<seq<nat>>)
    requires DistinctScores(a) && DistinctScores(b) && forall x :: x in a <==> x in b
    requires Sorted(a, Flat(ga)) && Grouped(a, Flat(ga), ga)
    requires Sorted(b, Flat(gb)) && Grouped(b, Flat(gb), gb)
    ensures SameRowGroups(a, ga, b, gb)
  {
    RowsSorted(a, Flat(ga));
    RowsSorted(b, Flat(gb));
    var u, v := RowsAt(a, Flat(ga)), RowsAt(b, Flat(gb));
    SortedUnique(u, v, HigherScore);
    assert forall k :: 0 <= k < |u| ==> a[Flat(ga)[k]] == u[k] && b[Flat(gb)[k]] == v[k];
    GroupingDetermined(a, Flat(ga), ga, b, Flat(gb), gb);
  }

  /** Rows already in strictly descending score stay in place. */
  lemma AlreadyInOrder(r: seq<ProviderRanking>, s: seq<nat>)
    requires Sorted(r, s) && StrictlySorted(r, HigherScore) && forall x :: x in r ==> x.score.Some?
    ensures RowsAt(r, s) == r
  {
    RowsSorted(r, s);
    SortedUnique(RowsAt(r, s), r, HigherScore);
  }

  /** Whenever the first three rows overlap in a chain but not all together, the tie rule fails. */
  lemma ChainBreaksTieRule(r: seq<ProviderRanking>, groups: seq<seq<nat>>)
    requires |r| >= 3 && StrictlySorted(r, HigherScore) && forall x :: x in r ==> x.score.Some?
    requires Overlap(r[0], r[1]) && Overlap(r[1], r[2]) && !Overlap(r[0], r[2])
    requires Sorted(r, Flat(groups)) && Grouped(r, Flat(groups), groups)
    ensures !TieRule(r, groups)
  {
    var s := Flat(groups);
    AlreadyInOrder(r, s);
    assert RowsAt(r, s)[0] == r[s[0]] && RowsAt(r, s)[1] == r[s[1]] && RowsAt(r, s)[2] == r[s[2]];
    assert !ConvexTriple(r, s, 0, 1, 2);
    TieRuleExactlyWhen(r, groups);
  }

  function ExampleRows(): seq<ProviderRanking> {
    [Example(0, 0.9, 0.8, 1.0), Example(1, 0.8, 0.7, 0.85), Example(2, 0.7, 0.65, 0.75)]
  }

  /** Overlap is not transitive: the middle row overlaps both others, which do not overlap each
      other, so no greedy grouping of these rows obeys the tie rule. */
  lemma TieRuleCanFail(groups: seq<seq<nat>>)
    requires Sorted(ExampleRows(), Flat(groups)) && Grouped(ExampleRows(), Flat(groups), groups)
    ensures !TieRule(ExampleRows(), groups)
  {
    var r := ExampleRows();
    assert StrictlySorted(r, HigherScore);
    assert forall x :: x in r ==> x.score.Some?;
    ChainBreaksTieRule(r, groups);
  }

  // ---- Display ranks -------------------------------------------------------------------

  datatype RankedRow = RankedRow(row: ProviderRanking, rank: nat, tied: bool)

  /** The rows of one group under one rank. */
  function GroupRows(r: seq<ProviderRanking>, g: seq<nat>, rank: nat): seq<RankedRow>
    requires forall k :: 0 <= k < |g| ==> g[k] < |r|
  {
    seq(|g|, k requires 0 <= k < |g| => RankedRow(r[g[k]], rank, |g| > 1))
  }

  /** Groups get consecutive ranks from `base`. */
  function Display(r: seq<ProviderRanking>, groups: seq<seq<nat>>, base: nat): seq<RankedRow>
    requires ValidGroups(r, groups)
  {
    if groups == [] then []
    else
      var n := |groups| - 1;
      Display(r, groups[..n], base) + GroupRows(r, groups[n], base + n)
  }

  /** Append the groups of a subset with ranks from `base`; return the next free rank. */
  method RankGroups(subset: seq<ProviderRanking>, base: nat) returns (out: seq<RankedRow>, next: nat, groups: seq<seq<nat>>)
    ensures Sorted(subset, Flat(groups)) && Grouped(subset, Flat(groups), groups)
    ensures out == Display(subset, groups, base) && next == base + |groups|
  {
    groups := RankOrder(subset);
    out, next := [], base;
    for g := 0 to |groups|
      invariant next == base + g && out == Display(subset, groups[..g], base)
    {
      var group := groups[g];
      var tied := |group| > 1;
      var rows: seq<RankedRow> := [];
      for k := 0 to |group|
        invariant rows == GroupRows(subset, group, next)[..k]
      {
        rows := rows + [RankedRow(subset[group[k]], next, tied)];
      }
      assert groups[..g + 1][..g] == groups[..g];
      out := out + rows;
      next := next + 1;
    }
    assert groups[..|groups|] == groups;
  }

  function Only(rows: seq<ProviderRanking>, st: Status): seq<ProviderRanking> {
    if rows == [] then []
    else Only(rows[..|rows| - 1], st) + (if rows[|rows| - 1].status == st then [rows[|rows| - 1]] else [])
  }

  function Unnumbered(rows: seq<ProviderRanking>): seq<RankedRow> {
    seq(|rows|, k requires 0 <= k < |rows| => RankedRow(rows[k], 0, false))
  }

  /** Ranked rows first, then provisional ones continuing the numbering, then unranked ones. */
  method OrderRankings(rows: seq<ProviderRanking>)
    returns (out: seq<RankedRow>, first: seq<seq<nat>>, second: seq<seq<nat>>)
    ensures Sorted(Only(rows, Ranked), Flat(first)) && Grouped(Only(rows, Ranked), Flat(first), first)
    ensures Sorted(Only(rows, Provisional), Flat(second)) && Grouped(Only(rows, Provisional), Flat(second), second)
    ensures out == Display(Only(rows, Ranked), first, 1) +
                   Display(Only(rows, Provisional), second, 1 + |first|) +
                   Unnumbered(Only(rows, Unranked))
  {
    var ranked, provisional, unranked := [], [], [];
    for i := 0 to |rows|
      invariant ranked == Only(rows[..i], Ranked)
      invariant provisional == Only(rows[..i], Provisional)
      invariant unranked == Only(rows[..i], Unranked)
    {
      assert rows[..i + 1][..i] == rows[..i];
      match rows[i].status
      case Ranked => ranked := ranked + [rows[i]];
      case Provisional => provisional := provisional + [rows[i]];
      case Unranked => unranked := unranked + [rows[i]];
    }
    assert rows[..|rows|] == rows;
    var head, middle, next;
    head, next, first := RankGroups(ranked, 1);
    middle, next, second := RankGroups(provisional, next);
    var tail: seq<RankedRow> := [];
    for i := 0 to |unranked|
      invariant tail == Unnumbered(unranked)[..i]
    {
      tail := tail + [RankedRow(unranked[i], 0, false)];
    }
    out := head + middle + tail;
  }
}
