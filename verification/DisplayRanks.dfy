/** What the display order promises a reader: which rows appear, in what order, under which rank. */
module DisplayRanks {
  import opened Options
  import opened Ranking
  import opened RankOrder
  import Sums

  /** The display of a list of rows, as `OrderRankings` assembles it. */
  ghost predicate Displayed(rows: seq<ProviderRanking>, out: seq<RankedRow>, first: seq<seq<nat>>, second: seq<seq<nat>>) {
    && Sorted(Only(rows, Ranked), Flat(first)) && Grouped(Only(rows, Ranked), Flat(first), first)
    && Sorted(Only(rows, Provisional), Flat(second)) && Grouped(Only(rows, Provisional), Flat(second), second)
    && out == Display(Only(rows, Ranked), first, 1) + Display(Only(rows, Provisional), second, 1 + |first|) +
              Unnumbered(Only(rows, Unranked))
  }

  // ---- One block of ranks --------------------------------------------------------------

  /** Place by place: the row at that position, under its group's rank. */
  lemma {:induction false} DisplayAt(r: seq<ProviderRanking>, groups: seq<seq<nat>>, base: nat)
    requires ValidGroups(r, groups)
    ensures |Display(r, groups, base)| == |Flat(groups)|
    ensures forall k :: 0 <= k < |Flat(groups)| ==>
              && Flat(groups)[k] < |r| && GroupAt(groups, k) < |groups|
              && Display(r, groups, base)[k] ==
                 RankedRow(r[Flat(groups)[k]], base + GroupAt(groups, k), |groups[GroupAt(groups, k)]| > 1)
  {
    if groups != [] {
      var n := |groups| - 1;
      var front := groups[..n];
      DisplayAt(r, front, base);
      forall k | 0 <= k < |Flat(groups)|
        ensures Flat(groups)[k] < |r| && GroupAt(groups, k) < |groups|
        ensures Display(r, groups, base)[k] ==
                RankedRow(r[Flat(groups)[k]], base + GroupAt(groups, k), |groups[GroupAt(groups, k)]| > 1)
      {
        if k < |Flat(front)| {
          assert GroupAt(groups, k) == GroupAt(front, k) && groups[GroupAt(front, k)] == front[GroupAt(front, k)];
        } else {
          assert Flat(groups)[k] == groups[n][k - |Flat(front)|];
        }
      }
    }
  }

  ghost predicate NonEmpty(groups: seq<seq<nat>>) {
    forall g :: 0 <= g < |groups| ==> groups[g] != []
  }

  /** Group numbers start at 0, rise by at most one from place to place, and reach the last. */
  lemma {:induction false} GroupNumbersDense(groups: seq<seq<nat>>)
    requires NonEmpty(groups) && groups != []
    ensures |Flat(groups)| > 0 && GroupAt(groups, 0) == 0 && GroupAt(groups, |Flat(groups)| - 1) == |groups| - 1
    ensures forall k :: 0 <= k < |Flat(groups)| - 1 ==>
                          GroupAt(groups, k) <= GroupAt(groups, k + 1) <= GroupAt(groups, k) + 1
  {
    var n := |groups| - 1;
    var front := groups[..n];
    if n > 0 {
      assert NonEmpty(front);
      GroupNumbersDense(front);
    }
    forall k | 0 <= k < |Flat(groups)| - 1
      ensures GroupAt(groups, k) <= GroupAt(groups, k + 1) <= GroupAt(groups, k) + 1
    {
      GroupAtMonotone(groups, k, k + 1);
      if k + 1 < |Flat(front)| {
        assert GroupAt(front, k + 1) <= GroupAt(front, k) + 1;
      } else if k < |Flat(front)| {
        assert k == |Flat(front)| - 1;
      }
    }
  }

  ghost predicate InGroup(groups: seq<seq<nat>>, j: int, g: nat) {
    0 <= j < |Flat(groups)| && GroupAt(groups, j) == g
  }

  /** The places of the last group are those after all the others. */
  lemma LastPlaces(groups: seq<seq<nat>>, j: nat)
    requires groups != [] && j < |Flat(groups)|
    ensures InGroup(groups, j, |groups| - 1) <==> j >= |Flat(groups[..|groups| - 1])|
    ensures |Flat(groups)| == |Flat(groups[..|groups| - 1])| + |groups[|groups| - 1]|
  {
    if j < |Flat(groups[..|groups| - 1])| {
      GroupAtBelow(groups[..|groups| - 1], j);
    }
  }

  /** A group has a second place exactly when it has more than one member. */
  lemma {:induction false} SharedExactly(groups: seq<seq<nat>>, k: nat)
    requires k < |Flat(groups)| && NonEmpty(groups)
    ensures GroupAt(groups, k) < |groups|
    ensures |groups[GroupAt(groups, k)]| > 1 <==> exists j :: j != k && InGroup(groups, j, GroupAt(groups, k))
  {
    var n := |groups| - 1;
    var front := groups[..n];
    var m, g := |Flat(front)|, GroupAt(groups, k);
    GroupAtBelow(groups, k);
    LastPlaces(groups, k);
    if k < m {
      assert NonEmpty(front);
      SharedExactly(front, k);
      forall j
        ensures InGroup(groups, j, g) <==> InGroup(front, j, g)
      {
        if 0 <= j < |Flat(groups)| {
          LastPlaces(groups, j);
        }
      }
    } else {
      if |groups[n]| > 1 {
        var j := if k == m then m + 1 else m;
        LastPlaces(groups, j);
        assert j != k && InGroup(groups, j, g);
      }
      if j :| j != k && InGroup(groups, j, g) {
        LastPlaces(groups, j);
      }
    }
  }

  // ---- Rows ----------------------------------------------------------------------------

  lemma {:induction false} OnlyHas(rows: seq<ProviderRanking>, st: Status)
    ensures forall x :: x in Only(rows, st) <==> x in rows && x.status == st
  {
    if rows != [] {
      OnlyHas(rows[..|rows| - 1], st);
      assert rows == rows[..|rows| - 1] + [rows[|rows| - 1]];
    }
  }

  /** Scored rows of one status in falling score, under ranks from `base` up to `next`. */
  ghost predicate Block(d: seq<RankedRow>, st: Status, base: nat, next: nat) {
    && (forall k :: 0 <= k < |d| ==> d[k].row.status == st && d[k].row.score.Some? && base <= d[k].rank < next)
    && (forall j, k :: 0 <= j < k < |d| ==> d[j].row.score.value >= d[k].row.score.value)
  }

  /** Every rank from `base` up to `next` is used, in order. */
  ghost predicate Dense(d: seq<RankedRow>, base: nat, next: nat) {
    && (d == [] <==> base == next)
    && (d != [] ==> d[0].rank == base && d[|d| - 1].rank == next - 1)
    && (forall k :: 0 <= k < |d| - 1 ==> d[k].rank <= d[k + 1].rank <= d[k].rank + 1)
  }

  ghost predicate Shares(d: seq<RankedRow>, k: int) {
    exists j :: 0 <= j < |d| && j != k && 0 <= k < |d| && d[j].rank == d[k].rank
  }

  /** The tie mark says exactly whether another row has the same rank. */
  ghost predicate MarksTies(d: seq<RankedRow>) {
    forall k :: 0 <= k < |d| ==> (d[k].tied <==> Shares(d, k))
  }

  lemma DisplayIsBlock(r: seq<ProviderRanking>, groups: seq<seq<nat>>, base: nat, st: Status)
    requires Sorted(r, Flat(groups)) && Grouped(r, Flat(groups), groups) && forall x :: x in r ==> x.status == st
    ensures Block(Display(r, groups, base), st, base, base + |groups|)
  {
    DisplayAt(r, groups, base);
    var d, s := Display(r, groups, base), Flat(groups);
    forall k | 0 <= k < |s|
      ensures d[k].row.status == st && d[k].row.score.Some? && base <= d[k].rank < base + |groups|
    {
      assert r[s[k]] in r;
      assert Scored(r, s[k]);
    }
    forall j, k | 0 <= j < k < |s|
      ensures d[j].row.score.value >= d[k].row.score.value
    {
      assert Before(r, s[j], s[k]);
    }
  }

  lemma DisplayIsDense(r: seq<ProviderRanking>, groups: seq<seq<nat>>, base: nat)
    requires ValidGroups(r, groups)
    ensures Dense(Display(r, groups, base), base, base + |groups|)
  {
    DisplayAt(r, groups, base);
    if groups != [] {
      assert NonEmpty(groups);
      GroupNumbersDense(groups);
    }
  }

  lemma DisplayMarksTies(r: seq<ProviderRanking>, groups: seq<seq<nat>>, base: nat)
    requires ValidGroups(r, groups)
    ensures MarksTies(Display(r, groups, base))
  {
    DisplayAt(r, groups, base);
    var d := Display(r, groups, base);
    assert NonEmpty(groups);
    forall k | 0 <= k < |d|
      ensures d[k].tied <==> Shares(d, k)
    {
      SharedExactly(groups, k);
      var g := GroupAt(groups, k);
      forall j | 0 <= j < |d|
        ensures d[j].rank == d[k].rank <==> InGroup(groups, j, g)
      {
        assert d[j].rank == base + GroupAt(groups, j);
      }
    }
  }

  lemma UnnumberedBlock(rows: seq<ProviderRanking>)
    ensures forall x :: x in Unnumbered(Only(rows, Unranked)) ==> x.row.status == Unranked && x.rank == 0 && !x.tied
  {
    OnlyHas(rows, Unranked);
    var u, o := Unnumbered(Only(rows, Unranked)), Only(rows, Unranked);
    forall k | 0 <= k < |u|
      ensures u[k].row.status == Unranked && u[k].rank == 0 && !u[k].tied
    {
      assert o[k] in o;
    }
  }

  /** Scored rows of one status, ranks without gaps, ties marked exactly. */
  ghost predicate RankBlock(d: seq<RankedRow>, st: Status, base: nat, next: nat) {
    Block(d, st, base, next) && Dense(d, base, next) && MarksTies(d)
  }

  lemma DisplayIsRankBlock(rows: seq<ProviderRanking>, st: Status, groups: seq<seq<nat>>, base: nat)
    requires Sorted(Only(rows, st), Flat(groups)) && Grouped(Only(rows, st), Flat(groups), groups)
    ensures RankBlock(Display(Only(rows, st), groups, base), st, base, base + |groups|)
    ensures |Display(Only(rows, st), groups, base)| == |Flat(groups)|
  {
    OnlyHas(rows, st);
    DisplayIsBlock(Only(rows, st), groups, base, st);
    DisplayIsDense(Only(rows, st), groups, base);
    DisplayMarksTies(Only(rows, st), groups, base);
    DisplayAt(Only(rows, st), groups, base);
  }

  /** Ranked rows come first with dense ranks from 1, then provisional rows continuing the
      numbering without a gap, then unranked rows under rank 0; ties are marked exactly. */
  lemma BlocksInOrder(rows: seq<ProviderRanking>, out: seq<RankedRow>, first: seq<seq<nat>>, second: seq<seq<nat>>)
    requires Displayed(rows, out, first, second)
    ensures var a := |Flat(first)|; var b := a + |Flat(second)|; var next := 1 + |first|;
            && b <= |out|
            && RankBlock(out[..a], Ranked, 1, next)
            && RankBlock(out[a..b], Provisional, next, next + |second|)
            && forall x :: x in out[b..] ==> x.row.status == Unranked && x.rank == 0 && !x.tied
  {
    DisplayIsRankBlock(rows, Ranked, first, 1);
    DisplayIsRankBlock(rows, Provisional, second, 1 + |first|);
    UnnumberedBlock(rows);
    Slices(Display(Only(rows, Ranked), first, 1), Display(Only(rows, Provisional), second, 1 + |first|),
           Unnumbered(Only(rows, Unranked)));
  }

  lemma Slices<T>(x: seq<T>, y: seq<T>, z: seq<T>)
    ensures var out := x + y + z;
            out[..|x|] == x && out[|x|..|x| + |y|] == y && out[|x| + |y|..] == z
  {
  }

  // ---- Which rows appear ---------------------------------------------------------------

  function RowsOf(d: seq<RankedRow>): seq<ProviderRanking> {
    seq(|d|, k requires 0 <= k < |d| => d[k].row)
  }

  function ScoredOnly(r: seq<ProviderRanking>): seq<ProviderRanking> {
    if r == [] then []
    else ScoredOnly(r[..|r| - 1]) + (if r[|r| - 1].score.Some? then [r[|r| - 1]] else [])
  }

  /** A score for every row whose status calls for one. */
  ghost predicate ScoresGiven(rows: seq<ProviderRanking>) {
    forall i :: 0 <= i < |rows| && !rows[i].status.Unranked? ==> rows[i].score.Some?
  }

  lemma {:induction false} ScoredCount(r: seq<ProviderRanking>)
    ensures |ScoredOnly(r)| <= |r|
    ensures |ScoredOnly(r)| == |r| <==> forall i :: 0 <= i < |r| ==> r[i].score.Some?
    ensures |ScoredOnly(r)| == |r| ==> ScoredOnly(r) == r
  {
    if r != [] {
      var n := |r| - 1;
      ScoredCount(r[..n]);
      assert r == r[..n] + [r[n]];
    }
  }

  lemma Joined<T>(x: seq<T>, y: seq<T>)
    ensures multiset(x + y) == multiset(x) + multiset(y)
  {
  }

  lemma ScoredPush(r: seq<ProviderRanking>)
    requires r != []
    ensures var n := |r| - 1;
            multiset(ScoredOnly(r)) == multiset(ScoredOnly(r[..n])) + (if r[n].score.Some? then multiset{r[n]} else multiset{})
  {
    var n := |r| - 1;
    Joined(ScoredOnly(r[..n]), if r[n].score.Some? then [r[n]] else []);
  }

  /** Taking the last row's place out of the sorted rows leaves the sorted rows of the rest. */
  lemma RowsWithoutLast(r: seq<ProviderRanking>, s: seq<nat>, k: nat)
    requires Sorted(r, s) && r != [] && k < |s| && s[k] == |r| - 1
    ensures Sorted(r[..|r| - 1], s[..k] + s[k + 1..])
    ensures multiset(RowsAt(r, s)) == multiset(RowsAt(r[..|r| - 1], s[..k] + s[k + 1..])) + multiset{r[|r| - 1]}
  {
    var front, t := r[..|r| - 1], s[..k] + s[k + 1..];
    WithoutLast(r, s, k);
    var u := RowsAt(r, s);
    Sums.RemoveOne(u, k);
    assert u[..k] + u[k + 1..] == RowsAt(front, t);
  }

  lemma {:induction false} SortedRows(r: seq<ProviderRanking>, s: seq<nat>)
    requires Sorted(r, s)
    ensures multiset(RowsAt(r, s)) == multiset(ScoredOnly(r))
    decreases |r|
  {
    if r == [] {
      NoneScored(r, s);
    } else {
      var n := |r| - 1;
      ScoredPush(r);
      if r[n].score.Some? {
        assert Scored(r, n);
        var k :| 0 <= k < |s| && s[k] == n;
        RowsWithoutLast(r, s, k);
        SortedRows(r[..n], s[..k] + s[k + 1..]);
      } else {
        SkipLast(r, s);
        SortedRows(r[..n], s);
        assert RowsAt(r[..n], s) == RowsAt(r, s);
      }
    }
  }

  lemma NoneScored(r: seq<ProviderRanking>, s: seq<nat>)
    requires Sorted(r, s) && r == []
    ensures RowsAt(r, s) == []
  {
    if s != [] {
      ScoredNeedsRows(r, s);
      assert false;
    }
  }

  lemma ScoredNeedsRows(r: seq<ProviderRanking>, s: seq<nat>)
    requires AllScored(r, s) && s != []
    ensures r != []
  {
    assert Scored(r, s[0]);
  }

  /** Dropping the last row and its position leaves the other positions sorted. */
  lemma WithoutLast(r: seq<ProviderRanking>, s: seq<nat>, k: nat)
    requires Sorted(r, s) && r != [] && k < |s| && s[k] == |r| - 1
    ensures Sorted(r[..|r| - 1], s[..k] + s[k + 1..])
  {
    var n := |r| - 1;
    var front, t := r[..n], s[..k] + s[k + 1..];
    forall a | 0 <= a < |t|
      ensures t[a] == s[if a < k then a else a + 1] && Scored(front, t[a])
    {
      var b := if a < k then a else a + 1;
      assert Scored(r, s[b]);
      assert b < k ==> Before(r, s[b], s[k]);
      assert k < b ==> Before(r, s[k], s[b]);
    }
    forall a, b | 0 <= a < b < |t|
      ensures Before(front, t[a], t[b])
    {
      assert Before(r, t[a], t[b]);
    }
    forall i | Scored(front, i)
      ensures i in t
    {
      assert Scored(r, i);
      var a :| 0 <= a < |s| && s[a] == i;
      assert t[if a < k then a else a - 1] == i;
    }
  }

  lemma SkipLast(r: seq<ProviderRanking>, s: seq<nat>)
    requires Sorted(r, s) && r != [] && r[|r| - 1].score.None?
    ensures Sorted(r[..|r| - 1], s)
  {
    var front := r[..|r| - 1];
    forall a | 0 <= a < |s|
      ensures Scored(front, s[a])
    {
      assert Scored(r, s[a]);
    }
    forall a, b | 0 <= a < b < |s|
      ensures Before(front, s[a], s[b])
    {
      assert Before(r, s[a], s[b]);
    }
    forall i | Scored(front, i)
      ensures i in s
    {
      assert Scored(r, i);
    }
  }

  lemma DisplayHasScored(r: seq<ProviderRanking>, groups: seq<seq<nat>>, base: nat)
    requires Sorted(r, Flat(groups)) && Grouped(r, Flat(groups), groups)
    ensures multiset(RowsOf(Display(r, groups, base))) == multiset(ScoredOnly(r))
  {
    DisplayAt(r, groups, base);
    assert RowsOf(Display(r, groups, base)) == RowsAt(r, Flat(groups));
    SortedRows(r, Flat(groups));
  }

  lemma OnlyPush(rows: seq<ProviderRanking>, st: Status)
    requires rows != []
    ensures var n := |rows| - 1;
            multiset(Only(rows, st)) == multiset(Only(rows[..n], st)) + Mark(rows[n], st)
  {
    var n := |rows| - 1;
    Joined(Only(rows[..n], st), if rows[n].status == st then [rows[n]] else []);
  }

  function Mark(r: ProviderRanking, st: Status): multiset<ProviderRanking> {
    if r.status == st then multiset{r} else multiset{}
  }

  lemma MarksAddUp(r: ProviderRanking)
    ensures Mark(r, Ranked) + Mark(r, Provisional) + Mark(r, Unranked) == multiset{r}
  {
  }

  /** The rows of the three statuses together. */
  function Parts(rows: seq<ProviderRanking>): multiset<ProviderRanking> {
    multiset(Only(rows, Ranked)) + multiset(Only(rows, Provisional)) + multiset(Only(rows, Unranked))
  }

  lemma Distribute<T>(a: multiset<T>, b: multiset<T>, c: multiset<T>, x: multiset<T>, y: multiset<T>, z: multiset<T>)
    ensures (a + b + c) + (x + y + z) == (a + x) + (b + y) + (c + z)
  {
  }

  lemma PartsPush(rows: seq<ProviderRanking>)
    requires rows != []
    ensures Parts(rows) == Parts(rows[..|rows| - 1]) + multiset{rows[|rows| - 1]}
  {
    var n := |rows| - 1;
    var front, r := rows[..n], rows[n];
    OnlyPush(rows, Ranked);
    OnlyPush(rows, Provisional);
    OnlyPush(rows, Unranked);
    MarksAddUp(r);
    Distribute(multiset(Only(front, Ranked)), multiset(Only(front, Provisional)), multiset(Only(front, Unranked)),
               Mark(r, Ranked), Mark(r, Provisional), Mark(r, Unranked));
  }

  lemma {:induction false} StatusesPartition(rows: seq<ProviderRanking>)
    ensures multiset(rows) == Parts(rows)
  {
    if rows == [] {
      assert Parts(rows) == multiset{};
    } else {
      var n := |rows| - 1;
      StatusesPartition(rows[..n]);
      assert rows == rows[..n] + [rows[n]];
      Joined(rows[..n], [rows[n]]);
      PartsPush(rows);
    }
  }

  lemma RowsOfJoined(x: seq<RankedRow>, y: seq<RankedRow>, z: seq<RankedRow>)
    ensures multiset(RowsOf(x + y + z)) == multiset(RowsOf(x)) + multiset(RowsOf(y)) + multiset(RowsOf(z))
  {
    assert RowsOf(x + y + z) == RowsOf(x) + RowsOf(y) + RowsOf(z);
    Joined(RowsOf(x) + RowsOf(y), RowsOf(z));
    Joined(RowsOf(x), RowsOf(y));
  }

  lemma DisplayedRows(rows: seq<ProviderRanking>, out: seq<RankedRow>, first: seq<seq<nat>>, second: seq<seq<nat>>)
    requires Displayed(rows, out, first, second)
    ensures multiset(RowsOf(out)) == multiset(ScoredOnly(Only(rows, Ranked))) + multiset(ScoredOnly(Only(rows, Provisional))) +
                                     multiset(Only(rows, Unranked))
  {
    DisplayHasScored(Only(rows, Ranked), first, 1);
    DisplayHasScored(Only(rows, Provisional), second, 1 + |first|);
    RowsOfJoined(Display(Only(rows, Ranked), first, 1), Display(Only(rows, Provisional), second, 1 + |first|),
                 Unnumbered(Only(rows, Unranked)));
    assert RowsOf(Unnumbered(Only(rows, Unranked))) == Only(rows, Unranked);
  }

  lemma ScoresGivenMeans(rows: seq<ProviderRanking>)
    ensures ScoresGiven(rows) <==>
            && ScoredOnly(Only(rows, Ranked)) == Only(rows, Ranked)
            && ScoredOnly(Only(rows, Provisional)) == Only(rows, Provisional)
  {
    ScoredCount(Only(rows, Ranked));
    ScoredCount(Only(rows, Provisional));
    if ScoresGiven(rows) {
      AllGiven(rows, Ranked);
      AllGiven(rows, Provisional);
    } else {
      var i :| 0 <= i < |rows| && !rows[i].status.Unranked? && rows[i].score.None?;
      NotAllGiven(rows, i);
    }
  }

  lemma NotAllGiven(rows: seq<ProviderRanking>, i: nat)
    requires i < |rows| && rows[i].score.None?
    ensures ScoredOnly(Only(rows, rows[i].status)) != Only(rows, rows[i].status)
  {
    var o := Only(rows, rows[i].status);
    OnlyHas(rows, rows[i].status);
    assert rows[i] in o;
    var k :| 0 <= k < |o| && o[k] == rows[i];
    ScoredCount(o);
  }

  lemma AllGiven(rows: seq<ProviderRanking>, st: Status)
    requires ScoresGiven(rows) && !st.Unranked?
    ensures forall i :: 0 <= i < |Only(rows, st)| ==> Only(rows, st)[i].score.Some?
  {
    OnlyHas(rows, st);
    forall i | 0 <= i < |Only(rows, st)|
      ensures Only(rows, st)[i].score.Some?
    {
      assert Only(rows, st)[i] in Only(rows, st);
    }
  }

  /** The display loses no row and invents none if and only if every row that is not unranked has
      a score; a ranked row without one would silently disappear. */
  lemma PermutationExactlyWhen(rows: seq<ProviderRanking>, out: seq<RankedRow>, first: seq<seq<nat>>, second: seq<seq<nat>>)
    requires Displayed(rows, out, first, second)
    ensures multiset(RowsOf(out)) == multiset(rows) <==> ScoresGiven(rows)
  {
    DisplayedRows(rows, out, first, second);
    StatusesPartition(rows);
    ScoresGivenMeans(rows);
    ScoredCount(Only(rows, Ranked));
    ScoredCount(Only(rows, Provisional));
    if multiset(RowsOf(out)) == multiset(rows) {
      assert |multiset(RowsOf(out))| == |multiset(rows)|;
    }
  }

  // ---- Rows as ranking writes them -----------------------------------------------------

  /** What every row of a well-formed cohort satisfies. */
  ghost predicate AsRanked(r: ProviderRanking) {
    && (r.score.None? <==> r.status.Unranked?)
    && (r.coverage.None? || r.coverage.value < 0.5 ==> r.status.Unranked?)
    && (r.ci.Some? ==> r.score.Some? && r.ci.value.lower <= r.score.value <= r.ci.value.upper)
  }

  lemma RankedRowsFit(cohort: seq<ProviderInput>, p: ProviderInput)
    requires WellFormed(cohort) && p in cohort
    ensures NonNegative(cohort) && AsRanked(RankOne(cohort, p))
  {
    RowFits(cohort, p);
  }

  /** On rows as ranking writes them the display is a permutation, and a provider with coverage
      below one half never appears before a provider with a score. */
  lemma LowCoverageNeverLeads(rows: seq<ProviderRanking>, out: seq<RankedRow>, first: seq<seq<nat>>, second: seq<seq<nat>>)
    requires Displayed(rows, out, first, second)
    requires forall i :: 0 <= i < |rows| ==> AsRanked(rows[i])
    ensures multiset(RowsOf(out)) == multiset(rows)
    ensures forall j, k :: 0 <= j < k < |out| && out[k].row.score.Some? ==>
                             out[j].row.coverage.Some? && out[j].row.coverage.value >= 0.5
  {
    PermutationExactlyWhen(rows, out, first, second);
    RowsAsRanked(rows, out);
    BlocksInOrder(rows, out, first, second);
    var a := |Flat(first)|;
    var b := a + |Flat(second)|;
    forall j, k | 0 <= j < k < |out| && out[k].row.score.Some?
      ensures out[j].row.coverage.Some? && out[j].row.coverage.value >= 0.5
    {
      TailIsUnranked(out, b, k);
      BlockRow(out, 0, a, j);
      BlockRow(out, a, b, j);
    }
  }

  lemma RowsAsRanked(rows: seq<ProviderRanking>, out: seq<RankedRow>)
    requires multiset(RowsOf(out)) == multiset(rows) && forall i :: 0 <= i < |rows| ==> AsRanked(rows[i])
    ensures forall k :: 0 <= k < |out| ==> AsRanked(out[k].row)
  {
    forall k | 0 <= k < |out|
      ensures AsRanked(out[k].row)
    {
      assert RowsOf(out)[k] in multiset(RowsOf(out));
      assert out[k].row in multiset(rows);
    }
  }

  lemma BlockRow(out: seq<RankedRow>, a: nat, b: nat, j: nat)
    requires a <= b <= |out| && j < |out|
    ensures a <= j < b ==> out[a..b][j - a] == out[j]
  {
  }

  lemma TailIsUnranked(out: seq<RankedRow>, b: nat, k: nat)
    requires k < |out| && b <= |out| && forall x :: x in out[b..] ==> x.row.status == Unranked
    ensures k >= b ==> out[k].row.status == Unranked
  {
    if k >= b {
      assert out[b..][k - b] == out[k];
    }
  }
}
