/** The documented tie rule: displayed providers whose intervals overlap share a rank.

    The rule goes one way and over the whole display.  Within one status it depends on the cuts of the
    display order, the places no overlap reaches across; between statuses no rank is ever shared. */
module DocumentedTies {
  import opened Options
  import opened Intervals
  import opened Ranking
  import opened RankOrder
  import opened DisplayRanks

  ghost predicate OverlapSharesRank(out: seq<RankedRow>) {
    forall j, k :: 0 <= j < k < |out| && Overlap(out[j].row, out[k].row) ==> out[j].rank == out[k].rank
  }

  // ---- Cuts and leaders ----------------------------------------------------------------

  /** No row before place k overlaps a row from k on. */
  ghost predicate Cut(r: seq<ProviderRanking>, s: seq<nat>, k: nat) {
    forall a, b :: 0 <= a < k <= b < |s| ==> !OverlapAt(r, s, a, b)
  }

  ghost function LastCut(r: seq<ProviderRanking>, s: seq<nat>, k: nat): nat {
    if k == 0 || Cut(r, s, k) then k else LastCut(r, s, k - 1)
  }

  /** Every row overlaps the first row after the last cut. */
  ghost predicate Anchored(r: seq<ProviderRanking>, s: seq<nat>) {
    forall k :: 0 <= k < |s| && LastCut(r, s, k) != k ==> OverlapAt(r, s, LastCut(r, s, k), k)
  }

  lemma {:induction false} LastCutIsCut(r: seq<ProviderRanking>, s: seq<nat>, k: nat)
    ensures LastCut(r, s, k) <= k && Cut(r, s, LastCut(r, s, k))
  {
    if k > 0 && !Cut(r, s, k) {
      LastCutIsCut(r, s, k - 1);
    }
  }

  /** The first place of the group of place k. */
  function Leader(groups: seq<seq<nat>>, k: nat): nat
    requires k < |Flat(groups)|
  {
    if k == 0 || GroupAt(groups, k - 1) != GroupAt(groups, k) then k else Leader(groups, k - 1)
  }

  lemma {:induction false} LeaderInGroup(groups: seq<seq<nat>>, k: nat)
    requires k < |Flat(groups)|
    ensures Leader(groups, k) <= k && GroupAt(groups, Leader(groups, k)) == GroupAt(groups, k)
  {
    if k > 0 && GroupAt(groups, k - 1) == GroupAt(groups, k) {
      LeaderInGroup(groups, k - 1);
    }
  }

  lemma {:induction false} LeaderOfPrefix(groups: seq<seq<nat>>, k: nat)
    requires groups != [] && k < |Flat(groups[..|groups| - 1])|
    ensures Leader(groups, k) == Leader(groups[..|groups| - 1], k)
  {
    if k > 0 {
      LeaderOfPrefix(groups, k - 1);
    }
  }

  lemma {:induction false} LeaderOfLast(groups: seq<seq<nat>>, k: nat)
    requires groups != [] && |Flat(groups[..|groups| - 1])| <= k < |Flat(groups)|
    ensures Leader(groups, k) == |Flat(groups[..|groups| - 1])|
    decreases k
  {
    var m := |Flat(groups[..|groups| - 1])|;
    if k > m {
      LeaderOfLast(groups, k - 1);
    } else if k > 0 {
      GroupAtBelow(groups[..|groups| - 1], k - 1);
    }
  }

  /** A row overlaps the leader of its group, and a leader does not overlap the one before it. */
  ghost predicate LeaderRule(r: seq<ProviderRanking>, groups: seq<seq<nat>>, k: nat)
    requires k < |Flat(groups)|
  {
    if Leader(groups, k) < k then OverlapAt(r, Flat(groups), Leader(groups, k), k)
    else k > 0 ==> !OverlapAt(r, Flat(groups), Leader(groups, k - 1), k)
  }

  lemma {:induction false} LeadersRule(r: seq<ProviderRanking>, groups: seq<seq<nat>>, k: nat)
    requires Grouped(r, Flat(groups), groups) && k < |Flat(groups)|
    ensures LeaderRule(r, groups, k)
    decreases |groups|
  {
    var n := |groups| - 1;
    var front := groups[..n];
    var m := |Flat(front)|;
    if k < m {
      AllButLast(r, groups);
      LeadersRule(r, front, k);
      LeaderOfPrefix(groups, k);
      PrefixOverlap(r, groups);
      LeaderInGroup(groups, k);
      if k > 0 {
        LeaderOfPrefix(groups, k - 1);
        LeaderInGroup(groups, k - 1);
      }
    } else {
      LeaderOfLast(groups, k);
      LastGroup(r, groups);
      if k == m > 0 {
        LastLeaders(r, groups);
      }
    }
  }

  lemma LastLeaders(r: seq<ProviderRanking>, groups: seq<seq<nat>>)
    requires Grouped(r, Flat(groups), groups) && groups != []
    requires var m := |Flat(groups[..|groups| - 1])|; 0 < m < |Flat(groups)|
    ensures var m := |Flat(groups[..|groups| - 1])|; !OverlapAt(r, Flat(groups), Leader(groups, m - 1), m)
  {
    var n := |groups| - 1;
    var front := groups[..n];
    var m := |Flat(front)|;
    LeaderOfPrefix(groups, m - 1);
    assert front[..n - 1] == groups[..n - 1];
    LeaderOfLast(front, m - 1);
    LastLeadersApart(r, groups);
  }

  // ---- Within one list -----------------------------------------------------------------

  ghost predicate OverlapSharesGroup(r: seq<ProviderRanking>, groups: seq<seq<nat>>) {
    forall a, b {:trigger GroupAt(groups, a), GroupAt(groups, b)} ::
      0 <= a < b < |Flat(groups)| && OverlapAt(r, Flat(groups), a, b) ==> GroupAt(groups, a) == GroupAt(groups, b)
  }

  /** Nothing overlaps across a cut, so a cut starts a group. */
  lemma CutStartsGroup(r: seq<ProviderRanking>, groups: seq<seq<nat>>, k: nat)
    requires Grouped(r, Flat(groups), groups) && 0 < k < |Flat(groups)| && Cut(r, Flat(groups), k)
    ensures Leader(groups, k) == k
  {
    LeadersRule(r, groups, k);
    LeaderInGroup(groups, k);
  }

  lemma {:induction false} AnchoredLeaders(r: seq<ProviderRanking>, groups: seq<seq<nat>>, k: nat)
    requires Grouped(r, Flat(groups), groups) && Anchored(r, Flat(groups)) && k < |Flat(groups)|
    ensures Leader(groups, k) == LastCut(r, Flat(groups), k)
  {
    var s := Flat(groups);
    if k > 0 {
      AnchoredLeaders(r, groups, k - 1);
      if Cut(r, s, k) {
        CutStartsGroup(r, groups, k);
      } else {
        LastCutIsCut(r, s, k - 1);
        LeadersRule(r, groups, k);
      }
    }
  }

  lemma AnchoredShares(r: seq<ProviderRanking>, groups: seq<seq<nat>>)
    requires Grouped(r, Flat(groups), groups) && Anchored(r, Flat(groups))
    ensures OverlapSharesGroup(r, groups)
  {
    var s := Flat(groups);
    forall a, b | 0 <= a < b < |s| && OverlapAt(r, s, a, b) ensures GroupAt(groups, a) == GroupAt(groups, b) {
      AnchoredLeaders(r, groups, b);
      LastCutIsCut(r, s, b);
      LeaderInGroup(groups, b);
      GroupAtMonotone(groups, Leader(groups, b), a);
      GroupAtMonotone(groups, a, b);
    }
  }

  lemma {:induction false} SharedLeaders(r: seq<ProviderRanking>, groups: seq<seq<nat>>, k: nat)
    requires Grouped(r, Flat(groups), groups) && OverlapSharesGroup(r, groups) && k < |Flat(groups)|
    ensures Leader(groups, k) == LastCut(r, Flat(groups), k)
  {
    var s := Flat(groups);
    if k > 0 {
      SharedLeaders(r, groups, k - 1);
      if Cut(r, s, k) {
        CutStartsGroup(r, groups, k);
      } else {
        var a, b :| 0 <= a < k <= b < |s| && OverlapAt(r, s, a, b);
        assert GroupAt(groups, a) == GroupAt(groups, b);
        GroupAtMonotone(groups, a, k - 1);
        GroupAtMonotone(groups, k - 1, k);
        GroupAtMonotone(groups, k, b);
      }
    }
  }

  /** Within one list, overlapping rows share a group if and only if every row overlaps the first
      row after the last cut. */
  lemma SharesExactlyWhenAnchored(r: seq<ProviderRanking>, groups: seq<seq<nat>>)
    requires Grouped(r, Flat(groups), groups)
    ensures OverlapSharesGroup(r, groups) <==> Anchored(r, Flat(groups))
  {
    if Anchored(r, Flat(groups)) {
      AnchoredShares(r, groups);
    }
    if OverlapSharesGroup(r, groups) {
      forall k | 0 <= k < |Flat(groups)| && LastCut(r, Flat(groups), k) != k
        ensures OverlapAt(r, Flat(groups), LastCut(r, Flat(groups), k), k)
      {
        SharedLeaders(r, groups, k);
        LeaderInGroup(groups, k);
        LeadersRule(r, groups, k);
      }
    }
  }

  predicate Above(x: ProviderRanking, y: ProviderRanking) {
    x.ci.Some? && y.ci.Some? ==> x.ci.value.lower > y.ci.value.upper
  }

  /** In display order a cut is a place where every lower bound before exceeds every upper bound after. */
  lemma CutByBounds(r: seq<ProviderRanking>, s: seq<nat>, k: nat)
    requires Sorted(r, s) && forall x :: x in r ==> AsRanked(x)
    ensures Cut(r, s, k) <==>
            forall a, b :: 0 <= a < k <= b < |s| && Scored(r, s[a]) && Scored(r, s[b]) ==> Above(r[s[a]], r[s[b]])
  {
    forall a, b | 0 <= a < k <= b < |s|
      ensures Scored(r, s[a]) && Scored(r, s[b]) && (OverlapAt(r, s, a, b) <==> !Above(r[s[a]], r[s[b]]))
    {
      assert Before(r, s[a], s[b]);
      assert r[s[a]] in r && r[s[b]] in r;
    }
  }

  // ---- The whole display ---------------------------------------------------------------

  /** The rows a display shows. */
  predicate Shown(x: ProviderRanking) {
    x.status.Unranked? || x.score.Some?
  }

  /** No two shown rows of different status overlap. */
  ghost predicate StatusesApart(rows: seq<ProviderRanking>) {
    forall x, y :: x in rows && y in rows && Shown(x) && Shown(y) && x.status != y.status ==> !Overlap(x, y)
  }

  lemma BlockShares(r: seq<ProviderRanking>, groups: seq<seq<nat>>, base: nat)
    requires Grouped(r, Flat(groups), groups)
    ensures OverlapSharesRank(Display(r, groups, base)) <==> OverlapSharesGroup(r, groups)
  {
    DisplayAt(r, groups, base);
    var d, s := Display(r, groups, base), Flat(groups);
    forall a, b | 0 <= a < b < |s|
      ensures Overlap(d[a].row, d[b].row) == OverlapAt(r, s, a, b)
      ensures (d[a].rank == d[b].rank) == (GroupAt(groups, a) == GroupAt(groups, b))
    {
    }
    if OverlapSharesRank(d) {
      forall a, b | 0 <= a < b < |s| && OverlapAt(r, s, a, b) ensures GroupAt(groups, a) == GroupAt(groups, b) {
        assert d[a].rank == d[b].rank;
      }
    }
  }

  /** The three parts of a display, their ranks apart. */
  ghost predicate RanksApart(x: seq<RankedRow>, y: seq<RankedRow>) {
    forall p, q :: p in x && q in y ==> p.rank != q.rank && p.row.status != q.row.status
  }

  ghost predicate NoOverlap(x: seq<RankedRow>, y: seq<RankedRow>) {
    forall p, q :: p in x && q in y ==> !Overlap(p.row, q.row) && !Overlap(q.row, p.row)
  }

  lemma JoinedShares(x: seq<RankedRow>, y: seq<RankedRow>)
    requires RanksApart(x, y)
    ensures OverlapSharesRank(x + y) <==> OverlapSharesRank(x) && OverlapSharesRank(y) && NoOverlap(x, y)
  {
    var out := x + y;
    if OverlapSharesRank(out) {
      forall j, k | 0 <= j < k < |x| && Overlap(x[j].row, x[k].row) ensures x[j].rank == x[k].rank {
        assert out[j] == x[j] && out[k] == x[k];
      }
      forall j, k | 0 <= j < k < |y| && Overlap(y[j].row, y[k].row) ensures y[j].rank == y[k].rank {
        assert out[|x| + j] == y[j] && out[|x| + k] == y[k];
      }
      forall p, q | p in x && q in y ensures !Overlap(p.row, q.row) {
        var j :| 0 <= j < |x| && x[j] == p;
        var k :| 0 <= k < |y| && y[k] == q;
        assert out[j] == p && out[|x| + k] == q;
      }
    }
  }

  lemma UnnumberedShares(rows: seq<ProviderRanking>)
    ensures OverlapSharesRank(Unnumbered(rows))
  {
  }

  ghost predicate Shows(d: seq<RankedRow>, x: ProviderRanking) {
    exists p :: p in d && p.row == x
  }

  /** The part of a display that shows the rows of one status. */
  ghost predicate Part(rows: seq<ProviderRanking>, st: Status, d: seq<RankedRow>) {
    && (forall p :: p in d ==> p.row in rows && Shown(p.row) && p.row.status == st)
    && (forall x :: x in rows && Shown(x) && x.status == st ==> Shows(d, x))
  }

  lemma RankedPart(rows: seq<ProviderRanking>, st: Status, groups: seq<seq<nat>>, base: nat)
    requires !st.Unranked?
    requires Sorted(Only(rows, st), Flat(groups)) && Grouped(Only(rows, st), Flat(groups), groups)
    ensures Part(rows, st, Display(Only(rows, st), groups, base))
    ensures forall p :: p in Display(Only(rows, st), groups, base) ==> base <= p.rank < base + |groups|
  {
    var o, d, s := Only(rows, st), Display(Only(rows, st), groups, base), Flat(groups);
    OnlyHas(rows, st);
    DisplayAt(o, groups, base);
    forall k | 0 <= k < |d|
      ensures d[k].row in rows && Shown(d[k].row) && d[k].row.status == st && base <= d[k].rank < base + |groups|
    {
      assert Scored(o, s[k]);
      assert o[s[k]] in o;
    }
    forall x | x in rows && x.status == st && Shown(x) ensures Shows(d, x) {
      var i :| 0 <= i < |o| && o[i] == x;
      assert Scored(o, i);
      var k :| 0 <= k < |s| && s[k] == i;
      assert d[k] in d && d[k].row == x;
    }
  }

  lemma UnrankedPart(rows: seq<ProviderRanking>)
    ensures Part(rows, Unranked, Unnumbered(Only(rows, Unranked)))
    ensures forall p :: p in Unnumbered(Only(rows, Unranked)) ==> p.rank == 0
  {
    var o, u := Only(rows, Unranked), Unnumbered(Only(rows, Unranked));
    OnlyHas(rows, Unranked);
    forall k | 0 <= k < |u| ensures u[k].row in rows && u[k].row.status == Unranked && u[k].rank == 0 {
      assert o[k] in o;
    }
    forall x | x in rows && x.status == Unranked ensures Shows(u, x) {
      var k :| 0 <= k < |o| && o[k] == x;
      assert u[k] in u && u[k].row == x;
    }
  }

  lemma ThreeParts(x: seq<RankedRow>, y: seq<RankedRow>, z: seq<RankedRow>)
    requires RanksApart(x, y) && RanksApart(x, z) && RanksApart(y, z)
    ensures OverlapSharesRank(x + y + z) <==>
            && OverlapSharesRank(x) && OverlapSharesRank(y) && OverlapSharesRank(z)
            && NoOverlap(x, y) && NoOverlap(x, z) && NoOverlap(y, z)
  {
    JoinedShares(x, y);
    JoinedShares(x + y, z);
    assert NoOverlap(x + y, z) <==> NoOverlap(x, z) && NoOverlap(y, z) by {
      assert forall p :: p in x + y <==> p in x || p in y;
    }
  }

  /** Two statuses whose rows never overlap. */
  ghost predicate Apart(rows: seq<ProviderRanking>, a: Status, b: Status) {
    forall x, y :: x in rows && y in rows && Shown(x) && Shown(y) && x.status == a && y.status == b ==> !Overlap(x, y)
  }

  lemma NoOverlapExactly(rows: seq<ProviderRanking>, a: Status, b: Status, x: seq<RankedRow>, y: seq<RankedRow>)
    requires Part(rows, a, x) && Part(rows, b, y)
    ensures NoOverlap(x, y) <==> Apart(rows, a, b)
  {
    if NoOverlap(x, y) {
      forall u, v | u in rows && v in rows && Shown(u) && Shown(v) && u.status == a && v.status == b
        ensures !Overlap(u, v)
      {
        assert Shows(x, u) && Shows(y, v);
      }
    }
  }

  lemma StatusesApartExactly(rows: seq<ProviderRanking>)
    ensures StatusesApart(rows) <==>
            Apart(rows, Ranked, Provisional) && Apart(rows, Ranked, Unranked) && Apart(rows, Provisional, Unranked)
  {
  }

  /** The documented rule holds of a display if and only if, within the ranked and within the
      provisional rows, every row overlaps the first row after the last cut, and no two rows of
      different status overlap. */
  lemma RuleExactlyWhen(rows: seq<ProviderRanking>, out: seq<RankedRow>, first: seq<seq<nat>>, second: seq<seq<nat>>)
    requires Displayed(rows, out, first, second)
    ensures OverlapSharesRank(out) <==>
            && Anchored(Only(rows, Ranked), Flat(first))
            && Anchored(Only(rows, Provisional), Flat(second))
            && StatusesApart(rows)
  {
    var x, y := Display(Only(rows, Ranked), first, 1), Display(Only(rows, Provisional), second, 1 + |first|);
    var z := Unnumbered(Only(rows, Unranked));
    RankedPart(rows, Ranked, first, 1);
    RankedPart(rows, Provisional, second, 1 + |first|);
    UnrankedPart(rows);
    ThreeParts(x, y, z);
    NoOverlapExactly(rows, Ranked, Provisional, x, y);
    NoOverlapExactly(rows, Ranked, Unranked, x, z);
    NoOverlapExactly(rows, Provisional, Unranked, y, z);
    StatusesApartExactly(rows);
    BlockShares(Only(rows, Ranked), first, 1);
    BlockShares(Only(rows, Provisional), second, 1 + |first|);
    SharesExactlyWhenAnchored(Only(rows, Ranked), first);
    SharesExactlyWhenAnchored(Only(rows, Provisional), second);
    UnnumberedShares(Only(rows, Unranked));
  }

  // ---- Inputs --------------------------------------------------------------------------

  ghost predicate ThreeInOrder(r: seq<ProviderRanking>, groups: seq<seq<nat>>) {
    && |r| == 3 && StrictlySorted(r, HigherScore) && (forall x :: x in r ==> x.score.Some?)
    && Sorted(r, Flat(groups)) && Grouped(r, Flat(groups), groups)
  }

  lemma ThreePlaces(r: seq<ProviderRanking>, groups: seq<seq<nat>>)
    requires ThreeInOrder(r, groups)
    ensures |Flat(groups)| == 3
    ensures forall a, b :: 0 <= a < b < 3 ==> (OverlapAt(r, Flat(groups), a, b) <==> Overlap(r[a], r[b]))
  {
    var s := Flat(groups);
    AlreadyInOrder(r, s);
    forall a | 0 <= a < 3 ensures s[a] < |r| && r[s[a]] == r[a] {
      assert RowsAt(r, s)[a] == r[s[a]];
    }
  }

  /** Of three rows that hang together in a chain, the rule asks that the first overlap the last. */
  lemma ThreeRowsExactly(r: seq<ProviderRanking>, groups: seq<seq<nat>>)
    requires ThreeInOrder(r, groups) && Overlap(r[0], r[1]) && (Overlap(r[0], r[2]) || Overlap(r[1], r[2]))
    ensures OverlapSharesGroup(r, groups) <==> Overlap(r[0], r[2])
  {
    var s := Flat(groups);
    ThreePlaces(r, groups);
    assert OverlapAt(r, s, 0, 1) && (OverlapAt(r, s, 0, 2) || OverlapAt(r, s, 1, 2));
    assert !Cut(r, s, 1) && !Cut(r, s, 2);
    assert LastCut(r, s, 1) == 0 && LastCut(r, s, 2) == LastCut(r, s, 1);
    SharesExactlyWhenAnchored(r, groups);
  }

  function WideLeader(): seq<ProviderRanking> {
    [Example(0, 0.8, 0.3, 1.0), Example(1, 0.75, 0.73, 0.77), Example(2, 0.4, 0.35, 0.45)]
  }

  /** One group under a wide leader: the rule holds, although two rows of the group do not overlap. */
  lemma WideLeaderObeysRule(groups: seq<seq<nat>>)
    requires Sorted(WideLeader(), Flat(groups)) && Grouped(WideLeader(), Flat(groups), groups)
    ensures OverlapSharesGroup(WideLeader(), groups) && !Convex(WideLeader(), Flat(groups))
  {
    var r := WideLeader();
    assert StrictlySorted(r, HigherScore);
    ThreeRowsExactly(r, groups);
    ThreePlaces(r, groups);
    assert !ConvexTriple(r, Flat(groups), 0, 1, 2);
  }

  function RankedAndProvisional(): seq<ProviderRanking> {
    [Example(0, 0.9, 0.8, 1.0), Example(1, 0.85, 0.75, 0.95).(status := Provisional)]
  }

  lemma OneRowList(r: seq<ProviderRanking>, s: seq<nat>)
    requires |r| == 1 && r[0].score.Some? && Sorted(r, s)
    ensures |s| == 1
  {
    SortedRows(r, s);
    ScoredCount(r);
    assert |multiset(RowsAt(r, s))| == |multiset(r)|;
  }

  lemma TwoLists()
    ensures Only(RankedAndProvisional(), Ranked) == [RankedAndProvisional()[0]]
    ensures Only(RankedAndProvisional(), Provisional) == [RankedAndProvisional()[1]]
  {
    var rows := RankedAndProvisional();
    assert rows[..1] == [rows[0]];
    forall st: Status ensures Only(rows[..1], st) == if st == Ranked then [rows[0]] else [] {
      assert rows[..1][..0] == [];
    }
  }

  /** A ranked and a provisional row overlap and are displayed under ranks 1 and 2. */
  lemma StatusBreaksRule(out: seq<RankedRow>, first: seq<seq<nat>>, second: seq<seq<nat>>)
    requires Displayed(RankedAndProvisional(), out, first, second)
    ensures |out| >= 2 && out[0].rank == 1 && out[1].rank == 2 && !OverlapSharesRank(out)
  {
    var rows := RankedAndProvisional();
    assert rows[0] in rows && rows[1] in rows && Overlap(rows[0], rows[1]);
    RuleExactlyWhen(rows, out, first, second);
    TwoLists();
    OneRowList(Only(rows, Ranked), Flat(first));
    OneRowList(Only(rows, Provisional), Flat(second));
    BlocksInOrder(rows, out, first, second);
    assert out[..1][0] == out[0] && out[1..2][0] == out[1];
  }

  /** Three rows in a chain: the middle one overlaps the last, which is ranked below it. */
  lemma ChainBreaksRule(groups: seq<seq<nat>>)
    requires Sorted(ExampleRows(), Flat(groups)) && Grouped(ExampleRows(), Flat(groups), groups)
    ensures !OverlapSharesGroup(ExampleRows(), groups)
  {
    assert StrictlySorted(ExampleRows(), HigherScore);
    ThreeRowsExactly(ExampleRows(), groups);
  }
}
