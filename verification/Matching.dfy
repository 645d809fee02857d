/**
 The bipartite search of `report`: bisect windows over sorted groups, truncation at the
 neighbour limit, the saturation veto and degrees. The fast search is proved against the
 complete graph, in which every opposite source inside the window is a neighbour.
 */
module Matching {
  import opened Ordering
  import opened Sources

  datatype Evidence = ExactEvidence | ProbableEvidence | IncompatibleEvidence

  datatype Verdict = Verdict(score: int, evidence: Evidence)

  datatype AccountLookup = UniqueAccount | NoUniqueAccount | InvalidReference

  /** The matching engine and the account service, kept abstract. */
  datatype Engine = Engine(
    compare: (string, string) -> Verdict, window: nat, maxNeighbors: nat,
    account: Source -> AccountLookup)

  datatype Edge = Edge(house: Source, tip: Source, verdict: Verdict)

  predicate Strong(v: Verdict) {
    v.evidence.ExactEvidence? || v.evidence.ProbableEvidence?
  }

  // ---------------------------------------------------------------- groups and windows

  function SlotOf(s: Source): (int, int) {
    (s.occurrence, s.id)
  }

  function OfSide(all: seq<Source>, house: string, casa: bool): (r: seq<Source>) {
    if all == [] then
      []
    else
      var n := |all| - 1;
      OfSide(all[..n], house, casa)
      + if all[n].house == house && IsCasa(all[n]) == casa then [all[n]] else []
  }

  function Group(all: seq<Source>, house: string, casa: bool): seq<Source> {
    SortBy(OfSide(all, house, casa), SlotOf)
  }

  function Times(group: seq<Source>): (r: seq<int>)
    ensures |r| == |group|
    ensures forall i :: 0 <= i < |group| ==> r[i] == group[i].occurrence
  {
    if group == [] then [] else [group[0].occurrence] + Times(group[1..])
  }

  ghost predicate Ascending(times: seq<int>) {
    forall i, j :: 0 <= i < j < |times| ==> times[i] <= times[j]
  }

  /** Python's bisect_left: the first position whose value is not below `x`. */
  function BisectLeft(times: seq<int>, x: int): (i: nat)
    ensures i <= |times|
    ensures Ascending(times) ==>
              && (forall k :: 0 <= k < i ==> times[k] < x)
              && (forall k :: i <= k < |times| ==> x <= times[k])
  {
    if times == [] || x <= times[0] then 0 else 1 + BisectLeft(times[1..], x)
  }

  /** Python's bisect_right: the first position whose value is above `x`. */
  function BisectRight(times: seq<int>, x: int): (i: nat)
    ensures i <= |times|
    ensures Ascending(times) ==>
              && (forall k :: 0 <= k < i ==> times[k] <= x)
              && (forall k :: i <= k < |times| ==> x < times[k])
  {
    if times == [] || x < times[0] then 0 else 1 + BisectRight(times[1..], x)
  }

  function Opposite(all: seq<Source>, s: Source): seq<Source> {
    Group(all, s.house, !IsCasa(s))
  }

  /** Both bisections around one instant: exactly the positions within `w` of `x`. */
  function Span(times: seq<int>, x: int, w: nat): (b: (nat, nat))
    requires Ascending(times)
    ensures b.0 <= b.1 <= |times|
    ensures forall k :: 0 <= k < |times| ==> (b.0 <= k < b.1 <==> x - w <= times[k] <= x + w)
  {
    var left := BisectLeft(times, x - w);
    var right := BisectRight(times, x + w);
    assert left > 0 ==> times[left - 1] <= x + w;
    (left, right)
  }

  /** Positions of the window around `s` in the opposite group. */
  function Bounds(all: seq<Source>, s: Source, e: Engine): (b: (nat, nat))
    ensures b.0 <= b.1 <= |Opposite(all, s)|
    ensures forall k :: 0 <= k < |Opposite(all, s)| ==>
              (b.0 <= k < b.1 <==>
               s.occurrence - e.window <= Opposite(all, s)[k].occurrence <= s.occurrence + e.window)
  {
    GroupAscends(all, s.house, !IsCasa(s));
    Span(Times(Opposite(all, s)), s.occurrence, e.window)
  }

  lemma GroupAscends(all: seq<Source>, house: string, casa: bool)
    ensures Ascending(Times(Group(all, house, casa)))
  {
  }

  /** Everything inside the window, truncated or not. */
  function Window(all: seq<Source>, s: Source, e: Engine): seq<Source> {
    var (left, right) := Bounds(all, s, e);
    Opposite(all, s)[left..right]
  }

  predicate Saturated(all: seq<Source>, s: Source, e: Engine) {
    var (left, right) := Bounds(all, s, e);
    right - left > e.maxNeighbors
  }

  function Min(a: int, b: int): int {
    if a < b then a else b
  }

  /** What the search actually looks at. */
  function Neighbors(all: seq<Source>, s: Source, e: Engine): seq<Source> {
    var (left, right) := Bounds(all, s, e);
    Opposite(all, s)[left..Min(right, left + e.maxNeighbors)]
  }

  predicate NearSaturated(all: seq<Source>, s: Source, e: Engine) {
    exists n :: n in Neighbors(all, s, e) && Saturated(all, n, e)
  }

  predicate Vetoed(all: seq<Source>, s: Source, e: Engine) {
    Saturated(all, s, e) || NearSaturated(all, s, e)
  }

  function SaturatedIds(all: seq<Source>, e: Engine): set<nat> {
    set s | s in all && Saturated(all, s, e) :: s.id
  }

  function VetoIds(all: seq<Source>, e: Engine): set<nat> {
    set s | s in all && Vetoed(all, s, e) :: s.id
  }

  // ---------------------------------------------------------------- edges and degrees

  function EdgesAt(h: Source, tips: seq<Source>, e: Engine): (r: seq<Edge>)
    ensures |r| == |tips|
    ensures forall i :: 0 <= i < |tips| ==>
              r[i] == Edge(h, tips[i], e.compare(h.evidence, tips[i].evidence))
  {
    if tips == [] then
      []
    else
      var n := |tips| - 1;
      EdgesAt(h, tips[..n], e) + [Edge(h, tips[n], e.compare(h.evidence, tips[n].evidence))]
  }

  function EdgesFrom(scanned: seq<Source>, all: seq<Source>, e: Engine): seq<Edge> {
    if scanned == [] then
      []
    else
      var n := |scanned| - 1;
      EdgesFrom(scanned[..n], all, e)
      + if IsCasa(scanned[n]) then EdgesAt(scanned[n], Neighbors(all, scanned[n], e), e) else []
  }

  function Edges(all: seq<Source>, e: Engine): seq<Edge> {
    EdgesFrom(all, all, e)
  }

  predicate Touches(edge: Edge, id: nat) {
    Strong(edge.verdict) && (edge.house.id == id || edge.tip.id == id)
  }

  function Degree(edges: seq<Edge>, id: nat): nat {
    if edges == [] then
      0
    else
      var n := |edges| - 1;
      Degree(edges[..n], id) + if Touches(edges[n], id) then 1 else 0
  }

  // ---------------------------------------------------------------- the complete graph

  /** `o` is an opposite source of the same house within the symmetric window around `s`. */
  ghost predicate Reach(all: seq<Source>, s: Source, o: Source, e: Engine) {
    && s in all && o in all
    && s.house == o.house && IsCasa(s) != IsCasa(o)
    && s.occurrence - e.window <= o.occurrence <= s.occurrence + e.window
  }

  ghost predicate FullEdge(all: seq<Source>, h: Source, t: Source, e: Engine) {
    Reach(all, h, t, e) && IsCasa(h) && Strong(e.compare(h.evidence, t.evidence))
  }

  /** No other complete edge at either end. */
  ghost predicate Isolated(all: seq<Source>, h: Source, t: Source, e: Engine) {
    && (forall t' :: FullEdge(all, h, t', e) ==> t' == t)
    && (forall h' :: FullEdge(all, h', t, e) ==> h' == h)
  }

  ghost predicate Crowded(all: seq<Source>, s: Source, e: Engine) {
    |set o | o in all && Reach(all, s, o, e)| > e.maxNeighbors
  }

  /** Neither `s` nor anything it can reach has more partners than the search looks at. */
  ghost predicate SearchComplete(all: seq<Source>, s: Source, e: Engine) {
    !Crowded(all, s, e) && forall o :: Reach(all, s, o, e) ==> !Crowded(all, o, e)
  }

  // ---------------------------------------------------------------- windows are exact

  lemma {:induction false} SideMembers(all: seq<Source>, house: string, casa: bool)
    requires Scanned(all)
    ensures forall s :: s in OfSide(all, house, casa) <==>
                          s in all && s.house == house && IsCasa(s) == casa
    ensures Scanned(OfSide(all, house, casa))
  {
    if all == [] {
    } else {
      var n := |all| - 1;
      var rest := OfSide(all[..n], house, casa);
      SideMembers(all[..n], house, casa);
      SplitMembers(all, n);
      forall i | 0 <= i < |rest| ensures rest[i].id < all[n].id {
        assert rest[i] in all[..n];
      }
      ScannedAppend(rest, all[n]);
    }
  }

  lemma SplitMembers(all: seq<Source>, n: nat)
    requires n == |all| - 1
    ensures forall s :: s in all <==> s in all[..n] || s == all[n]
  {
  }

  lemma ScannedAppend(rest: seq<Source>, s: Source)
    requires Scanned(rest) && 0 < s.id && forall i :: 0 <= i < |rest| ==> rest[i].id < s.id
    ensures Scanned(rest + [s])
  {
  }

  lemma OppositeMembers(all: seq<Source>, s: Source)
    requires Scanned(all)
    ensures forall o :: o in Opposite(all, s) <==>
                          o in all && o.house == s.house && IsCasa(o) != IsCasa(s)
    ensures Distinct(Opposite(all, s))
  {
    SideMembers(all, s.house, !IsCasa(s));
    assert Distinct(OfSide(all, s.house, !IsCasa(s)));
  }

  lemma SliceMembers(g: seq<Source>, left: nat, right: nat, lo: int, hi: int)
    requires left <= right <= |g|
    requires forall k :: 0 <= k < |g| ==> (left <= k < right <==> lo <= g[k].occurrence <= hi)
    ensures forall o :: o in g[left..right] <==> o in g && lo <= o.occurrence <= hi
    ensures Distinct(g) ==> Distinct(g[left..right])
  {
  }

  lemma WindowIsReach(all: seq<Source>, s: Source, e: Engine)
    requires Scanned(all) && s in all
    ensures forall o :: o in Window(all, s, e) <==> Reach(all, s, o, e)
    ensures Distinct(Window(all, s, e))
  {
    var (left, right) := Bounds(all, s, e);
    OppositeMembers(all, s);
    SliceMembers(Opposite(all, s), left, right, s.occurrence - e.window, s.occurrence + e.window);
  }

  lemma NeighborsTruncate(all: seq<Source>, s: Source, e: Engine)
    ensures var w := Window(all, s, e);
            && (Saturated(all, s, e) <==> |w| > e.maxNeighbors)
            && Neighbors(all, s, e) == w[..Min(|w|, e.maxNeighbors)]
  {
    hide Opposite;
    var (left, right) := Bounds(all, s, e);
    var g, cut := Opposite(all, s), Min(right, left + e.maxNeighbors);
    assert g[left..right][..cut - left] == g[left..cut];
  }

  lemma NeighborsDistinct(all: seq<Source>, s: Source, e: Engine)
    requires Scanned(all) && s in all
    ensures Distinct(Neighbors(all, s, e))
  {
    WindowIsReach(all, s, e);
    NeighborsTruncate(all, s, e);
  }

  lemma SaturatedIsCrowded(all: seq<Source>, s: Source, e: Engine)
    requires Scanned(all) && s in all
    ensures Saturated(all, s, e) <==> Crowded(all, s, e)
    ensures !Saturated(all, s, e) ==> Neighbors(all, s, e) == Window(all, s, e)
    ensures forall n :: n in Neighbors(all, s, e) ==> Reach(all, s, n, e)
  {
    var w := Window(all, s, e);
    WindowIsReach(all, s, e);
    NeighborsTruncate(all, s, e);
    DistinctLength(w);
    assert (set o | o in w) == set o | o in all && Reach(all, s, o, e);
  }

  /** The veto, decided on truncated neighbours, is exactly incompleteness in the full graph. */
  lemma VetoIsExact(all: seq<Source>, s: Source, e: Engine)
    requires Scanned(all) && s in all
    ensures s.id in VetoIds(all, e) <==> !SearchComplete(all, s, e)
  {
    SaturatedIsCrowded(all, s, e);
    WindowIsReach(all, s, e);
    forall o | Reach(all, s, o, e) ensures Saturated(all, o, e) <==> Crowded(all, o, e) {
      SaturatedIsCrowded(all, o, e);
    }
    assert Vetoed(all, s, e) <==> !SearchComplete(all, s, e);
    forall o | o in all && o.id == s.id ensures o == s {
      IdNamesSource(all, o, s);
    }
  }

  // ---------------------------------------------------------------- edges are exact

  predicate IsEdgeOf(x: Edge, h: Source, tips: seq<Source>, e: Engine) {
    && x.house == h && x.tip in tips
    && x.verdict == e.compare(h.evidence, x.tip.evidence)
  }

  lemma BlockMembers(h: Source, tips: seq<Source>, e: Engine)
    ensures forall x: Edge :: x in EdgesAt(h, tips, e) <==> IsEdgeOf(x, h, tips, e)
    ensures Distinct(tips) ==> Distinct(EdgesAt(h, tips, e))
  {
  }

  lemma {:induction false} EdgeMembers(scanned: seq<Source>, all: seq<Source>, e: Engine)
    ensures forall x: Edge :: x in EdgesFrom(scanned, all, e) <==>
              x.house in scanned && IsCasa(x.house)
              && IsEdgeOf(x, x.house, Neighbors(all, x.house, e), e)
  {
    if scanned == [] {
    } else {
      var n := |scanned| - 1;
      EdgeMembers(scanned[..n], all, e);
      assert scanned == scanned[..n] + [scanned[n]];
      BlockMembers(scanned[n], Neighbors(all, scanned[n], e), e);
    }
  }

  lemma DistinctConcat<T(!new)>(a: seq<T>, b: seq<T>)
    requires Distinct(a) && Distinct(b) && forall x :: x in a ==> x !in b
    ensures Distinct(a + b)
  {
    forall i, j | 0 <= i < j < |a + b| ensures (a + b)[i] != (a + b)[j] {
      if i < |a| {
        assert (a + b)[i] in a;
      }
    }
  }

  lemma {:induction false} EdgesDistinct(scanned: seq<Source>, all: seq<Source>, e: Engine)
    requires Scanned(scanned) && Scanned(all) && forall s :: s in scanned ==> s in all
    ensures Distinct(EdgesFrom(scanned, all, e))
  {
    if scanned == [] {
    } else {
      hide Neighbors, EdgesAt;
      var n := |scanned| - 1;
      EdgesDistinct(scanned[..n], all, e);
      if IsCasa(scanned[n]) {
        var tips := Neighbors(all, scanned[n], e);
        NeighborsDistinct(all, scanned[n], e);
        BlocksApart(scanned, all, e);
        BlockMembers(scanned[n], tips, e);
        DistinctConcat(EdgesFrom(scanned[..n], all, e), EdgesAt(scanned[n], tips, e));
      }
    }
  }

  lemma BlocksApart(scanned: seq<Source>, all: seq<Source>, e: Engine)
    requires scanned != [] && Scanned(scanned)
    ensures var n := |scanned| - 1;
            forall x :: x in EdgesFrom(scanned[..n], all, e) ==> x !in EdgesAt(scanned[n], Neighbors(all, scanned[n], e), e)
  {
    hide Neighbors, EdgesFrom, EdgesAt;
    var n := |scanned| - 1;
    assert scanned[n] !in scanned[..n];
    EdgeMembers(scanned[..n], all, e);
    BlockMembers(scanned[n], Neighbors(all, scanned[n], e), e);
  }

  lemma {:induction false} DegreeZero(edges: seq<Edge>, id: nat)
    ensures Degree(edges, id) == 0 <==> forall j :: 0 <= j < |edges| ==> !Touches(edges[j], id)
  {
    if edges != [] {
      DegreeZero(edges[..|edges| - 1], id);
    }
  }

  /** A touched id has degree one exactly when no other edge touches it. */
  lemma {:induction false} DegreeSingle(edges: seq<Edge>, id: nat, k: nat)
    requires k < |edges| && Touches(edges[k], id)
    ensures Degree(edges, id) <= 1 <==>
            forall j :: 0 <= j < |edges| && j != k ==> !Touches(edges[j], id)
    ensures Degree(edges, id) >= 1
  {
    var n := |edges| - 1;
    DegreeZero(edges[..n], id);
    if k < n {
      DegreeSingle(edges[..n], id, k);
    }
  }

  lemma EdgeIsReach(all: seq<Source>, x: Edge, e: Engine)
    requires Scanned(all) && x in Edges(all, e)
    ensures Reach(all, x.house, x.tip, e) && IsCasa(x.house)
    ensures x.verdict == e.compare(x.house.evidence, x.tip.evidence)
  {
    EdgeMembers(all, all, e);
    SaturatedIsCrowded(all, x.house, e);
  }

  /** When the veto spares a house, its complete edges are the scanned ones. */
  lemma CompleteAtHouse(all: seq<Source>, h: Source, t: Source, e: Engine)
    requires Scanned(all) && FullEdge(all, h, t, e) && !Crowded(all, h, e)
    ensures Edge(h, t, e.compare(h.evidence, t.evidence)) in Edges(all, e)
  {
    EdgeMembers(all, all, e);
    SaturatedIsCrowded(all, h, e);
    WindowIsReach(all, h, e);
  }

  /** The degrees counted on truncated neighbours decide isolation in the complete graph. */
  lemma DegreesDecideIsolation(all: seq<Source>, x: Edge, e: Engine)
    requires Scanned(all) && x in Edges(all, e) && Strong(x.verdict)
    requires SearchComplete(all, x.house, e) && SearchComplete(all, x.tip, e)
    ensures var edges := Edges(all, e);
            Degree(edges, x.house.id) <= 1 && Degree(edges, x.tip.id) <= 1
            <==> Isolated(all, x.house, x.tip, e)
  {
    var edges := Edges(all, e);
    var h, t := x.house, x.tip;
    EdgeIsReach(all, x, e);
    EdgesDistinct(all, all, e);
    var k :| 0 <= k < |edges| && edges[k] == x;
    DegreeSingle(edges, h.id, k);
    DegreeSingle(edges, t.id, k);
    forall j | 0 <= j < |edges| && j != k && (Touches(edges[j], h.id) || Touches(edges[j], t.id))
      ensures !Isolated(all, h, t, e)
    {
      var y := edges[j];
      assert y in edges && y != x;
      EdgeIsReach(all, y, e);
      TouchedEnd(all, x, y);
      assert FullEdge(all, y.house, y.tip, e);
    }
    forall t' | FullEdge(all, h, t', e) && t' != t ensures Degree(edges, h.id) > 1 {
      CompleteAtHouse(all, h, t', e);
      var j :| 0 <= j < |edges| && edges[j] == Edge(h, t', e.compare(h.evidence, t'.evidence));
      assert Touches(edges[j], h.id);
    }
    forall h' | FullEdge(all, h', t, e) && h' != h ensures Degree(edges, t.id) > 1 {
      assert Reach(all, t, h', e);
      CompleteAtHouse(all, h', t, e);
      var j :| 0 <= j < |edges| && edges[j] == Edge(h', t, e.compare(h'.evidence, t.evidence));
      assert Touches(edges[j], t.id);
    }
  }

  /** Two edges that share an id share the source at that end. */
  lemma TouchedEnd(all: seq<Source>, x: Edge, y: Edge)
    requires Scanned(all) && x.house in all && x.tip in all && y.house in all && y.tip in all
    requires IsCasa(x.house) && !IsCasa(x.tip) && IsCasa(y.house) && !IsCasa(y.tip)
    ensures Touches(y, x.house.id) ==> y.house == x.house
    ensures Touches(y, x.tip.id) ==> y.tip == x.tip
  {
  }
}
