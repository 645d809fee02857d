/** The loops of `report`, each proved to compute the search it stands for. */
module Reporting {
  import opened Wrappers
  import opened Ordering
  import opened Sources
  import opened Matching
  import opened Money
  import opened Plan

  type Groups = map<(string, bool), seq<Source>>

  function GroupIn(groups: Groups, house: string, casa: bool): seq<Source> {
    if (house, casa) in groups then groups[(house, casa)] else []
  }

  method CollectGroups(searchable: seq<Source>) returns (groups: Groups)
    ensures forall house, casa :: GroupIn(groups, house, casa) == Group(searchable, house, casa)
  {
    hide SortBy, OfSide;
    NoSide();
    groups := map[];
    for i := 0 to |searchable|
      invariant forall house, casa :: GroupIn(groups, house, casa) == OfSide(searchable[..i], house, casa)
    {
      var s := searchable[i];
      var key := (s.house, IsCasa(s));
      SideOneMore(searchable, i);
      GroupOneMore(groups, s);
      groups := groups[key := GroupIn(groups, s.house, IsCasa(s)) + [s]];
    }
    assert searchable[..|searchable|] == searchable;
    SortNothing();
    groups := map key | key in groups :: SortBy(groups[key], SlotOf);
  }

  lemma GroupOneMore(groups: Groups, s: Source)
    ensures var now := groups[(s.house, IsCasa(s)) := GroupIn(groups, s.house, IsCasa(s)) + [s]];
            forall house, casa :: GroupIn(now, house, casa)
                                  == if s.house == house && IsCasa(s) == casa
                                     then GroupIn(groups, house, casa) + [s] else GroupIn(groups, house, casa)
  {
  }

  lemma NoSide()
    ensures forall house, casa :: OfSide([], house, casa) == []
  {
  }

  lemma SortNothing()
    ensures SortBy([], SlotOf) == []
  {
  }

  lemma SideOneMore(all: seq<Source>, i: nat)
    requires i < |all|
    ensures forall house, casa ::
              OfSide(all[..i + 1], house, casa)
              == if all[i].house == house && IsCasa(all[i]) == casa
                 then OfSide(all[..i], house, casa) + [all[i]] else OfSide(all[..i], house, casa)
  {
    assert all[..i + 1][..i] == all[..i];
  }

  /** Neighbours by source id, as far as the search looks, and the sources it truncated. */
  method ScanNeighbors(searchable: seq<Source>, e: Engine)
    returns (neighbors: map<nat, seq<Source>>, saturated: set<nat>)
    requires Scanned(searchable)
    ensures forall s :: s in searchable ==> s.id in neighbors && neighbors[s.id] == Neighbors(searchable, s, e)
    ensures saturated == SaturatedIds(searchable, e)
  {
    hide Neighbors, Saturated, Group, BisectLeft, BisectRight, SortBy, SaturatedAmong, Scanned;
    AmongAll(searchable, e);
    var groups := CollectGroups(searchable);
    neighbors, saturated := map[], {};
    for i := 0 to |searchable|
      invariant forall s :: s in searchable[..i] ==>
                  s.id in neighbors && neighbors[s.id] == Neighbors(searchable, s, e)
      invariant saturated == SaturatedAmong(searchable[..i], searchable, e)
    {
      var s := searchable[i];
      var opposite := GroupIn(groups, s.house, !IsCasa(s));
      var times := Times(opposite);
      var left := BisectLeft(times, s.occurrence - e.window);
      var right := BisectRight(times, s.occurrence + e.window);
      BoundsAre(searchable, s, e, left, right);
      Renamed(searchable, i);
      if right - left > e.maxNeighbors {
        saturated := saturated + {s.id};
      }
      neighbors := neighbors[s.id := opposite[left..Min(right, left + e.maxNeighbors)]];
      assert searchable[..i + 1] == searchable[..i] + [s];
      AmongOneMore(searchable[..i], s, searchable, e);
    }
    assert searchable[..|searchable|] == searchable;
  }

  /** Writing the entry of one source leaves the entries of the earlier ones. */
  lemma Renamed(all: seq<Source>, i: nat)
    requires Scanned(all) && i < |all|
    ensures forall s :: s in all[..i] ==> s.id != all[i].id
  {
  }

  function SaturatedAmong(scanned: seq<Source>, all: seq<Source>, e: Engine): set<nat> {
    set s | s in scanned && Saturated(all, s, e) :: s.id
  }

  function NearAmong(scanned: seq<Source>, all: seq<Source>, e: Engine): set<nat> {
    set s | s in scanned && NearSaturated(all, s, e) :: s.id
  }

  lemma AmongOneMore(scanned: seq<Source>, s: Source, all: seq<Source>, e: Engine)
    ensures SaturatedAmong(scanned + [s], all, e)
            == SaturatedAmong(scanned, all, e) + if Saturated(all, s, e) then {s.id} else {}
    ensures NearAmong(scanned + [s], all, e)
            == NearAmong(scanned, all, e) + if NearSaturated(all, s, e) then {s.id} else {}
  {
    hide Saturated, NearSaturated;
  }

  lemma BoundsAre(all: seq<Source>, s: Source, e: Engine, left: nat, right: nat)
    requires left == BisectLeft(Times(Group(all, s.house, !IsCasa(s))), s.occurrence - e.window)
    requires right == BisectRight(Times(Group(all, s.house, !IsCasa(s))), s.occurrence + e.window)
    ensures left <= right <= |Group(all, s.house, !IsCasa(s))|
    ensures Saturated(all, s, e) <==> right - left > e.maxNeighbors
    ensures Neighbors(all, s, e)
            == Group(all, s.house, !IsCasa(s))[left..Min(right, left + e.maxNeighbors)]
  {
    hide BisectLeft, BisectRight, Group, Times;
    assert Bounds(all, s, e) == (left, right);
  }

  method CollectVeto(searchable: seq<Source>, neighbors: map<nat, seq<Source>>, saturated: set<nat>, e: Engine)
    returns (veto: set<nat>)
    requires Scanned(searchable)
    requires forall s :: s in searchable ==> s.id in neighbors && neighbors[s.id] == Neighbors(searchable, s, e)
    requires saturated == SaturatedIds(searchable, e)
    ensures veto == VetoIds(searchable, e)
  {
    hide Neighbors, Saturated, NearSaturated, SaturatedIds, NearAmong, SaturatedAmong, VetoIds;
    veto := saturated;
    NoneAmong(searchable, e);
    for i := 0 to |searchable|
      invariant veto == saturated + NearAmong(searchable[..i], searchable, e)
    {
      var s := searchable[i];
      SaturatedById(searchable, s, e);
      if exists n :: n in neighbors[s.id] && n.id in saturated {
        veto := veto + {s.id};
      }
      assert searchable[..i + 1] == searchable[..i] + [s];
      AmongOneMore(searchable[..i], s, searchable, e);
    }
    assert searchable[..|searchable|] == searchable;
  }

  lemma AmongAll(all: seq<Source>, e: Engine)
    ensures SaturatedAmong([], all, e) == {} && SaturatedAmong(all, all, e) == SaturatedIds(all, e)
  {
  }

  lemma NoneAmong(all: seq<Source>, e: Engine)
    ensures NearAmong([], all, e) == {}
    ensures VetoIds(all, e) == SaturatedIds(all, e) + NearAmong(all, all, e)
  {
  }

  lemma SaturatedById(all: seq<Source>, s: Source, e: Engine)
    requires Scanned(all) && s in all
    ensures NearSaturated(all, s, e) <==> exists n :: n in Neighbors(all, s, e) && n.id in SaturatedIds(all, e)
  {
    hide Neighbors, Saturated;
    SaturatedIsCrowded(all, s, e);
    forall n, o | n in all && o in all && n.id == o.id ensures n == o {
      IdNamesSource(all, n, o);
    }
  }

  function At(degree: map<nat, nat>, id: nat): nat {
    if id in degree then degree[id] else 0
  }

  method ScanEdges(searchable: seq<Source>, neighbors: map<nat, seq<Source>>, e: Engine)
    returns (edges: seq<Edge>, degree: map<nat, nat>)
    requires Scanned(searchable)
    requires forall s :: s in searchable ==> s.id in neighbors && neighbors[s.id] == Neighbors(searchable, s, e)
    ensures edges == Edges(searchable, e)
    ensures forall id :: At(degree, id) == Degree(edges, id)
  {
    hide Neighbors;
    edges, degree := [], map[];
    for i := 0 to |searchable|
      invariant edges == EdgesFrom(searchable[..i], searchable, e)
      invariant forall id :: At(degree, id) == Degree(edges, id)
    {
      var house := searchable[i];
      assert searchable[..i + 1][..i] == searchable[..i];
      if IsCasa(house) {
        edges, degree := ScanTips(edges, degree, house, neighbors[house.id], searchable, e);
      }
    }
    assert searchable[..|searchable|] == searchable;
  }

  method ScanTips(before: seq<Edge>, counted: map<nat, nat>, house: Source, tips: seq<Source>, ghost all: seq<Source>, e: Engine)
    returns (edges: seq<Edge>, degree: map<nat, nat>)
    requires Scanned(all) && house in all && IsCasa(house) && tips == Neighbors(all, house, e)
    requires forall id :: At(counted, id) == Degree(before, id)
    ensures edges == before + EdgesAt(house, tips, e)
    ensures forall id :: At(degree, id) == Degree(edges, id)
  {
    hide Neighbors, Degree, EdgesAt, Scanned;
    DifferentBets(all, house, e);
    edges, degree := before, counted;
    NoEdges(house, e);
    assert before + [] == before;
    for j := 0 to |tips|
      invariant edges == before + EdgesAt(house, tips[..j], e)
      invariant forall id :: At(degree, id) == Degree(edges, id)
    {
      var tip := tips[j];
      var verdict := e.compare(house.evidence, tip.evidence);
      EdgesOneMore(house, tips, j, e);
      ghost var was := degree;
      if Strong(verdict) {
        degree := degree[house.id := At(degree, house.id) + 1];
        degree := degree[tip.id := At(degree, tip.id) + 1];
      }
      DegreeOneMore(was, degree, edges, Edge(house, tip, verdict));
      edges := edges + [Edge(house, tip, verdict)];
    }
    assert tips[..|tips|] == tips;
  }

  lemma DegreeOneMore(was: map<nat, nat>, now: map<nat, nat>, edges: seq<Edge>, x: Edge)
    requires x.house.id != x.tip.id && forall id :: At(was, id) == Degree(edges, id)
    requires forall id :: At(now, id) == At(was, id) + if Touches(x, id) then 1 else 0
    ensures forall id :: At(now, id) == Degree(edges + [x], id)
  {
  }

  lemma NoEdges(h: Source, e: Engine)
    ensures EdgesAt(h, [], e) == []
  {
  }

  lemma EdgesOneMore(h: Source, tips: seq<Source>, j: nat, e: Engine)
    requires j < |tips|
    ensures EdgesAt(h, tips[..j + 1], e)
            == EdgesAt(h, tips[..j], e) + [Edge(h, tips[j], e.compare(h.evidence, tips[j].evidence))]
  {
  }

  lemma DifferentBets(all: seq<Source>, h: Source, e: Engine)
    requires Scanned(all) && h in all
    ensures forall t :: t in Neighbors(all, h, e) ==> h.id != t.id
  {
    hide Neighbors;
    SaturatedIsCrowded(all, h, e);
    forall t | t in Neighbors(all, h, e) ensures h.id != t.id {
      if h.id == t.id { IdNamesSource(all, h, t); }
    }
  }

  method CollectSearchable(items: seq<Source>, occupied: set<nat>) returns (r: seq<Source>)
    ensures r == Searchable(items, occupied)
  {
    r := [];
    for i := 0 to |items|
      invariant r == Searchable(items[..i], occupied)
    {
      if Eligible(items[i], occupied) {
        r := r + [items[i]];
      }
      assert items[..i + 1][..i] == items[..i];
    }
    assert items[..|items|] == items;
  }

  /** One pass over the edges: candidates in view and the tips they would take out. */
  method JudgeEdges(s: Search, degree: map<nat, nat>, f: Filters)
    returns (candidates: seq<Candidate>, taken: set<nat>)
    requires forall id :: At(degree, id) == Degree(s.edges, id)
    ensures candidates == PairCandidates(s.edges, f, s)
    ensures taken == TakenTips(candidates)
  {
    hide Judge, Contribution;
    candidates, taken := [], {};
    for i := 0 to |s.edges|
      invariant candidates == PairCandidates(s.edges[..i], f, s)
      invariant taken == TakenTips(candidates)
    {
      var x := s.edges[i];
      assert s.edges[..i + 1][..i] == s.edges[..i];
      if Selected(x.house, f) {
        var blocked := x.house.id in s.veto || x.tip.id in s.veto;
        var competing := At(degree, x.house.id) > 1 || At(degree, x.tip.id) > 1;
        var judgement := Judge(x, blocked, competing, (x.house.id, x.tip.id) in s.declined, s.engine.account(x.house));
        if Wants(judgement) {
          taken := taken + {x.tip.id};
        }
        candidates := candidates + [Candidate(x.house.id, x.tip.id, x.house.house, Some(x.verdict.score),
                                              judgement, Contribution(x.tip), None)];
      }
    }
    assert s.edges[..|s.edges|] == s.edges;
  }

  /** `report`: the loops together compute the specified report. */
  method BuildReport(items: seq<Source>, links: seq<Link>, f: Filters, e: Engine) returns (r: Report)
    requires Scanned(items)
    ensures r == MakeReport(items, links, f, e)
    ensures forall i, j :: 0 <= i < j < |r.candidates| ==>
              var a, b := r.candidates[i], r.candidates[j];
              a.houseId < b.houseId || (a.houseId == b.houseId && a.tipId <= b.tipId)
    ensures multiset(r.candidates) == multiset(Unsorted(items, links, f, e))
  {
    hide Edges, Neighbors, Saturated, Degree, Searchable, JudgeIn, PairCandidates, LinkedCandidates, FaultyCandidates;
    hide Totals, VetoIds, Occupied;
    var occupied := Occupied(links);
    var suppressed := SuppressedTips(links);
    var searchable := CollectSearchable(items, occupied);
    SearchableMembers(items, occupied);
    var neighbors, saturated := ScanNeighbors(searchable, e);
    var veto := CollectVeto(searchable, neighbors, saturated, e);
    var edges, degree := ScanEdges(searchable, neighbors, e);
    var s := Search(searchable, edges, veto, Declined(links), e);
    var candidates, taken := JudgeEdges(s, degree, f);
    TakenOnlyPairs(items, links, f, e);
    candidates := candidates + LinkedCandidates(links, items, f) + FaultyCandidates(items, occupied);
    SortKeepsMultiset(candidates, PlaceOf);
    candidates := SortBy(candidates, PlaceOf);
    var current := ComputeTotals(items, suppressed);
    var projected := ComputeTotals(items, suppressed + taken);
    r := Report(candidates, current, projected);
  }

  lemma TakenOnlyPairs(items: seq<Source>, links: seq<Link>, f: Filters, e: Engine)
    ensures var s := SearchOf(items, links, e);
            TakenTips(PairCandidates(s.edges, f, s)) == TakenTips(Candidates(items, links, f, e))
  {
    hide Searchable, Edges, VetoIds, PairCandidates, LinkedCandidates, FaultyCandidates;
    OthersNeverWanted(items, links, f, Occupied(links));
  }
}
