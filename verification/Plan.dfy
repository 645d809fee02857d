/**
 The reviewed report: which scanned pairs may be consolidated, what is filtered out of view,
 and the totals the plan predicts.
 */
module Plan {
  import opened Wrappers
  import opened Ordering
  import opened Sources
  import opened Matching
  import opened Money

  /** Already parsed filters: instants, and the canonical house when one was asked for. */
  datatype Filters = Filters(lower: Option<int>, upper: Option<int>, house: Option<string>)

  const UNFILTERED := Filters(None, None, None)

  datatype Classification = Exact | Probable | Incompatible | Competing | AlreadyConsolidated | Faulty

  datatype Action = Consolidate | Review | NoAction

  datatype Judgement = Judgement(classification: Classification, action: Action, reason: string)

  datatype Candidate = Candidate(
    houseId: nat, tipId: nat, house: string, score: Option<int>, judgement: Judgement,
    removed: Metrics, relation: Option<nat>)

  datatype Report = Report(candidates: seq<Candidate>, current: Ledger, projected: Ledger)

  predicate Selected(s: Source, f: Filters) {
    if f.house.Some? && s.house != f.house.value then
      false
    else if s.game.None? then
      f.lower.None? && f.upper.None?
    else
      (f.lower.None? || s.game.value >= f.lower.value) && (f.upper.None? || s.game.value < f.upper.value)
  }

  function Wants(j: Judgement): bool {
    j.action.Consolidate?
  }

  // ---------------------------------------------------------------- judging one edge

  predicate Named(id: Option<int>) {
    id.Some? && id.value != 0
  }

  predicate ContextConflict(h: Source, t: Source) {
    || (Named(h.bet.tipsterId) && Named(t.bet.tipsterId) && h.bet.tipsterId != t.bet.tipsterId)
    || (h.tipster != "" && t.tipster != "" && h.tipster != t.tipster)
  }

  /** The branches of `report` for one edge, in the order in which they overwrite each other. */
  function Judge(x: Edge, blocked: bool, competing: bool, declined: bool, account: AccountLookup): Judgement {
    match x.verdict.evidence
    case IncompatibleEvidence => Judgement(Incompatible, NoAction, "incompatible_evidence")
    case _ =>
      if blocked then
        Judgement(Competing, Review, "incomplete_search")
      else if competing then
        Judgement(Competing, Review, "competing_sources")
      else if x.verdict.evidence.ProbableEvidence? then
        Judgement(Probable, Review, "insufficient_evidence")
      else if declined then
        Judgement(Exact, Review, "previously_unlinked_or_rejected")
      else if ContextConflict(x.house, x.tip) then
        Judgement(Exact, Review, "context_conflict")
      else
        match account
        case InvalidReference => Judgement(Exact, Review, "invalid_explicit_account")
        case NoUniqueAccount => Judgement(Exact, Review, "account_missing_or_ambiguous_at_game")
        case UniqueAccount => Judgement(Exact, Consolidate, "exact_one_to_one")
  }

  /** What the second pass of `report` reads while it judges the edges. */
  datatype Search = Search(all: seq<Source>, edges: seq<Edge>, veto: set<nat>, declined: set<(nat, nat)>, engine: Engine)

  function SearchOf(items: seq<Source>, links: seq<Link>, e: Engine): Search {
    var all := Searchable(items, Occupied(links));
    Search(all, Edges(all, e), VetoIds(all, e), Declined(links), e)
  }

  function JudgeIn(x: Edge, s: Search): Judgement {
    Judge(x,
          x.house.id in s.veto || x.tip.id in s.veto,
          Degree(s.edges, x.house.id) > 1 || Degree(s.edges, x.tip.id) > 1,
          (x.house.id, x.tip.id) in s.declined,
          s.engine.account(x.house))
  }

  function PairCandidate(x: Edge, s: Search): Candidate {
    Candidate(x.house.id, x.tip.id, x.house.house, Some(x.verdict.score), JudgeIn(x, s), Contribution(x.tip), None)
  }

  function PairCandidates(edges: seq<Edge>, f: Filters, s: Search): seq<Candidate> {
    if edges == [] then
      []
    else
      var n := |edges| - 1;
      PairCandidates(edges[..n], f, s)
      + if Selected(edges[n].house, f) then [PairCandidate(edges[n], s)] else []
  }

  // ---------------------------------------------------------------- the rest of the report

  function Find(items: seq<Source>, id: nat): Option<Source> {
    if items == [] then None
    else if items[0].id == id then Some(items[0])
    else Find(items[1..], id)
  }

  function LinkedCandidates(links: seq<Link>, items: seq<Source>, f: Filters): seq<Candidate> {
    if links == [] then
      []
    else
      var n := |links| - 1;
      var house := Find(items, links[n].houseId);
      LinkedCandidates(links[..n], items, f)
      + if links[n].state.Active? && house.Some? && Selected(house.value, f)
        then [Candidate(links[n].houseId, links[n].tipId, "", None,
                        Judgement(AlreadyConsolidated, NoAction, "active_relation"), ZERO, Some(links[n].id))]
        else []
  }

  function FaultyCandidates(items: seq<Source>, occupied: set<nat>): seq<Candidate> {
    if items == [] then
      []
    else
      var n := |items| - 1;
      var s := items[n];
      FaultyCandidates(items[..n], occupied)
      + if Unpaired(s, occupied) && s.error.Some?
        then [Candidate(if IsCasa(s) then s.id else 0, if IsCasa(s) then 0 else s.id, "", None,
                        Judgement(Faulty, NoAction, s.error.value), ZERO, None)]
        else []
  }

  function PlaceOf(c: Candidate): (int, int) {
    (c.houseId, c.tipId)
  }

  function Unsorted(items: seq<Source>, links: seq<Link>, f: Filters, e: Engine): seq<Candidate> {
    var s := SearchOf(items, links, e);
    PairCandidates(s.edges, f, s)
    + LinkedCandidates(links, items, f)
    + FaultyCandidates(items, Occupied(links))
  }

  function Candidates(items: seq<Source>, links: seq<Link>, f: Filters, e: Engine): seq<Candidate> {
    SortBy(Unsorted(items, links, f, e), PlaceOf)
  }

  /** Tips that the first `k` candidates take out of the totals. */
  function TakenTips(candidates: seq<Candidate>): set<nat> {
    set c | c in candidates && Wants(c.judgement) :: c.tipId
  }

  function MakeReport(items: seq<Source>, links: seq<Link>, f: Filters, e: Engine): Report {
    var candidates := Candidates(items, links, f, e);
    Report(candidates, Totals(items, SuppressedTips(links)),
           Totals(items, SuppressedTips(links) + TakenTips(candidates)))
  }

  /** `expected_totals`: what the plan says the totals are after its first `k` candidates. */
  function Expected(current: Ledger, candidates: seq<Candidate>): Ledger {
    if candidates == [] then
      current
    else
      var n := |candidates| - 1;
      var c := candidates[n];
      var before := Expected(current, candidates[..n]);
      if Wants(c.judgement) then Sub(before, c.house, c.removed) else before
  }

  // ---------------------------------------------------------------- main results

  /** Relations are read by increasing id, their primary key. */
  ghost predicate ScannedLinks(links: seq<Link>) {
    forall i, j :: 0 <= i < j < |links| ==> links[i].id < links[j].id
  }

  /** What the plan needs to be safe, said in the full graph over the bets that are searched. */
  ghost predicate GraphAllows(all: seq<Source>, h: Source, t: Source, links: seq<Link>, e: Engine) {
    && FullEdge(all, h, t, e) && e.compare(h.evidence, t.evidence).evidence.ExactEvidence?
    && SearchComplete(all, h, e) && SearchComplete(all, t, e) && Isolated(all, h, t, e)
    && e.account(h).UniqueAccount? && !ContextConflict(h, t)
    && (h.id, t.id) !in Declined(links)
  }

  lemma WantedWhen(x: Edge, blocked: bool, competing: bool, declined: bool, account: AccountLookup)
    ensures Wants(Judge(x, blocked, competing, declined, account)) <==>
            && x.verdict.evidence.ExactEvidence? && !blocked && !competing && !declined
            && account.UniqueAccount? && !ContextConflict(x.house, x.tip)
  {
  }

  /** The truncated search authorizes a scanned pair exactly when the full graph allows it. */
  lemma JudgementFollowsGraph(items: seq<Source>, links: seq<Link>, e: Engine, x: Edge)
    requires Scanned(items) && x in SearchOf(items, links, e).edges
    ensures Wants(JudgeIn(x, SearchOf(items, links, e)))
            <==> GraphAllows(Searchable(items, Occupied(links)), x.house, x.tip, links, e)
  {
    hide Judge, Edges, VetoIds, Degree, Searchable, ContextConflict;
    var s := SearchOf(items, links, e);
    SearchableMembers(items, Occupied(links));
    EdgeIsReach(s.all, x, e);
    VetoIsExact(s.all, x.house, e);
    VetoIsExact(s.all, x.tip, e);
    WantedWhen(x, x.house.id in s.veto || x.tip.id in s.veto,
               Degree(s.edges, x.house.id) > 1 || Degree(s.edges, x.tip.id) > 1,
               (x.house.id, x.tip.id) in s.declined, e.account(x.house));
    if x.verdict.evidence.ExactEvidence? && SearchComplete(s.all, x.house, e) && SearchComplete(s.all, x.tip, e) {
      DegreesDecideIsolation(s.all, x, e);
    }
  }

  /** The judgement that the truncated search gives a scanned pair, as the full graph would give it. */
  lemma JudgementInGraph(items: seq<Source>, links: seq<Link>, e: Engine, x: Edge)
    requires Scanned(items) && x in SearchOf(items, links, e).edges
    ensures var all := Searchable(items, Occupied(links));
            JudgeIn(x, SearchOf(items, links, e))
            == Judge(x, !(SearchComplete(all, x.house, e) && SearchComplete(all, x.tip, e)),
                     !Isolated(all, x.house, x.tip, e), (x.house.id, x.tip.id) in Declined(links), e.account(x.house))
  {
    hide Edges, VetoIds, Degree, Searchable, ContextConflict, SearchComplete, Isolated;
    var s := SearchOf(items, links, e);
    SearchableMembers(items, Occupied(links));
    EdgeIsReach(s.all, x, e);
    VetoIsExact(s.all, x.house, e);
    VetoIsExact(s.all, x.tip, e);
    if Strong(x.verdict) && SearchComplete(s.all, x.house, e) && SearchComplete(s.all, x.tip, e) {
      DegreesDecideIsolation(s.all, x, e);
    }
  }

  lemma {:induction false} PairMembers(edges: seq<Edge>, f: Filters, s: Search)
    ensures forall c :: c in PairCandidates(edges, f, s) <==>
              exists x :: x in edges && Selected(x.house, f) && c == PairCandidate(x, s)
  {
    if edges == [] {
    } else {
      var n := |edges| - 1;
      PairMembers(edges[..n], f, s);
      assert edges == edges[..n] + [edges[n]];
      assert edges[n] in edges;
      forall c | c in PairCandidates(edges, f, s)
        ensures exists x :: x in edges && Selected(x.house, f) && c == PairCandidate(x, s)
      {
        if c in PairCandidates(edges[..n], f, s) {
          var x :| x in edges[..n] && Selected(x.house, f) && c == PairCandidate(x, s);
          assert x in edges;
        }
      }
    }
  }

  lemma {:induction false} OthersNeverWanted(items: seq<Source>, links: seq<Link>, f: Filters, occupied: set<nat>)
    ensures forall c :: c in LinkedCandidates(links, items, f) ==>
                          c.judgement.classification.AlreadyConsolidated? && !Wants(c.judgement)
    ensures forall c :: c in FaultyCandidates(items, occupied) ==>
                          c.judgement.classification.Faulty? && !Wants(c.judgement)
    decreases |items| + |links|
  {
    if items != [] {
      OthersNeverWanted(items[..|items| - 1], links, f, occupied);
    }
    LinkedNeverWanted(items, links, f);
  }

  lemma {:induction false} LinkedNeverWanted(items: seq<Source>, links: seq<Link>, f: Filters)
    ensures forall c :: c in LinkedCandidates(links, items, f) ==>
                          c.judgement.classification.AlreadyConsolidated? && !Wants(c.judgement)
  {
    if links != [] {
      LinkedNeverWanted(items, links[..|links| - 1], f);
    }
  }

  /** A candidate the plan would consolidate comes from one scanned edge. */
  lemma WantedEdge(items: seq<Source>, links: seq<Link>, f: Filters, e: Engine, c: Candidate) returns (x: Edge)
    requires Scanned(items) && c in Candidates(items, links, f, e) && Wants(c.judgement)
    ensures var s := SearchOf(items, links, e);
            x in s.edges && Selected(x.house, f) && c == PairCandidate(x, s)
    ensures x.house in items && x.tip in items
    ensures GraphAllows(Searchable(items, Occupied(links)), x.house, x.tip, links, e)
  {
    hide PairCandidates, LinkedCandidates, FaultyCandidates, Edges, VetoIds, Searchable, Judge;
    var s := SearchOf(items, links, e);
    OthersNeverWanted(items, links, f, Occupied(links));
    assert c in Unsorted(items, links, f, e);
    PairMembers(s.edges, f, s);
    x :| x in s.edges && Selected(x.house, f) && c == PairCandidate(x, s);
    JudgementFollowsGraph(items, links, e, x);
    SearchableMembers(items, Occupied(links));
  }

  lemma WantedIsExact(items: seq<Source>, links: seq<Link>, f: Filters, e: Engine, c: Candidate)
    requires Scanned(items) && c in Candidates(items, links, f, e) && Wants(c.judgement)
    ensures c.judgement.classification.Exact?
  {
    hide Candidates, Searchable, Edges;
    var x := WantedEdge(items, links, f, e, c);
  }

  /** Among all bets, exactly the pairs that the full graph allows and whose house is in view are planned. */
  lemma PlannedFollowsGraph(items: seq<Source>, links: seq<Link>, f: Filters, e: Engine, h: Source, t: Source)
    requires Scanned(items) && h in items && t in items
    ensures (exists c :: c in Candidates(items, links, f, e) && Wants(c.judgement)
                         && c.houseId == h.id && c.tipId == t.id)
            <==> Selected(h, f) && GraphAllows(Searchable(items, Occupied(links)), h, t, links, e)
  {
    hide PairCandidates, LinkedCandidates, FaultyCandidates, Edges, VetoIds, Searchable, Judge, Degree;
    var s := SearchOf(items, links, e);
    if c :| c in Candidates(items, links, f, e) && Wants(c.judgement) && c.houseId == h.id && c.tipId == t.id {
      var x := WantedEdge(items, links, f, e, c);
      IdNamesSource(items, x.house, h);
      IdNamesSource(items, x.tip, t);
    }
    if Selected(h, f) && GraphAllows(s.all, h, t, links, e) {
      SearchableMembers(items, Occupied(links));
      CompleteAtHouse(s.all, h, t, e);
      var x := Edge(h, t, e.compare(h.evidence, t.evidence));
      JudgementFollowsGraph(items, links, e, x);
      PairMembers(s.edges, f, s);
      var c := PairCandidate(x, s);
      assert c in Unsorted(items, links, f, e);
    }
  }

  lemma {:induction false} PairsDistinct(items: seq<Source>, edges: seq<Edge>, f: Filters, s: Search)
    requires Scanned(items) && Distinct(edges)
    requires forall x :: x in edges ==>
              && x.house in items && x.tip in items
              && x.verdict == s.engine.compare(x.house.evidence, x.tip.evidence)
    ensures Distinct(PairCandidates(edges, f, s))
  {
    hide JudgeIn, Contribution;
    if edges != [] {
      var n := |edges| - 1;
      PairsDistinct(items, edges[..n], f, s);
      PairMembers(edges[..n], f, s);
      var last := edges[n];
      forall x | x in edges[..n] ensures PairCandidate(x, s) != PairCandidate(last, s) {
        if x.house.id == last.house.id && x.tip.id == last.tip.id {
          IdNamesSource(items, x.house, last.house);
          IdNamesSource(items, x.tip, last.tip);
        }
      }
      DistinctConcat(PairCandidates(edges[..n], f, s), [PairCandidate(last, s)]);
    }
  }

  lemma {:induction false} LinkedDistinct(items: seq<Source>, links: seq<Link>, f: Filters)
    requires ScannedLinks(links)
    ensures Distinct(LinkedCandidates(links, items, f))
    ensures forall c :: c in LinkedCandidates(links, items, f) ==>
                          c.relation.Some? && exists l :: l in links && l.id == c.relation.value
  {
    if links != [] {
      LinkedDistinct(items, links[..|links| - 1], f);
    }
  }

  lemma {:induction false} FaultyDistinct(items: seq<Source>, occupied: set<nat>)
    requires Scanned(items)
    ensures Distinct(FaultyCandidates(items, occupied))
    ensures forall c :: c in FaultyCandidates(items, occupied) ==>
                          exists s :: s in items && c.houseId + c.tipId == s.id
  {
    if items != [] {
      FaultyDistinct(items[..|items| - 1], occupied);
    }
  }

  lemma CandidatesDistinct(items: seq<Source>, links: seq<Link>, f: Filters, e: Engine)
    requires Scanned(items) && ScannedLinks(links)
    ensures Distinct(Candidates(items, links, f, e))
  {
    hide PairCandidates, LinkedCandidates, FaultyCandidates, EdgesFrom, VetoIds, Searchable, Judge, Degree;
    var s := SearchOf(items, links, e);
    SearchableMembers(items, Occupied(links));
    EdgesDistinct(s.all, s.all, e);
    forall x | x in s.edges ensures x.house in items && x.tip in items
                                    && x.verdict == e.compare(x.house.evidence, x.tip.evidence) {
      EdgeIsReach(s.all, x, e);
    }
    PairsDistinct(items, s.edges, f, s);
    LinkedDistinct(items, links, f);
    FaultyDistinct(items, Occupied(links));
    OthersNeverWanted(items, links, f, Occupied(links));
    PairsAreScanned(s.edges, f, s);
    DistinctConcat(PairCandidates(s.edges, f, s), LinkedCandidates(links, items, f));
    DistinctConcat(PairCandidates(s.edges, f, s) + LinkedCandidates(links, items, f),
                   FaultyCandidates(items, Occupied(links)));
  }

  lemma PairsAreScanned(edges: seq<Edge>, f: Filters, s: Search)
    ensures forall c :: c in PairCandidates(edges, f, s) ==>
              !c.judgement.classification.AlreadyConsolidated? && !c.judgement.classification.Faulty?
  {
  }

  /** The pairs to consolidate form a matching: no bet appears in two of them. */
  lemma PlanIsMatching(items: seq<Source>, links: seq<Link>, f: Filters, e: Engine, i: nat, j: nat)
    requires Scanned(items) && ScannedLinks(links)
    requires i < |Candidates(items, links, f, e)| && j < |Candidates(items, links, f, e)| && i != j
    requires Wants(Candidates(items, links, f, e)[i].judgement)
    requires Wants(Candidates(items, links, f, e)[j].judgement)
    ensures var a, b := Candidates(items, links, f, e)[i], Candidates(items, links, f, e)[j];
            a.houseId != b.houseId && a.tipId != b.tipId && a.houseId != b.tipId && a.tipId != b.houseId
  {
    hide Candidates, Searchable, PairCandidate, Edges;
    var a, b := Candidates(items, links, f, e)[i], Candidates(items, links, f, e)[j];
    CandidatesDistinct(items, links, f, e);
    assert a != b;
    var x := WantedEdge(items, links, f, e, a);
    var y := WantedEdge(items, links, f, e, b);
    SameEndSamePair(items, links, e, x, y, a, b);
  }

  lemma SameEndSamePair(items: seq<Source>, links: seq<Link>, e: Engine, x: Edge, y: Edge, a: Candidate, b: Candidate)
    requires Scanned(items) && x.house in items && x.tip in items && y.house in items && y.tip in items
    requires var all := Searchable(items, Occupied(links));
             GraphAllows(all, x.house, x.tip, links, e) && GraphAllows(all, y.house, y.tip, links, e)
    requires var s := SearchOf(items, links, e);
             a == PairCandidate(x, s) && b == PairCandidate(y, s) && x in s.edges && y in s.edges
    requires a != b
    ensures a.houseId != b.houseId && a.tipId != b.tipId && a.houseId != b.tipId && a.tipId != b.houseId
  {
    hide Searchable, Edges, JudgeIn, Contribution;
    var all := Searchable(items, Occupied(links));
    SearchableMembers(items, Occupied(links));
    EdgeIsReach(all, x, e);
    EdgeIsReach(all, y, e);
    if x.house.id == y.house.id { IdNamesSource(items, x.house, y.house); }
    if x.tip.id == y.tip.id { IdNamesSource(items, x.tip, y.tip); }
    if x.house.id == y.tip.id { IdNamesSource(items, x.house, y.tip); }
    if x.tip.id == y.house.id { IdNamesSource(items, x.tip, y.house); }
  }

  /** Keeps the candidates whose house the filter selects. */
  function InView(candidates: seq<Candidate>, items: seq<Source>, f: Filters): seq<Candidate> {
    if candidates == [] then
      []
    else
      var n := |candidates| - 1;
      var house := Find(items, candidates[n].houseId);
      InView(candidates[..n], items, f)
      + if house.Some? && Selected(house.value, f) then [candidates[n]] else []
  }

  lemma {:induction false} FindsSource(items: seq<Source>, s: Source)
    requires Scanned(items) && s in items
    ensures Find(items, s.id) == Some(s)
  {
    if items[0] != s {
      FindsSource(items[1..], s);
    }
  }

  lemma {:induction false} InViewAppend(a: seq<Candidate>, c: Candidate, items: seq<Source>, f: Filters, house: Source)
    requires Find(items, c.houseId) == Some(house)
    ensures InView(a + [c], items, f) == InView(a, items, f) + if Selected(house, f) then [c] else []
  {
  }

  /** Two date filters that meet at `mid` split the wider one: every source is in view of exactly one. */
  lemma AdjacentFiltersSplit(s: Source, lower: Option<int>, mid: int, upper: Option<int>, house: Option<string>)
    requires (lower.Some? ==> lower.value <= mid) && (upper.Some? ==> mid <= upper.value)
    requires lower.Some? || upper.Some?
    ensures var first, second := Selected(s, Filters(lower, Some(mid), house)), Selected(s, Filters(Some(mid), upper, house));
            && !(first && second)
            && (Selected(s, Filters(lower, upper, house)) <==> first || second)
  {
  }

  /** Filters only hide: what stays in view was judged as if nothing had been filtered. */
  lemma {:induction false} FiltersOnlyHide(items: seq<Source>, edges: seq<Edge>, f: Filters, s: Search)
    requires Scanned(items) && forall x :: x in edges ==> x.house in items
    ensures PairCandidates(edges, f, s) == InView(PairCandidates(edges, UNFILTERED, s), items, f)
  {
    hide PairCandidate;
    if edges == [] {
    } else {
      var n := |edges| - 1;
      FiltersOnlyHide(items, edges[..n], f, s);
      FindsSource(items, edges[n].house);
      assert edges[n] in edges;
      assert Selected(edges[n].house, UNFILTERED);
      HouseOfPair(edges[n], s);
      InViewAppend(PairCandidates(edges[..n], UNFILTERED, s), PairCandidate(edges[n], s), items, f, edges[n].house);
    }
  }

  lemma FilteredReportHides(items: seq<Source>, links: seq<Link>, f: Filters, e: Engine)
    requires Scanned(items)
    ensures var s := SearchOf(items, links, e);
            PairCandidates(s.edges, f, s) == InView(PairCandidates(s.edges, UNFILTERED, s), items, f)
  {
    hide Edges, VetoIds, Searchable;
    var s := SearchOf(items, links, e);
    SearchableMembers(items, Occupied(links));
    forall x | x in s.edges ensures x.house in items {
      EdgeIsReach(s.all, x, e);
    }
    FiltersOnlyHide(items, s.edges, f, s);
  }

  lemma HouseOfPair(x: Edge, s: Search)
    ensures PairCandidate(x, s).houseId == x.house.id
  {
  }

  // ---------------------------------------------------------------- money over every prefix

  lemma TakenStep(candidates: seq<Candidate>, k: nat)
    requires k < |candidates|
    ensures TakenTips(candidates[..k + 1])
            == TakenTips(candidates[..k]) + if Wants(candidates[k].judgement) then {candidates[k].tipId} else {}
  {
  }

  /** What a wanted candidate says about its tip is true of the bet row. */
  lemma WantedTip(items: seq<Source>, links: seq<Link>, f: Filters, e: Engine, c: Candidate) returns (t: Source)
    requires Scanned(items) && c in Candidates(items, links, f, e) && Wants(c.judgement)
    ensures t in items && t.id == c.tipId && t.house == c.house && c.removed == Contribution(t)
    ensures Counts(t, SuppressedTips(links))
    ensures c.tipId !in Occupied(links) && c.houseId !in Occupied(links)
  {
    hide Candidates, Searchable, Edges, JudgeIn, Contribution;
    var x := WantedEdge(items, links, f, e, c);
    SearchableMembers(items, Occupied(links));
    t := x.tip;
  }

  /** After any prefix of the plan, the predicted totals are the totals of the bets still counted. */
  lemma {:induction false} PrefixConservation(items: seq<Source>, links: seq<Link>, f: Filters, e: Engine, k: nat)
    requires Scanned(items) && ScannedLinks(links) && k <= |Candidates(items, links, f, e)|
    ensures var c := Candidates(items, links, f, e);
            Expected(Totals(items, SuppressedTips(links)), c[..k])
            == Totals(items, SuppressedTips(links) + TakenTips(c[..k]))
  {
    hide Candidates, Sub, Contribution, Totals;
    var c := Candidates(items, links, f, e);
    var suppressed := SuppressedTips(links);
    if k == 0 {
      assert suppressed + TakenTips(c[..0]) == suppressed;
    } else {
      PrefixConservation(items, links, f, e, k - 1);
      TakenStep(c, k - 1);
      assert c[..k][..k - 1] == c[..k - 1];
      if Wants(c[k - 1].judgement) {
        var t := WantedTip(items, links, f, e, c[k - 1]);
        FreshTip(items, links, f, e, k - 1);
        SuppressOne(items, suppressed + TakenTips(c[..k - 1]), t);
        assert suppressed + TakenTips(c[..k]) == suppressed + TakenTips(c[..k - 1]) + {t.id};
      } else {
        assert suppressed + TakenTips(c[..k]) == suppressed + TakenTips(c[..k - 1]);
      }
    }
  }

  lemma FreshTip(items: seq<Source>, links: seq<Link>, f: Filters, e: Engine, k: nat)
    requires Scanned(items) && ScannedLinks(links) && k < |Candidates(items, links, f, e)|
    requires Wants(Candidates(items, links, f, e)[k].judgement)
    ensures Candidates(items, links, f, e)[k].tipId !in TakenTips(Candidates(items, links, f, e)[..k])
  {
    hide Candidates;
    var c := Candidates(items, links, f, e);
    forall i | 0 <= i < k && Wants(c[i].judgement) ensures c[i].tipId != c[k].tipId {
      PlanIsMatching(items, links, f, e, i, k);
    }
  }

  /** The two ends of a wanted candidate differ from each other and from every other wanted end. */
  lemma EndsApart(items: seq<Source>, links: seq<Link>, f: Filters, e: Engine, i: nat, j: nat)
    requires Scanned(items) && ScannedLinks(links)
    requires i < |Candidates(items, links, f, e)| && j < |Candidates(items, links, f, e)|
    requires Wants(Candidates(items, links, f, e)[i].judgement) && Wants(Candidates(items, links, f, e)[j].judgement)
    ensures var a, b := Candidates(items, links, f, e)[i], Candidates(items, links, f, e)[j];
            && a.houseId != b.tipId && a.tipId != b.houseId
            && (i != j ==> a.houseId != b.houseId && a.tipId != b.tipId)
  {
    hide Candidates, PairCandidate, Edges, Searchable;
    if i == j {
      var x := WantedEdge(items, links, f, e, Candidates(items, links, f, e)[i]);
      SearchableMembers(items, Occupied(links));
      if x.house.id == x.tip.id { IdNamesSource(items, x.house, x.tip); }
      PairHasIds(x, SearchOf(items, links, e));
    } else {
      PlanIsMatching(items, links, f, e, i, j);
    }
  }

  lemma PairHasIds(x: Edge, s: Search)
    ensures PairCandidate(x, s).houseId == x.house.id && PairCandidate(x, s).tipId == x.tip.id
  {
  }

  /** The whole plan reaches the projected totals, and no step changes a bet count. */
  lemma PlanReachesProjection(items: seq<Source>, links: seq<Link>, f: Filters, e: Engine, k: nat)
    requires Scanned(items) && ScannedLinks(links) && k <= |Candidates(items, links, f, e)|
    ensures var r := MakeReport(items, links, f, e);
            && Expected(r.current, r.candidates) == r.projected
            && SameCounts(Expected(r.current, r.candidates[..k]), r.current)
  {
    hide Candidates, Totals;
    var r := MakeReport(items, links, f, e);
    PrefixConservation(items, links, f, e, |r.candidates|);
    PrefixConservation(items, links, f, e, k);
    assert r.candidates[..|r.candidates|] == r.candidates;
    BetCountsFixed(items, SuppressedTips(links) + TakenTips(r.candidates[..k]), SuppressedTips(links));
  }
}
