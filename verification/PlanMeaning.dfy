/**
 What the report says, told by the columns of the bets and relations alone. Nothing here uses the
 sets, windows, degrees or predicates that the search computes with.
 */
module PlanMeaning {
  import opened Wrappers
  import opened Ordering
  import opened Sources
  import opened Matching
  import opened Money
  import opened Plan

  // ---------------------------------------------------------------- the bets and their graph

  /** Some relation that is active now has the bet on either side. */
  ghost predicate Linked(links: seq<Link>, id: nat) {
    exists l :: l in links && l.state == Active && (l.houseId == id || l.tipId == id)
  }

  ghost predicate Unsettled(s: Source, links: seq<Link>) {
    && (s.bet.origin == Casa || s.bet.origin == Telegram || s.bet.origin == Print)
    && s.bet.selected && !s.bet.paired && !s.bet.duplicate && !Linked(links, s.id)
  }

  /** A bet that may be matched. */
  ghost predicate Usable(s: Source, links: seq<Link>) {
    Unsettled(s, links) && s.error == None
  }

  /** A bet that would be matched, had its history no fault. */
  ghost predicate Broken(s: Source, links: seq<Link>) {
    Unsettled(s, links) && s.error != None
  }

  /** Two usable bets of one house, exactly one of them its own record, within the window of each other. */
  ghost predicate Near(items: seq<Source>, links: seq<Link>, a: Source, b: Source, e: Engine) {
    && a in items && b in items && Usable(a, links) && Usable(b, links)
    && a.house == b.house && (a.bet.origin == Casa <==> b.bet.origin != Casa)
    && a.occurrence - e.window <= b.occurrence <= a.occurrence + e.window
  }

  /** A house bet and a tip that the engine does not call incompatible. */
  ghost predicate Plausible(items: seq<Source>, links: seq<Link>, h: Source, t: Source, e: Engine) {
    && Near(items, links, h, t, e) && h.bet.origin == Casa
    && e.compare(h.evidence, t.evidence).evidence != IncompatibleEvidence
  }

  ghost predicate Few(items: seq<Source>, links: seq<Link>, s: Source, e: Engine) {
    |set o | o in items && Near(items, links, s, o, e)| <= e.maxNeighbors
  }

  /** Nothing can hide from the search around `s`: neither it nor a bet near it has too many others near. */
  ghost predicate Searched(items: seq<Source>, links: seq<Link>, s: Source, e: Engine) {
    Few(items, links, s, e) && forall o :: Near(items, links, s, o, e) ==> Few(items, links, o, e)
  }

  /** Neither end is plausible with any other bet. */
  ghost predicate Alone(items: seq<Source>, links: seq<Link>, h: Source, t: Source, e: Engine) {
    && (forall o :: Plausible(items, links, h, o, e) ==> o == t)
    && (forall o :: Plausible(items, links, o, t, e) ==> o == h)
  }

  /** The bets name two tipsters, by id or by name. */
  ghost predicate OtherTipster(h: Source, t: Source) {
    || (exists a, b :: h.bet.tipsterId == Some(a) && t.bet.tipsterId == Some(b) && a != 0 && b != 0 && a != b)
    || (h.tipster != t.tipster && h.tipster != "" && t.tipster != "")
  }

  /** The pair was linked before, whatever became of the relation. */
  ghost predicate Decided(links: seq<Link>, h: Source, t: Source) {
    exists l :: l in links && l.houseId == h.id && l.tipId == t.id
  }

  /** Everything a consolidation needs. */
  ghost predicate MayConsolidate(items: seq<Source>, links: seq<Link>, h: Source, t: Source, e: Engine) {
    && Plausible(items, links, h, t, e) && e.compare(h.evidence, t.evidence).evidence == ExactEvidence
    && Searched(items, links, h, e) && Searched(items, links, t, e) && Alone(items, links, h, t, e)
    && e.account(h) == UniqueAccount && !OtherTipster(h, t) && !Decided(links, h, t)
  }

  /** The filters show a bet: its house is the one asked for, and its game lies in the half-open interval. */
  ghost predicate Shown(s: Source, f: Filters) {
    && (f.house == None || f.house == Some(s.house))
    && (f.lower != None ==> s.game != None && f.lower.value <= s.game.value)
    && (f.upper != None ==> s.game != None && s.game.value < f.upper.value)
  }

  // ---------------------------------------------------------------- the search against the columns

  lemma ShownExactly(s: Source, f: Filters)
    ensures Selected(s, f) <==> Shown(s, f)
  {
  }

  lemma OccupiedExactly(links: seq<Link>, id: nat)
    ensures id in Occupied(links) <==> Linked(links, id)
    ensures id in SuppressedTips(links) <==> exists l :: l in links && l.state == Active && l.tipId == id
  {
  }

  lemma DeclinedExactly(links: seq<Link>, h: Source, t: Source)
    requires !Linked(links, h.id)
    ensures (h.id, t.id) in Declined(links) <==> Decided(links, h, t)
  {
  }

  lemma ContextExactly(h: Source, t: Source)
    ensures ContextConflict(h, t) <==> OtherTipster(h, t)
  {
    if ContextConflict(h, t) && !(h.tipster != t.tipster && h.tipster != "" && t.tipster != "") {
      assert h.bet.tipsterId == Some(h.bet.tipsterId.value) && t.bet.tipsterId == Some(t.bet.tipsterId.value);
    }
  }

  lemma SearchableExactly(items: seq<Source>, links: seq<Link>)
    requires Scanned(items)
    ensures forall s :: s in Searchable(items, Occupied(links)) <==> s in items && Usable(s, links)
    ensures Scanned(Searchable(items, Occupied(links)))
  {
    hide Searchable, Occupied, Linked;
    SearchableMembers(items, Occupied(links));
    forall s | s in items ensures Eligible(s, Occupied(links)) <==> Usable(s, links) {
      OccupiedExactly(links, s.id);
    }
  }

  lemma ReachIsNear(items: seq<Source>, links: seq<Link>, e: Engine)
    requires Scanned(items)
    ensures var all := Searchable(items, Occupied(links));
            && (forall a, b :: Reach(all, a, b, e) <==> Near(items, links, a, b, e))
            && (forall a, b :: FullEdge(all, a, b, e) <==> Plausible(items, links, a, b, e))
  {
    hide Searchable, Occupied, Usable;
    SearchableExactly(items, links);
  }

  lemma CrowdedIsNotFew(items: seq<Source>, links: seq<Link>, s: Source, e: Engine)
    requires Scanned(items)
    ensures Crowded(Searchable(items, Occupied(links)), s, e) <==> !Few(items, links, s, e)
  {
    hide Searchable, Occupied, Near, Reach;
    ReachIsNear(items, links, e);
    var all := Searchable(items, Occupied(links));
    forall o | Near(items, links, s, o, e) ensures o in items && o in all {
      NearMembers(items, links, s, o, e);
    }
    assert (set o | o in all && Reach(all, s, o, e)) == set o | o in items && Near(items, links, s, o, e);
  }

  lemma NearMembers(items: seq<Source>, links: seq<Link>, a: Source, b: Source, e: Engine)
    requires Scanned(items) && Near(items, links, a, b, e)
    ensures a in items && b in items
    ensures b in Searchable(items, Occupied(links)) && a in Searchable(items, Occupied(links))
  {
    hide Searchable, Occupied, Usable;
    SearchableExactly(items, links);
  }

  lemma SearchedExactly(items: seq<Source>, links: seq<Link>, s: Source, e: Engine)
    requires Scanned(items)
    ensures SearchComplete(Searchable(items, Occupied(links)), s, e) <==> Searched(items, links, s, e)
  {
    hide Searchable, Occupied, Near, Reach, Few, Crowded;
    ReachIsNear(items, links, e);
    CrowdedIsNotFew(items, links, s, e);
    forall o ensures Crowded(Searchable(items, Occupied(links)), o, e) <==> !Few(items, links, o, e) {
      CrowdedIsNotFew(items, links, o, e);
    }
  }

  lemma AloneExactly(items: seq<Source>, links: seq<Link>, h: Source, t: Source, e: Engine)
    requires Scanned(items)
    ensures Isolated(Searchable(items, Occupied(links)), h, t, e) <==> Alone(items, links, h, t, e)
  {
    hide Searchable, Occupied, FullEdge, Plausible;
    ReachIsNear(items, links, e);
  }

  lemma AllowsExactly(items: seq<Source>, links: seq<Link>, h: Source, t: Source, e: Engine)
    requires Scanned(items)
    ensures GraphAllows(Searchable(items, Occupied(links)), h, t, links, e) <==> MayConsolidate(items, links, h, t, e)
  {
    hide Searchable, Occupied, FullEdge, Isolated, SearchComplete, Searched, Alone, Declined, ContextConflict, OtherTipster, Decided;
    ReachIsNear(items, links, e);
    SearchedExactly(items, links, h, e);
    SearchedExactly(items, links, t, e);
    AloneExactly(items, links, h, t, e);
    ContextExactly(h, t);
    if Plausible(items, links, h, t, e) {
      DeclinedExactly(links, h, t);
    }
  }

  // ---------------------------------------------------------------- main results

  /**
   Truncated search refines the full graph: among all bets, exactly the pairs whose columns allow it
   in the complete graph are planned, and the filter only decides whether the house is in view.
   */
  lemma ConsolidateIff(items: seq<Source>, links: seq<Link>, f: Filters, e: Engine, h: Source, t: Source)
    requires Scanned(items) && h in items && t in items
    ensures (exists c :: c in Candidates(items, links, f, e) && c.judgement.action == Consolidate
                         && c.houseId == h.id && c.tipId == t.id)
            <==> Shown(h, f) && MayConsolidate(items, links, h, t, e)
  {
    hide Candidates, GraphAllows, MayConsolidate, Shown, Selected;
    PlannedFollowsGraph(items, links, f, e, h, t);
    AllowsExactly(items, links, h, t, e);
    ShownExactly(h, f);
  }

  /**
   What every planned consolidation rests on: two bets that are there, apart from every relation ever
   made between them and from every relation active now, and what the candidate says of them.
   */
  lemma WantedIsSafe(items: seq<Source>, links: seq<Link>, f: Filters, e: Engine, c: Candidate)
    returns (h: Source, t: Source)
    requires Scanned(items) && c in Candidates(items, links, f, e) && c.judgement.action == Consolidate
    ensures h in items && t in items && h.id == c.houseId && t.id == c.tipId && c.house == h.house == t.house
    ensures forall l :: l in links ==> !(l.houseId == c.houseId && l.tipId == c.tipId)
    ensures forall l :: l in links && l.state == Active ==>
              l.houseId != c.houseId && l.tipId != c.houseId && l.houseId != c.tipId && l.tipId != c.tipId
    ensures h.bet.selected && !h.bet.paired && !h.bet.duplicate && h.error == None && h.bet.origin == Casa
    ensures t.bet.selected && !t.bet.paired && !t.bet.duplicate && t.error == None
    ensures t.bet.origin == Telegram || t.bet.origin == Print
    ensures forall a, b :: h.bet.tipsterId == Some(a) && t.bet.tipsterId == Some(b) ==> a == 0 || b == 0 || a == b
    ensures h.tipster == "" || t.tipster == "" || h.tipster == t.tipster
    ensures c.removed.facts == 1 && c.removed.stake == t.bet.stake
    ensures c.removed.payout == if t.bet.payout == None then 0 else t.bet.payout.value
  {
    hide Candidates, Searchable, Edges, JudgeIn, Searched, Alone, Selected, GraphAllows;
    var x := WantedEdge(items, links, f, e, c);
    h, t := x.house, x.tip;
    AllowsExactly(items, links, h, t, e);
    PairOf(x, SearchOf(items, links, e));
    hide Contribution;
    assert Decided(links, h, t) || forall l :: l in links ==> !(l.houseId == c.houseId && l.tipId == c.tipId);
  }

  lemma PairOf(x: Edge, s: Search)
    ensures var c := PairCandidate(x, s);
            && c.houseId == x.house.id && c.tipId == x.tip.id && c.house == x.house.house
            && c.score == Some(x.verdict.score) && c.relation == None && c.judgement == JudgeIn(x, s)
            && c.removed.facts == 1 && c.removed.stake == x.tip.bet.stake
            && c.removed.payout == if x.tip.bet.payout == None then 0 else x.tip.bet.payout.value
  {
  }

  /** How a pair has to be judged, first reason first, with everything in the complete graph. */
  ghost function Judged(items: seq<Source>, links: seq<Link>, h: Source, t: Source, e: Engine): Judgement {
    var evidence := e.compare(h.evidence, t.evidence).evidence;
    if evidence == IncompatibleEvidence then
      Judgement(Incompatible, NoAction, "incompatible_evidence")
    else if !Searched(items, links, h, e) || !Searched(items, links, t, e) then
      Judgement(Competing, Review, "incomplete_search")
    else if !Alone(items, links, h, t, e) then
      Judgement(Competing, Review, "competing_sources")
    else if evidence == ProbableEvidence then
      Judgement(Probable, Review, "insufficient_evidence")
    else if Decided(links, h, t) then
      Judgement(Exact, Review, "previously_unlinked_or_rejected")
    else if OtherTipster(h, t) then
      Judgement(Exact, Review, "context_conflict")
    else if e.account(h) == InvalidReference then
      Judgement(Exact, Review, "invalid_explicit_account")
    else if e.account(h) == NoUniqueAccount then
      Judgement(Exact, Review, "account_missing_or_ambiguous_at_game")
    else
      Judgement(Exact, Consolidate, "exact_one_to_one")
  }

  /** Classification, action and reason of every scanned pair, although the search is truncated. */
  lemma JudgementIsExact(items: seq<Source>, links: seq<Link>, e: Engine, x: Edge)
    requires Scanned(items) && x in SearchOf(items, links, e).edges
    ensures Near(items, links, x.house, x.tip, e) && x.house.bet.origin == Casa
    ensures x.verdict == e.compare(x.house.evidence, x.tip.evidence)
    ensures JudgeIn(x, SearchOf(items, links, e)) == Judged(items, links, x.house, x.tip, e)
  {
    hide Searchable, Edges, VetoIds, JudgeIn, Occupied, SearchComplete, Isolated, Searched, Alone, Declined, ContextConflict;
    hide OtherTipster, Decided, Near, Reach, Scanned;
    var h, t := x.house, x.tip;
    SearchableExactly(items, links);
    EdgeIsReach(Searchable(items, Occupied(links)), x, e);
    ReachIsNear(items, links, e);
    JudgementInGraph(items, links, e, x);
    SearchedExactly(items, links, h, e);
    SearchedExactly(items, links, t, e);
    AloneExactly(items, links, h, t, e);
    ContextExactly(h, t);
    UnlinkedEnds(items, links, h, t, e);
    DeclinedExactly(links, h, t);
  }

  /**
   What is left for a person: a compatible pair is reviewed exactly when it may not be consolidated,
   and it is called competing exactly when something may be hidden or an end has a rival.
   */
  lemma ReviewIsExact(items: seq<Source>, links: seq<Link>, e: Engine, x: Edge)
    requires Scanned(items) && x in SearchOf(items, links, e).edges
    ensures var j, h, t := JudgeIn(x, SearchOf(items, links, e)), x.house, x.tip;
            var compatible := e.compare(h.evidence, t.evidence).evidence != IncompatibleEvidence;
            && (j.action == Review <==> compatible && !MayConsolidate(items, links, h, t, e))
            && (j.action == Consolidate <==> MayConsolidate(items, links, h, t, e))
            && (j.action == NoAction <==> !compatible) && (j.classification == Incompatible <==> !compatible)
            && (j.classification == Competing <==>
                  && compatible
                  && !(Searched(items, links, h, e) && Searched(items, links, t, e) && Alone(items, links, h, t, e)))
  {
    hide Near, Searched, Alone, OtherTipster, Decided, SearchOf, JudgeIn;
    JudgementIsExact(items, links, e, x);
  }

  lemma UnlinkedEnds(items: seq<Source>, links: seq<Link>, h: Source, t: Source, e: Engine)
    requires Near(items, links, h, t, e)
    ensures !Linked(links, h.id) && !Linked(links, t.id)
  {
  }

  /** The candidate that reports the pair. */
  ghost predicate Reports(c: Candidate, items: seq<Source>, links: seq<Link>, h: Source, t: Source, e: Engine) {
    && c.houseId == h.id && c.tipId == t.id && c.house == h.house && c.relation == None
    && c.score == Some(e.compare(h.evidence, t.evidence).score) && c.judgement == Judged(items, links, h, t, e)
    && c.removed.facts == 1 && c.removed.stake == t.bet.stake
    && c.removed.payout == if t.bet.payout == None then 0 else t.bet.payout.value
  }

  /** Every pair candidate reports a pair that is near and shown, as it has to be judged. */
  lemma PairsAreNear(items: seq<Source>, links: seq<Link>, f: Filters, e: Engine, c: Candidate)
    returns (h: Source, t: Source)
    requires Scanned(items) && c in Candidates(items, links, f, e) && c.score != None
    ensures Near(items, links, h, t, e) && h.bet.origin == Casa && Shown(h, f) && Reports(c, items, links, h, t, e)
  {
    hide PairCandidates, LinkedCandidates, FaultyCandidates, Edges, VetoIds, Searchable, JudgeIn, Near, Judged, Selected, Shown;
    var s := SearchOf(items, links, e);
    ScoresArePairs(items, links, f);
    assert c in Unsorted(items, links, f, e);
    PairMembers(s.edges, f, s);
    var x :| x in s.edges && Selected(x.house, f) && c == PairCandidate(x, s);
    h, t := x.house, x.tip;
    JudgementIsExact(items, links, e, x);
    PairOf(x, s);
    ShownExactly(h, f);
  }

  /** Every pair near a shown house bet that has few bets near is reported, whatever its judgement. */
  lemma NearPairsAreListed(items: seq<Source>, links: seq<Link>, f: Filters, e: Engine, h: Source, t: Source)
    returns (c: Candidate)
    requires Scanned(items) && Near(items, links, h, t, e) && h.bet.origin == Casa
    requires Shown(h, f) && Few(items, links, h, e)
    ensures c in Candidates(items, links, f, e) && Reports(c, items, links, h, t, e)
  {
    hide PairCandidates, LinkedCandidates, FaultyCandidates, VetoIds, Searchable, JudgeIn, Judged, Selected, Shown, Few, Crowded;
    hide Edges, Near, Reach, Occupied;
    var s := SearchOf(items, links, e);
    SearchableExactly(items, links);
    ReachIsNear(items, links, e);
    CrowdedIsNotFew(items, links, h, e);
    ShownExactly(h, f);
    var x := ScannedEdge(s.all, h, t, e);
    JudgementIsExact(items, links, e, x);
    PairMembers(s.edges, f, s);
    c := PairCandidate(x, s);
    PairOf(x, s);
    assert c in Unsorted(items, links, f, e);
  }

  lemma ScannedEdge(all: seq<Source>, h: Source, t: Source, e: Engine) returns (x: Edge)
    requires Scanned(all) && Reach(all, h, t, e) && h.bet.origin == Casa && !Crowded(all, h, e)
    ensures x == Edge(h, t, e.compare(h.evidence, t.evidence)) && x in Edges(all, e)
  {
    x := Edge(h, t, e.compare(h.evidence, t.evidence));
    EdgeMembers(all, all, e);
    SaturatedIsCrowded(all, h, e);
    WindowIsReach(all, h, e);
    hide EdgesFrom, Neighbors, Window, Crowded;
  }

  lemma ScoresArePairs(items: seq<Source>, links: seq<Link>, f: Filters)
    ensures forall c :: c in LinkedCandidates(links, items, f) ==> c.score == None && c.relation != None && !c.judgement.classification.Faulty?
    ensures forall c :: c in FaultyCandidates(items, Occupied(links)) ==> c.score == None && c.relation == None
  {
    hide Occupied, Selected;
    LinkedShape(items, links, f);
    FaultyShape(items, Occupied(links));
  }

  lemma {:induction false} LinkedShape(items: seq<Source>, links: seq<Link>, f: Filters)
    ensures forall c :: c in LinkedCandidates(links, items, f) ==> c.score == None && c.relation != None && !c.judgement.classification.Faulty?
  {
    if links != [] {
      LinkedShape(items, links[..|links| - 1], f);
    }
  }

  lemma {:induction false} FaultyShape(items: seq<Source>, occupied: set<nat>)
    ensures forall c :: c in FaultyCandidates(items, occupied) ==> c.score == None && c.relation == None
  {
    if items != [] {
      FaultyShape(items[..|items| - 1], occupied);
    }
  }

  // ---------------------------------------------------------------- faulty sources and active relations

  /** What the report says of a bet whose history is at fault. */
  function FaultOf(s: Source): Candidate
    requires s.error != None
  {
    Candidate(if s.bet.origin == Casa then s.id else 0, if s.bet.origin == Casa then 0 else s.id, "", None,
              Judgement(Faulty, NoAction, s.error.value), ZERO, None)
  }

  lemma {:induction false} FaultyMembers(items: seq<Source>, links: seq<Link>)
    ensures forall c :: c in FaultyCandidates(items, Occupied(links)) <==>
              exists s :: s in items && Broken(s, links) && c == FaultOf(s)
  {
    hide Occupied, Linked;
    if items != [] {
      var n := |items| - 1;
      FaultyMembers(items[..n], links);
      OccupiedExactly(links, items[n].id);
      assert items == items[..n] + [items[n]];
      assert Broken(items[n], links) <==> Unpaired(items[n], Occupied(links)) && items[n].error.Some?;
      forall c | c in FaultyCandidates(items, Occupied(links))
        ensures exists s :: s in items && Broken(s, links) && c == FaultOf(s)
      {
        if c in FaultyCandidates(items[..n], Occupied(links)) {
          var s :| s in items[..n] && Broken(s, links) && c == FaultOf(s);
          assert s in items;
        } else {
          assert items[n] in items;
        }
      }
    }
  }

  /** The faulty candidates are exactly the broken bets, whatever the filters. */
  lemma FaultyExactly(items: seq<Source>, links: seq<Link>, f: Filters, e: Engine, c: Candidate)
    requires Scanned(items)
    ensures c in Candidates(items, links, f, e) && c.judgement.classification == Faulty
            <==> exists s :: s in items && Broken(s, links) && c == FaultOf(s)
  {
    hide PairCandidates, LinkedCandidates, FaultyCandidates, SearchOf, Occupied, Broken, JudgeIn;
    var s := SearchOf(items, links, e);
    FaultyMembers(items, links);
    ScoresArePairs(items, links, f);
    PairsAreScanned(s.edges, f, s);
    assert c in Candidates(items, links, f, e) <==> c in Unsorted(items, links, f, e);
  }

  /** An active relation is reported exactly when its house bet is there and shown. */
  lemma ActiveRelationsExactly(items: seq<Source>, links: seq<Link>, f: Filters, e: Engine, l: Link)
    requires Scanned(items) && ScannedLinks(links) && l in links
    ensures (exists c :: c in Candidates(items, links, f, e) && c.relation == Some(l.id))
            <==> l.state == Active && exists h :: h in items && h.id == l.houseId && Shown(h, f)
    ensures forall c :: c in Candidates(items, links, f, e) && c.relation == Some(l.id) ==>
              c.houseId == l.houseId && c.tipId == l.tipId && c.judgement.action == NoAction
              && c.judgement.classification == AlreadyConsolidated
  {
    hide PairCandidates, LinkedCandidates, FaultyCandidates, SearchOf, Selected, Shown;
    var s := SearchOf(items, links, e);
    ScoresArePairs(items, links, f);
    PairsHaveNoRelation(s.edges, f, s);
    LinkedMembers(items, links, f, l);
    forall c ensures c in Candidates(items, links, f, e) <==> c in Unsorted(items, links, f, e) {
    }
  }

  lemma PairsHaveNoRelation(edges: seq<Edge>, f: Filters, s: Search)
    ensures forall c :: c in PairCandidates(edges, f, s) ==> c.relation == None
  {
    hide JudgeIn, Contribution;
    PairMembers(edges, f, s);
    hide PairCandidates;
  }

  lemma FoundIsThere(items: seq<Source>, id: nat, f: Filters)
    requires Scanned(items)
    ensures Find(items, id).Some? && Selected(Find(items, id).value, f)
            <==> exists h :: h in items && h.id == id && Shown(h, f)
  {
    hide Selected, Shown;
    FindMeans(items, id);
    if h :| h in items && h.id == id && Shown(h, f) {
      FindsSource(items, h);
      ShownExactly(h, f);
    }
    if Find(items, id).Some? {
      ShownExactly(Find(items, id).value, f);
    }
  }

  lemma {:induction false} FindMeans(items: seq<Source>, id: nat)
    ensures Find(items, id).Some? ==> Find(items, id).value in items && Find(items, id).value.id == id
  {
    if items != [] {
      FindMeans(items[1..], id);
    }
  }

  lemma {:induction false} LinkedMembers(items: seq<Source>, links: seq<Link>, f: Filters, l: Link)
    requires Scanned(items) && ScannedLinks(links)
    ensures (exists c :: c in LinkedCandidates(links, items, f) && c.relation == Some(l.id)) && l in links
            <==> l in links && l.state == Active && exists h :: h in items && h.id == l.houseId && Shown(h, f)
    ensures forall c :: c in LinkedCandidates(links, items, f) ==> exists k :: k in links && c.relation == Some(k.id)
    ensures l in links ==> forall c :: c in LinkedCandidates(links, items, f) && c.relation == Some(l.id) ==>
              c.houseId == l.houseId && c.tipId == l.tipId && c.judgement.action == NoAction
              && c.judgement.classification == AlreadyConsolidated
  {
    hide Selected, Shown;
    if links != [] {
      var n := |links| - 1;
      LinkedMembers(items, links[..n], f, l);
      FoundIsThere(items, links[n].houseId, f);
      assert links == links[..n] + [links[n]];
    }
  }

  // ---------------------------------------------------------------- totals

  /** A row of totals, over the selected bets of the house outside `withheld`. */
  ghost predicate SumsUp(row: Metrics, items: seq<Source>, withheld: set<nat>, house: string) {
    && row.bets == BetsOf(items, house)
    && row.facts == HouseFacts(items, withheld, house)
    && row.stake == HouseSum(items, withheld, house, STAKE)
    && row.payout == HouseSum(items, withheld, house, KNOWN_PAYOUT)
    && row.profit == row.payout - row.stake + HouseSum(items, withheld, house, UNKNOWN_STAKE)
    && row.unresolved == HouseSum(items, withheld, house, OPEN_STAKE)
  }

  /** The bet is the Telegram side of an active relation. */
  ghost predicate Withheld(links: seq<Link>, id: nat) {
    exists l :: l in links && l.state == Active && l.tipId == id
  }

  /** The plan would consolidate the bet as a tip. */
  ghost predicate Planned(items: seq<Source>, links: seq<Link>, f: Filters, e: Engine, id: nat) {
    exists h, t :: h in items && t in items && t.id == id && Shown(h, f) && MayConsolidate(items, links, h, t, e)
  }

  /**
   The current totals are over the bets that no active relation withholds, the projected ones over
   those that the plan would not withhold either.
   */
  lemma TotalsMean(items: seq<Source>, links: seq<Link>, f: Filters, e: Engine, house: string, now: set<nat>, later: set<nat>)
    requires Scanned(items)
    requires forall id :: id in now <==> Withheld(links, id)
    requires forall id :: id in later <==> Withheld(links, id) || Planned(items, links, f, e, id)
    ensures var r := MakeReport(items, links, f, e);
            SumsUp(Row(r.current, house), items, now, house) && SumsUp(Row(r.projected, house), items, later, house)
  {
    hide Candidates, SuppressedTips, Totals, Row, Withheld, Planned;
    var c := Candidates(items, links, f, e);
    forall id ensures id in SuppressedTips(links) <==> Withheld(links, id)
              ensures id in TakenTips(c) <==> Planned(items, links, f, e, id)
    {
      WithheldExactly(links, id);
      TakenExactly(items, links, f, e, id);
    }
    assert now == SuppressedTips(links);
    assert later == SuppressedTips(links) + TakenTips(c);
    TotalsAreSums(items, now, house);
    TotalsAreSums(items, later, house);
  }

  lemma WithheldExactly(links: seq<Link>, id: nat)
    ensures id in SuppressedTips(links) <==> Withheld(links, id)
  {
  }

  lemma TakenExactly(items: seq<Source>, links: seq<Link>, f: Filters, e: Engine, id: nat)
    requires Scanned(items)
    ensures id in TakenTips(Candidates(items, links, f, e)) <==> Planned(items, links, f, e, id)
  {
    hide Candidates, MayConsolidate, Shown;
    var candidates := Candidates(items, links, f, e);
    if id in TakenTips(candidates) {
      var c :| c in candidates && c.judgement.action == Consolidate && c.tipId == id;
      var h, t := WantedIsSafe(items, links, f, e, c);
      ConsolidateIff(items, links, f, e, h, t);
    }
    if h, t :| h in items && t in items && t.id == id && Shown(h, f) && MayConsolidate(items, links, h, t, e) {
      ConsolidateIff(items, links, f, e, h, t);
    }
  }
}
