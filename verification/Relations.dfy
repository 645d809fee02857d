/**
 The table of consolidation relations: check constraints, foreign keys, the two partial unique
 indexes and the two triggers, and the view of bets that still count as financial facts.
 */
module Relations {
  import opened Wrappers
  import opened Sources
  import opened Money

  datatype DecisionKind = Automatic | Reviewed | Legacy

  /** `audit` stands for the remaining columns, all immutable. */
  datatype Relation = Relation(
    userId: nat, houseId: nat, tipId: nat, accountId: Option<nat>, state: LinkState,
    decision: DecisionKind, audit: string, closedAt: Option<int>, closeReason: Option<string>)

  datatype BetRow = BetRow(userId: nat, origin: Origin)

  /** Bets, accounts (to their owner) and relations, each by primary key. */
  datatype Tables = Tables(bets: map<nat, BetRow>, accounts: map<nat, nat>, relations: map<nat, Relation>)

  datatype Statement =
    | InsertBet(betId: nat, bet: BetRow)
    | SetOrigin(betId: nat, origin: Origin)
    | DeleteBet(betId: nat)
    | InsertRelation(id: nat, row: Relation)
    | UpdateRelation(id: nat, row: Relation)
    | DeleteRelation(id: nat)

  // ---------------------------------------------------------------- constraints

  predicate IsTipOrigin(o: Origin) {
    o.Telegram? || o.Print?
  }

  predicate CheckConstraints(r: Relation) {
    && r.houseId != r.tipId
    && (r.decision.Legacy? || r.state.Rejected? || r.accountId.Some?)
    && (r.state.Active? <==> r.closedAt.None?)
  }

  predicate ForeignKeys(t: Tables, r: Relation) {
    && r.houseId in t.bets && t.bets[r.houseId].userId == r.userId
    && r.tipId in t.bets && t.bets[r.tipId].userId == r.userId
    && (r.accountId.Some? ==> r.accountId.value in t.accounts && t.accounts[r.accountId.value] == r.userId)
  }

  /** Partial unique indexes on each side, over active rows, for a row stored under `id`. */
  predicate UniqueActive(t: Tables, id: nat, r: Relation) {
    r.state.Active? ==>
      forall i :: i in t.relations && i != id && t.relations[i].state.Active? ==>
        t.relations[i].houseId != r.houseId && t.relations[i].tipId != r.tipId
  }

  /** Trigger `consolidation_sources`, before insert. */
  predicate SourcesTrigger(t: Tables, r: Relation) {
    && r.houseId in t.bets && t.bets[r.houseId].userId == r.userId && t.bets[r.houseId].origin.Casa?
    && r.tipId in t.bets && t.bets[r.tipId].userId == r.userId && IsTipOrigin(t.bets[r.tipId].origin)
  }

  /** Trigger `consolidation_immutable`, before update. */
  predicate ImmutableTrigger(before: Relation, after: Relation) {
    && before.(state := after.state, closedAt := after.closedAt, closeReason := after.closeReason) == after
    && before.state.Active? && after.state.Unlinked?
  }

  function Execute(t: Tables, s: Statement): Option<Tables> {
    match s
    case InsertBet(id, bet) =>
      if id in t.bets then None else Some(t.(bets := t.bets[id := bet]))
    case SetOrigin(id, origin) =>
      if id !in t.bets then Some(t) else Some(t.(bets := t.bets[id := t.bets[id].(origin := origin)]))
    case DeleteBet(id) =>
      if exists r :: r in t.relations.Values && (r.houseId == id || r.tipId == id) then None
      else Some(t.(bets := t.bets - {id}))
    case InsertRelation(id, row) =>
      if id !in t.relations && SourcesTrigger(t, row) && CheckConstraints(row)
         && ForeignKeys(t, row) && UniqueActive(t, id, row)
      then Some(t.(relations := t.relations[id := row])) else None
    case UpdateRelation(id, row) =>
      if id !in t.relations then Some(t)
      else if ImmutableTrigger(t.relations[id], row) && CheckConstraints(row)
              && ForeignKeys(t, row) && UniqueActive(t, id, row)
      then Some(t.(relations := t.relations[id := row])) else None
    case DeleteRelation(id) =>
      if id in t.relations then None else Some(t)
  }

  /** A rejected statement changes nothing. */
  function Next(t: Tables, s: Statement): Tables {
    var r := Execute(t, s);
    if r.Some? then r.value else t
  }

  function Run(t: Tables, statements: seq<Statement>): Tables {
    if statements == [] then t
    else Next(Run(t, statements[..|statements| - 1]), statements[|statements| - 1])
  }

  // ---------------------------------------------------------------- statements by their columns

  /** What a new relation needs, column by column. */
  ghost predicate Acceptable(t: Tables, id: nat, row: Relation) {
    && id !in t.relations && row.houseId != row.tipId
    && row.houseId in t.bets && t.bets[row.houseId].userId == row.userId && t.bets[row.houseId].origin == Casa
    && row.tipId in t.bets && t.bets[row.tipId].userId == row.userId
    && (t.bets[row.tipId].origin == Telegram || t.bets[row.tipId].origin == Print)
    && (row.accountId == None ==> row.decision == Legacy || row.state == Rejected)
    && (forall a :: row.accountId == Some(a) ==> a in t.accounts && t.accounts[a] == row.userId)
    && (if row.state == Active then row.closedAt == None else row.closedAt != None)
    && (row.state == Active ==> forall i :: i in t.relations && t.relations[i].state == Active ==>
          t.relations[i].houseId != row.houseId && t.relations[i].tipId != row.tipId)
  }

  /** In sound tables each statement goes through exactly under what its columns say. */
  lemma StatementsExactly(t: Tables, s: Statement)
    requires Sound(t)
    ensures Execute(t, s) != None <==>
            match s
            case InsertBet(id, _) => id !in t.bets
            case SetOrigin(_, _) => true
            case DeleteBet(id) => forall i :: i in t.relations ==> t.relations[i].houseId != id && t.relations[i].tipId != id
            case InsertRelation(id, row) => Acceptable(t, id, row)
            case UpdateRelation(id, row) =>
              id in t.relations ==>
                && t.relations[id].state == Active && row.closedAt != None
                && row == t.relations[id].(state := Unlinked, closedAt := row.closedAt, closeReason := row.closeReason)
            case DeleteRelation(id) => id !in t.relations
  {
    if s.UpdateRelation? && s.id in t.relations {
      assert CheckConstraints(t.relations[s.id]) && ForeignKeys(t, t.relations[s.id]);
    }
    if s.DeleteBet? {
      forall i | i in t.relations ensures t.relations[i] in t.relations.Values {
      }
    }
  }

  // ---------------------------------------------------------------- what every run keeps

  ghost predicate Sound(t: Tables) {
    forall i :: i in t.relations ==>
      CheckConstraints(t.relations[i]) && ForeignKeys(t, t.relations[i]) && UniqueActive(t, i, t.relations[i])
  }

  lemma StepKeepsSound(t: Tables, s: Statement)
    requires Sound(t)
    ensures Sound(Next(t, s))
  {
    var after := Next(t, s);
    forall i | i in after.relations
      ensures CheckConstraints(after.relations[i]) && ForeignKeys(after, after.relations[i])
      ensures UniqueActive(after, i, after.relations[i])
    {
      if s.DeleteBet? && Execute(t, s).Some? {
        assert t.relations[i] in t.relations.Values;
      }
    }
  }

  lemma {:induction false} RunKeepsSound(t: Tables, statements: seq<Statement>)
    requires Sound(t)
    ensures Sound(Run(t, statements))
  {
    if statements != [] {
      RunKeepsSound(t, statements[..|statements| - 1]);
      StepKeepsSound(Run(t, statements[..|statements| - 1]), statements[|statements| - 1]);
    }
  }

  /** A closed decision is kept for ever, column by column: it never becomes active again. */
  lemma {:induction false} ClosedStaysClosed(t: Tables, statements: seq<Statement>, id: nat)
    requires id in t.relations && !t.relations[id].state.Active?
    ensures id in Run(t, statements).relations && Run(t, statements).relations[id] == t.relations[id]
  {
    if statements != [] {
      ClosedStaysClosed(t, statements[..|statements| - 1], id);
    }
  }

  /** No relation is ever lost, and its immutable columns are those of its insertion; only an active one changes, by being unlinked. */
  lemma {:induction false} DecisionsArePreserved(t: Tables, statements: seq<Statement>, id: nat)
    requires id in t.relations
    ensures var after := Run(t, statements).relations;
            id in after
            && after[id] == t.relations[id].(state := after[id].state, closedAt := after[id].closedAt,
                                             closeReason := after[id].closeReason)
            && (after[id] == t.relations[id] || (t.relations[id].state.Active? && after[id].state.Unlinked?))
  {
    if statements != [] {
      DecisionsArePreserved(t, statements[..|statements| - 1], id);
    }
  }

  // ---------------------------------------------------------------- one fact per linked pair

  function ActiveIds(t: Tables): set<nat> {
    set i | i in t.relations && t.relations[i].state.Active?
  }

  predicate Withholds(t: Tables, i: nat, bet: nat) {
    && i in t.relations && t.relations[i].state.Active? && t.relations[i].tipId == bet
    && bet in t.bets && t.relations[i].userId == t.bets[bet].userId
  }

  /** View `apostas_financeiras`: bets that no active relation of their user withholds. */
  function FinancialBets(t: Tables): set<nat> {
    set b | b in t.bets && !exists i :: i in t.relations && Withholds(t, i, b)
  }

  function TipsOf(t: Tables, ids: set<nat>): set<nat>
    requires ids <= t.relations.Keys
  {
    set i | i in ids :: t.relations[i].tipId
  }

  lemma {:induction false} TipsAreDistinct(t: Tables, ids: set<nat>)
    requires Sound(t) && ids <= ActiveIds(t)
    ensures |TipsOf(t, ids)| == |ids|
    decreases |ids|
  {
    if ids != {} {
      var k :| k in ids;
      TipsAreDistinct(t, ids - {k});
      assert UniqueActive(t, k, t.relations[k]);
      assert TipsOf(t, ids) == TipsOf(t, ids - {k}) + {t.relations[k].tipId};
    }
  }

  lemma WithheldExactly(t: Tables, b: nat)
    requires Sound(t)
    ensures b in FinancialBets(t) <==> b in t.bets && b !in TipsOf(t, ActiveIds(t))
    ensures b in TipsOf(t, ActiveIds(t)) ==> b in t.bets
  {
  }

  /** A bet counts as a financial fact exactly when no active relation has it as its tip. */
  lemma FinancialExactly(t: Tables, b: nat)
    requires Sound(t)
    ensures b in FinancialBets(t) <==> b in t.bets && forall i :: i in t.relations && t.relations[i].state == Active ==> t.relations[i].tipId != b
  {
    forall i | i in t.relations ensures ForeignKeys(t, t.relations[i]) {
    }
  }

  /** Every active relation removes exactly one row from the view of financial facts. */
  lemma FinancialCount(t: Tables)
    requires Sound(t)
    ensures |FinancialBets(t)| == |t.bets| - |ActiveIds(t)|
  {
    hide FinancialBets, Sound;
    var tips := TipsOf(t, ActiveIds(t));
    TipsAreDistinct(t, ActiveIds(t));
    forall b ensures b in FinancialBets(t) <==> b in t.bets.Keys - tips
             ensures b in tips ==> b in t.bets {
      WithheldExactly(t, b);
    }
    assert FinancialBets(t) == t.bets.Keys - tips;
  }

  /** The counting law over every run, from any table that satisfied its constraints. */
  lemma OneFactPerPair(t: Tables, statements: seq<Statement>)
    requires Sound(t)
    ensures var after := Run(t, statements);
            |FinancialBets(after)| == |after.bets| - |ActiveIds(after)|
  {
    RunKeepsSound(t, statements);
    FinancialCount(Run(t, statements));
  }

  /** Active relations join a casa bet to a Telegram bet, and no bet takes part in two of them. */
  ghost predicate Matching(t: Tables) {
    forall i, j :: i in ActiveIds(t) && j in ActiveIds(t) && i != j ==>
      && t.relations[i].houseId != t.relations[j].houseId && t.relations[i].tipId != t.relations[j].tipId
      && t.relations[i].houseId != t.relations[j].tipId
  }

  ghost predicate Sided(t: Tables) {
    forall i :: i in ActiveIds(t) ==>
      && t.relations[i].houseId in t.bets && t.bets[t.relations[i].houseId].origin.Casa?
      && t.relations[i].tipId in t.bets && IsTipOrigin(t.bets[t.relations[i].tipId].origin)
  }

  lemma SidedIsMatching(t: Tables)
    requires Sound(t) && Sided(t)
    ensures Matching(t)
  {
  }

  /** Rewriting `bet` to `origin` puts an end of relation `r` on the wrong side. */
  predicate Displaces(r: Relation, bet: nat, origin: Origin) {
    r.state.Active? && ((r.houseId == bet && !origin.Casa?) || (r.tipId == bet && !IsTipOrigin(origin)))
  }

  predicate SwitchesSide(t: Tables, s: Statement) {
    s.SetOrigin? && exists i :: i in t.relations && Displaces(t.relations[i], s.betId, s.origin)
  }

  /** The triggers keep active relations two-sided exactly when no statement rewrites a linked origin. */
  lemma SidedExactly(t: Tables, s: Statement)
    requires Sound(t) && Sided(t)
    ensures Sided(Next(t, s)) <==> !SwitchesSide(t, s)
  {
    var after := Next(t, s);
    if SwitchesSide(t, s) {
      var i :| i in t.relations && Displaces(t.relations[i], s.betId, s.origin);
      assert ForeignKeys(t, t.relations[i]);
      assert i in ActiveIds(after);
    } else {
      forall i | i in ActiveIds(after)
        ensures after.relations[i].houseId in after.bets && after.bets[after.relations[i].houseId].origin.Casa?
        ensures after.relations[i].tipId in after.bets && IsTipOrigin(after.bets[after.relations[i].tipId].origin)
      {
        if i in ActiveIds(t) {
          if s.DeleteBet? && Execute(t, s).Some? {
            assert t.relations[i] in t.relations.Values;
          }
        }
      }
    }
  }

  /** Every run that never rewrites the origin of a linked bet ends in a matching. */
  lemma {:induction false} RunKeepsMatching(t: Tables, statements: seq<Statement>)
    requires Sound(t) && Sided(t)
    requires forall k :: 0 <= k < |statements| ==> !SwitchesSide(Run(t, statements[..k]), statements[k])
    ensures Sided(Run(t, statements)) && Matching(Run(t, statements))
  {
    var n := |statements| - 1;
    if statements != [] {
      forall k | 0 <= k < n ensures !SwitchesSide(Run(t, statements[..n][..k]), statements[..n][k]) {
        assert statements[..n][..k] == statements[..k];
      }
      RunKeepsMatching(t, statements[..n]);
      RunKeepsSound(t, statements[..n]);
      SidedExactly(Run(t, statements[..n]), statements[n]);
    }
    RunKeepsSound(t, statements);
    SidedIsMatching(Run(t, statements));
  }

  /** Without that condition the matching is lost: the insert trigger never looks at old rows again. */
  lemma OriginRewriteBreaksMatching()
    ensures var a := Relation(1, 10, 20, Some(5), Active, Automatic, "", None, None);
            var b := Relation(1, 30, 10, Some(5), Active, Automatic, "", None, None);
            var t := Tables(map[10 := BetRow(1, Casa), 20 := BetRow(1, Telegram), 30 := BetRow(1, Casa)],
                            map[5 := 1], map[1 := a]);
            && Sound(t) && Sided(t)
            && !Matching(Run(t, [SetOrigin(10, Telegram), InsertRelation(2, b)]))
  {
    var a := Relation(1, 10, 20, Some(5), Active, Automatic, "", None, None);
    var b := Relation(1, 30, 10, Some(5), Active, Automatic, "", None, None);
    var t := Tables(map[10 := BetRow(1, Casa), 20 := BetRow(1, Telegram), 30 := BetRow(1, Casa)],
                    map[5 := 1], map[1 := a]);
    var moved := Next(t, SetOrigin(10, Telegram));
    var s := [SetOrigin(10, Telegram), InsertRelation(2, b)];
    assert s[..1] == [s[0]] && s[..1][..0] == [];
    assert Run(t, s[..1]) == moved;
    var after := Next(moved, s[1]);
    assert after.relations == map[1 := a, 2 := b];
    assert {1, 2} <= ActiveIds(after);
    assert after.relations[1].houseId == after.relations[2].tipId;
  }

  // ---------------------------------------------------------------- the report counts the same facts

  function ActiveTipsOfUser(t: Tables, u: nat): set<nat> {
    set i | i in t.relations && t.relations[i].state.Active? && t.relations[i].userId == u :: t.relations[i].tipId
  }

  /** `items` are bets of user `u`, and `links` read the same active relations as these tables hold. */
  ghost predicate Mirrors(items: seq<Source>, links: seq<Link>, t: Tables, u: nat) {
    && (forall s :: s in items ==> s.id in t.bets && t.bets[s.id].userId == u)
    && SuppressedTips(links) == ActiveTipsOfUser(t, u)
  }

  lemma SuppressedIsWithheld(items: seq<Source>, links: seq<Link>, t: Tables, u: nat, s: Source)
    requires Mirrors(items, links, t, u) && s in items
    ensures s.id in FinancialBets(t) <==> s.id !in SuppressedTips(links)
  {
  }

  ghost function CountedAt(items: seq<Source>, suppressed: set<nat>, house: string): set<Source> {
    set s | s in items && s.house == house && IsFact(s, suppressed)
  }

  lemma {:induction false} FactsAreSet(items: seq<Source>, suppressed: set<nat>, house: string)
    requires Scanned(items)
    ensures HouseFacts(items, suppressed, house) == |CountedAt(items, suppressed, house)|
  {
    hide IsFact;
    if items != [] {
      var n := |items| - 1;
      FactsAreSet(items[..n], suppressed, house);
      assert items == items[..n] + [items[n]];
      var last := if items[n].house == house && IsFact(items[n], suppressed) then {items[n]} else {};
      assert CountedAt(items, suppressed, house) == CountedAt(items[..n], suppressed, house) + last;
      assert items[n] !in CountedAt(items[..n], suppressed, house);
    }
  }

  /** The financial facts that the report counts for a house are that house's selected rows of the view. */
  lemma ReportCountsTheView(items: seq<Source>, links: seq<Link>, t: Tables, u: nat, house: string)
    requires Scanned(items) && Mirrors(items, links, t, u)
    ensures Row(Totals(items, SuppressedTips(links)), house).facts
            == |set s | s in items && s.house == house && s.bet.selected && s.id in FinancialBets(t)|
  {
    hide FinancialBets, SuppressedTips, Totals, HouseFacts, Mirrors;
    var suppressed := SuppressedTips(links);
    FactsPerHouse(items, suppressed, house);
    FactsAreSet(items, suppressed, house);
    forall s | s in items ensures IsFact(s, suppressed) <==> s.bet.selected && s.id in FinancialBets(t) {
      SuppressedIsWithheld(items, links, t, u, s);
    }
    assert CountedAt(items, suppressed, house)
           == set s | s in items && s.house == house && s.bet.selected && s.id in FinancialBets(t);
  }

  // ---------------------------------------------------------------- the statements in place

  class ConsolidationTables {
    var bets: map<nat, BetRow>
    var accounts: map<nat, nat>
    var relations: map<nat, Relation>

    function State(): Tables
      reads this
    {
      Tables(bets, accounts, relations)
    }

    method Insert(id: nat, row: Relation) returns (accepted: bool)
      requires Sound(State())
      modifies this`relations
      ensures State() == Next(old(State()), InsertRelation(id, row)) && Sound(State())
      ensures accepted <==> Acceptable(old(State()), id, row)
      ensures relations == if accepted then old(relations)[id := row] else old(relations)
    {
      ghost var before := State();
      StepKeepsSound(before, InsertRelation(id, row));
      accepted := id !in relations && SourcesTrigger(State(), row) && CheckConstraints(row)
                  && ForeignKeys(State(), row) && UniqueActive(State(), id, row);
      if accepted {
        relations := relations[id := row];
      }
    }

    /** Closing an active relation, the only update the trigger lets through. */
    method Unlink(id: nat, closedAt: int, reason: string) returns (accepted: bool)
      requires Sound(State()) && id in relations
      modifies this`relations
      ensures accepted <==> old(relations)[id].state.Active?
      ensures Sound(State())
      ensures relations == if accepted
        then old(relations)[id := old(relations)[id].(state := Unlinked, closedAt := Some(closedAt), closeReason := Some(reason))]
        else old(relations)
      ensures accepted ==> |FinancialBets(State())| == old(|FinancialBets(State())|) + 1
    {
      ghost var before := State();
      accepted := relations[id].state.Active?;
      if accepted {
        var row := relations[id].(state := Unlinked, closedAt := Some(closedAt), closeReason := Some(reason));
        relations := relations[id := row];
        StepKeepsSound(before, UpdateRelation(id, row));
        assert State() == Next(before, UpdateRelation(id, row));
        FinancialCount(before);
        FinancialCount(State());
        assert ActiveIds(State()) == ActiveIds(before) - {id};
      }
    }
  }
}
