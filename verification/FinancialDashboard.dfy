/**
 The dashboard rebuilt over the financial view: each fact is one bet, and a consolidated pair counts
 once, with the tipster of its relation where the casa bet has none.
 */
module FinancialDashboard {
  import opened Wrappers
  import D = Dashboard
  import R = Relations
  import opened Sources

  /** A bet of the dashboard under its id. */
  datatype Numbered = Numbered(id: nat, bet: D.Bet)

  /** The tipster in the context of the active relation of a casa bet, if there is one. */
  ghost function ChosenTipster(t: R.Tables, bet: nat, context: R.Relation -> Option<nat>): Option<nat> {
    if i :| i in t.relations && t.relations[i].state.Active? && t.relations[i].houseId == bet
    then context(t.relations[i]) else None
  }

  /** The metrics view reads `apostas_financeiras`, and completes a missing tipster from the relation. */
  ghost function Facts(bets: seq<Numbered>, t: R.Tables, context: R.Relation -> Option<nat>): seq<D.Bet> {
    if bets == [] then
      []
    else
      var n := |bets| - 1;
      var last := bets[n];
      var tipster := if last.bet.tipster.Some? then last.bet.tipster else ChosenTipster(t, last.id, context);
      Facts(bets[..n], t, context) + if last.id in R.FinancialBets(t) then [last.bet.(tipster := tipster)] else []
  }

  /** A column summed over the shown bets of a user with the given ids. */
  ghost function ShareOf(bets: seq<Numbered>, ids: set<nat>, user: nat, c: D.Column): int {
    if bets == [] then
      0
    else
      var n := |bets| - 1;
      var last := bets[n];
      ShareOf(bets[..n], ids, user, c)
      + if last.id in ids && last.bet.user == user && last.bet.selected && !last.bet.graveReview then D.Worth(last.bet, c) else 0
  }

  lemma {:induction false} SummaryOfFacts(bets: seq<Numbered>, t: R.Tables, context: R.Relation -> Option<nat>, user: nat, c: D.Column)
    ensures D.UserTotal(D.BetLines(Facts(bets, t, context)), user, c) == ShareOf(bets, R.FinancialBets(t), user, c)
  {
    hide D.Contribution, D.Get, D.Worth, D.BetLines, D.UserTotal, R.FinancialBets, ChosenTipster;
    if bets == [] {
      NoFacts(user, c);
    } else {
      var n := |bets| - 1;
      SummaryOfFacts(bets[..n], t, context, user, c);
      if bets[n].id in R.FinancialBets(t) {
        var facts := Facts(bets, t, context);
        assert facts[..|facts| - 1] == Facts(bets[..n], t, context);
        D.LastBet(facts, user, c);
        TipsterIsNoMoney(bets[n].bet, facts[|facts| - 1].tipster);
        D.ContributionWorth(bets[n].bet, c);
      } else {
        assert Facts(bets, t, context) == Facts(bets[..n], t, context);
      }
    }
  }

  lemma NoFacts(user: nat, c: D.Column)
    ensures D.UserTotal(D.BetLines([]), user, c) == 0
  {
  }

  lemma TipsterIsNoMoney(b: D.Bet, tipster: Option<nat>)
    ensures D.Contribution(b.(tipster := tipster)) == D.Contribution(b)
  {
  }

  lemma {:induction false} ShareWithout(bets: seq<Numbered>, ids: set<nat>, gone: nat, user: nat, c: D.Column)
    requires gone in ids
    ensures ShareOf(bets, ids, user, c) == ShareOf(bets, ids - {gone}, user, c) + ShareOf(bets, {gone}, user, c)
  {
    hide D.Worth;
    if bets != [] {
      ShareWithout(bets[..|bets| - 1], ids, gone, user, c);
    }
  }

  /** A column of the summary over the facts. */
  ghost function FactColumn(bets: seq<Numbered>, t: R.Tables, context: R.Relation -> Option<nat>, user: nat, c: D.Column): int {
    D.Get(D.Summary(Facts(bets, t, context), user), c)
  }

  lemma WithheldChanges(bets: seq<Numbered>, before: R.Tables, after: R.Tables, tip: nat,
                        context: R.Relation -> Option<nat>, user: nat, c: D.Column)
    requires tip in R.FinancialBets(before) && R.FinancialBets(after) == R.FinancialBets(before) - {tip}
    ensures FactColumn(bets, after, context, user, c)
            == FactColumn(bets, before, context, user, c) - ShareOf(bets, {tip}, user, c)
  {
    hide D.Get, D.GroupBy, D.BetLines, Facts, R.FinancialBets, ShareOf;
    D.SummaryIsTotal(D.BetLines(Facts(bets, before, context)), user, c);
    D.SummaryIsTotal(D.BetLines(Facts(bets, after, context)), user, c);
    SummaryOfFacts(bets, before, context, user, c);
    SummaryOfFacts(bets, after, context, user, c);
    ShareWithout(bets, R.FinancialBets(before), tip, user, c);
  }

  /** An active relation that is accepted withholds a bet that counted until then, and no other. */
  lemma InsertWithholds(t: R.Tables, id: nat, row: R.Relation)
    requires R.Sound(t) && R.Execute(t, R.InsertRelation(id, row)).Some? && row.state.Active?
    ensures var after := R.Next(t, R.InsertRelation(id, row));
            && R.Sound(after) && row.tipId in R.FinancialBets(t)
            && R.FinancialBets(after) == R.FinancialBets(t) - {row.tipId}
  {
    var after := R.Next(t, R.InsertRelation(id, row));
    R.StepKeepsSound(t, R.InsertRelation(id, row));
    assert R.ActiveIds(after) == R.ActiveIds(t) + {id};
    assert R.UniqueActive(t, id, row);
    forall b: nat
      ensures b in R.TipsOf(after, R.ActiveIds(after)) <==> b in R.TipsOf(t, R.ActiveIds(t)) || b == row.tipId
      ensures b in R.FinancialBets(after) <==> b in R.FinancialBets(t) && b != row.tipId
    {
      R.WithheldExactly(t, b);
      R.WithheldExactly(after, b);
      if b == row.tipId {
        assert after.relations[id].tipId == b && id in R.ActiveIds(after);
      }
      if b in R.TipsOf(t, R.ActiveIds(t)) {
        var i :| i in R.ActiveIds(t) && t.relations[i].tipId == b;
        assert after.relations[i] == t.relations[i] && i in R.ActiveIds(after);
      }
    }
    R.WithheldExactly(t, row.tipId);
  }

  /**
   Activating a relation takes exactly the tip's own contribution out of every column of its user's
   summary, and touches nobody else's; the casa bet goes on counting.
   */
  lemma ActivationTakesTheTip(bets: seq<Numbered>, t: R.Tables, id: nat, row: R.Relation,
                              context: R.Relation -> Option<nat>, user: nat, c: D.Column)
    requires R.Sound(t) && R.Execute(t, R.InsertRelation(id, row)).Some? && row.state.Active?
    ensures FactColumn(bets, R.Next(t, R.InsertRelation(id, row)), context, user, c)
            == FactColumn(bets, t, context, user, c) - ShareOf(bets, {row.tipId}, user, c)
  {
    hide R.Sound, R.Execute, R.Next, R.FinancialBets, FactColumn, ShareOf;
    InsertWithholds(t, id, row);
    WithheldChanges(bets, t, R.Next(t, R.InsertRelation(id, row)), row.tipId, context, user, c);
  }

  /** Unlinking gives the same contribution back, whatever happened to other relations in between. */
  lemma UnlinkGivesBack(bets: seq<Numbered>, t: R.Tables, id: nat, row: R.Relation,
                        context: R.Relation -> Option<nat>, user: nat, c: D.Column)
    requires R.Sound(t) && id in t.relations && row.state.Unlinked? && R.Execute(t, R.UpdateRelation(id, row)).Some?
    ensures FactColumn(bets, R.Next(t, R.UpdateRelation(id, row)), context, user, c)
            == FactColumn(bets, t, context, user, c) + ShareOf(bets, {t.relations[id].tipId}, user, c)
  {
    hide R.FinancialBets, FactColumn, ShareOf;
    var after := R.Next(t, R.UpdateRelation(id, row));
    UpdateReleases(t, id, row);
    WithheldChanges(bets, after, t, t.relations[id].tipId, context, user, c);
  }

  lemma UpdateReleases(t: R.Tables, id: nat, row: R.Relation)
    requires R.Sound(t) && id in t.relations && row.state.Unlinked? && R.Execute(t, R.UpdateRelation(id, row)).Some?
    ensures var after := R.Next(t, R.UpdateRelation(id, row)); var tip := t.relations[id].tipId;
            tip in R.FinancialBets(after) && R.FinancialBets(t) == R.FinancialBets(after) - {tip}
  {
    var after := R.Next(t, R.UpdateRelation(id, row));
    var tip := t.relations[id].tipId;
    R.StepKeepsSound(t, R.UpdateRelation(id, row));
    assert R.ActiveIds(after) == R.ActiveIds(t) - {id} && id in R.ActiveIds(t);
    assert R.UniqueActive(t, id, t.relations[id]) && R.ForeignKeys(t, t.relations[id]);
    forall b: nat
      ensures b in R.FinancialBets(t) <==> b in R.FinancialBets(after) && b != tip
    {
      R.WithheldExactly(t, b);
      R.WithheldExactly(after, b);
      if b in R.TipsOf(t, R.ActiveIds(t)) && b != tip {
        var i :| i in R.ActiveIds(t) && t.relations[i].tipId == b;
        assert after.relations[i] == t.relations[i] && i in R.ActiveIds(after);
      }
      if b in R.TipsOf(after, R.ActiveIds(after)) {
        var i :| i in R.ActiveIds(after) && after.relations[i].tipId == b;
        assert after.relations[i] == t.relations[i] && i in R.ActiveIds(t);
      }
    }
    R.WithheldExactly(after, tip);
  }

  // ---------------------------------------------------------------- who a fact is credited to

  /** The bet's own tipster, else the one its active relation names, else none, which shows as zero. */
  ghost predicate Credited(b: Numbered, t: R.Tables, context: R.Relation -> Option<nat>, shown: nat) {
    if b.bet.tipster != None then
      b.bet.tipster == Some(shown)
    else
      || (exists i :: i in t.relations && t.relations[i].state == Active && t.relations[i].houseId == b.id
                      && D.Is(context(t.relations[i]), shown))
      || (shown == 0 && forall i :: i in t.relations && t.relations[i].state == Active ==> t.relations[i].houseId != b.id)
  }

  lemma CreditedExactly(b: Numbered, t: R.Tables, context: R.Relation -> Option<nat>, shown: nat)
    requires R.Sound(t)
    ensures Credited(b, t, context, shown)
            <==> D.Is(if b.bet.tipster.Some? then b.bet.tipster else ChosenTipster(t, b.id, context), shown)
  {
    if i :| i in t.relations && t.relations[i].state.Active? && t.relations[i].houseId == b.id {
      assert R.UniqueActive(t, i, t.relations[i]);
    }
  }

  /** A column over the facts of a user that are credited to a tipster. */
  ghost function CreditOf(bets: seq<Numbered>, t: R.Tables, context: R.Relation -> Option<nat>, user: nat, shown: nat, c: D.Column): int {
    if bets == [] then
      0
    else
      var last := bets[|bets| - 1];
      CreditOf(bets[..|bets| - 1], t, context, user, shown, c)
      + if last.bet.selected && !last.bet.graveReview && last.bet.user == user && Credited(last, t, context, shown)
           && (last.id in t.bets && forall i :: i in t.relations && t.relations[i].state == Active ==> t.relations[i].tipId != last.id)
        then D.Worth(last.bet, c) else 0
  }

  lemma {:induction false} CreditSums(bets: seq<Numbered>, t: R.Tables, context: R.Relation -> Option<nat>, user: nat, shown: nat, c: D.Column)
    requires R.Sound(t)
    ensures D.PickedSum(Facts(bets, t, context), D.OfTipster(user, shown), D.WORTH(c)) == CreditOf(bets, t, context, user, shown, c)
  {
    hide D.Worth, R.Sound, R.FinancialBets, ChosenTipster, Credited;
    if bets != [] {
      var n := |bets| - 1;
      var b, facts := bets[n], Facts(bets, t, context);
      CreditSums(bets[..n], t, context, user, shown, c);
      R.FinancialExactly(t, b.id);
      CreditedExactly(b, t, context, shown);
      if b.id in R.FinancialBets(t) {
        assert facts[..|facts| - 1] == Facts(bets[..n], t, context);
        SameWorth(b.bet, facts[|facts| - 1].tipster, c);
      } else {
        assert facts == Facts(bets[..n], t, context);
      }
    }
  }

  lemma SameWorth(b: D.Bet, tipster: Option<nat>, c: D.Column)
    ensures D.Worth(b.(tipster := tipster), c) == D.Worth(b, c)
  {
  }

  /** A tipster's row shows exactly the facts credited to it: a consolidated pair once, under its relation's tipster if need be. */
  lemma TipsterRowMeans(bets: seq<Numbered>, t: R.Tables, context: R.Relation -> Option<nat>, user: nat, shown: nat, c: D.Column)
    requires R.Sound(t)
    ensures D.Get(D.Row(D.GroupBy(D.BetLines(Facts(bets, t, context)), D.ByTipster), D.Key(user, 0, 0, shown, 0, 0)), c)
            == CreditOf(bets, t, context, user, shown, c)
  {
    hide D.GroupBy, D.BetLines, D.PickedSum, D.Get, Facts, R.Sound, CreditOf;
    D.NarrowViewsMean(Facts(bets, t, context), c, user, 0, shown, 0);
    CreditSums(bets, t, context, user, shown, c);
  }
}
