/** Per-house totals and what suppressing one bet does to them. */
module Money {
  import opened Wrappers
  import opened Sources

  /** One row of totals, in cents except the two counts. */
  datatype Metrics = Metrics(bets: int, facts: int, stake: int, payout: int, profit: int, unresolved: int) {
    function Plus(o: Metrics): Metrics {
      Metrics(bets + o.bets, facts + o.facts, stake + o.stake, payout + o.payout,
              profit + o.profit, unresolved + o.unresolved)
    }

    function Minus(o: Metrics): Metrics {
      Metrics(bets - o.bets, facts - o.facts, stake - o.stake, payout - o.payout,
              profit - o.profit, unresolved - o.unresolved)
    }
  }

  const ZERO := Metrics(0, 0, 0, 0, 0, 0)
  const ONE_BET := Metrics(1, 0, 0, 0, 0, 0)

  type Ledger = map<string, Metrics>

  /** What a bet adds to its house while it counts as a financial fact. */
  function Contribution(s: Source): Metrics {
    var b := s.bet;
    Metrics(
      0, 1, b.stake,
      if b.payout.None? then 0 else b.payout.value,
      if b.payout.None? then 0 else b.payout.value - b.stake,
      if b.payout.None? || b.pending || b.graveReview then b.stake else 0)
  }

  predicate Counts(s: Source, suppressed: set<nat>) {
    s.bet.selected && s.id !in suppressed
  }

  function Share(s: Source, suppressed: set<nat>): Metrics {
    if Counts(s, suppressed) then ONE_BET.Plus(Contribution(s)) else ONE_BET
  }

  function Row(t: Ledger, house: string): Metrics {
    if house in t then t[house] else ZERO
  }

  function Add(t: Ledger, house: string, v: Metrics): Ledger {
    t[house := Row(t, house).Plus(v)]
  }

  function Sub(t: Ledger, house: string, v: Metrics): Ledger {
    t[house := Row(t, house).Minus(v)]
  }

  function Totals(items: seq<Source>, suppressed: set<nat>): (t: Ledger) {
    if items == [] then
      map[]
    else
      var last := items[|items| - 1];
      Add(Totals(items[..|items| - 1], suppressed), last.house, Share(last, suppressed))
  }

  lemma {:induction false} HousesListed(items: seq<Source>, suppressed: set<nat>)
    ensures forall s :: s in items ==> s.house in Totals(items, suppressed)
  {
    if items != [] {
      HousesListed(items[..|items| - 1], suppressed);
    }
  }

  method ComputeTotals(items: seq<Source>, suppressed: set<nat>) returns (groups: Ledger)
    ensures groups == Totals(items, suppressed)
  {
    hide Contribution;
    groups := map[];
    for i := 0 to |items|
      invariant groups == Totals(items[..i], suppressed)
    {
      var source := items[i];
      var share := ONE_BET;
      if source.bet.selected && source.id !in suppressed {
        share := share.Plus(Contribution(source));
      }
      groups := groups[source.house := Row(groups, source.house).Plus(share)];
      assert items[..i + 1][..i] == items[..i];
    }
    assert items[..|items|] == items;
  }

  lemma {:induction false} SuppressStranger(items: seq<Source>, suppressed: set<nat>, id: nat)
    requires forall s :: s in items ==> s.id != id
    ensures Totals(items, suppressed + {id}) == Totals(items, suppressed)
  {
    if items != [] {
      hide Contribution, Add, Share;
      SuppressStranger(items[..|items| - 1], suppressed, id);
      assert items[|items| - 1].id != id;
      StrangerShare(items[|items| - 1], suppressed, id);
    }
  }

  lemma StrangerShare(s: Source, suppressed: set<nat>, id: nat)
    requires s.id != id
    ensures Share(s, suppressed + {id}) == Share(s, suppressed)
  {
  }

  lemma AddThenSub(t: Ledger, house: string, v: Metrics, c: Metrics)
    ensures Sub(Add(t, house, v.Plus(c)), house, c) == Add(t, house, v)
  {
  }

  lemma SubCommutes(t: Ledger, house: string, v: Metrics, other: string, c: Metrics)
    requires other in t
    ensures Add(Sub(t, other, c), house, v) == Sub(Add(t, house, v), other, c)
  {
  }

  /** Suppressing one counted bet removes exactly its contribution, from its own house only. */
  lemma {:induction false} SuppressOne(items: seq<Source>, suppressed: set<nat>, t: Source)
    requires Scanned(items) && t in items && Counts(t, suppressed)
    ensures t.house in Totals(items, suppressed)
    ensures Totals(items, suppressed + {t.id})
            == Sub(Totals(items, suppressed), t.house, Contribution(t))
  {
    hide Contribution, Add, Sub;
    HousesListed(items, suppressed);
    var n := |items| - 1;
    var before := Totals(items[..n], suppressed);
    if items[n] == t {
      SuppressStranger(items[..n], suppressed, t.id);
      AddThenSub(before, t.house, ONE_BET, Contribution(t));
    } else {
      assert t in items[..n];
      SuppressOne(items[..n], suppressed, t);
      SubCommutes(before, items[n].house, Share(items[n], suppressed), t.house, Contribution(t));
    }
  }

  /** Bet counts do not depend on what is suppressed. */
  ghost predicate SameCounts(a: Ledger, b: Ledger) {
    a.Keys == b.Keys && forall h :: h in a ==> a[h].bets == b[h].bets
  }

  lemma {:induction false} BetCountsFixed(items: seq<Source>, a: set<nat>, b: set<nat>)
    ensures SameCounts(Totals(items, a), Totals(items, b))
  {
    if items != [] {
      hide Contribution;
      var n := |items| - 1;
      BetCountsFixed(items[..n], a, b);
      assert Share(items[n], a).bets == Share(items[n], b).bets == 1;
    }
  }

  /** A selected bet that is not withheld: what a financial fact is, apart from how totals are computed. */
  ghost predicate IsFact(s: Source, withheld: set<nat>) {
    s.bet.selected && s.id !in withheld
  }

  ghost function HouseFacts(items: seq<Source>, suppressed: set<nat>, house: string): nat {
    if items == [] then
      0
    else
      var n := |items| - 1;
      HouseFacts(items[..n], suppressed, house)
      + if items[n].house == house && IsFact(items[n], suppressed) then 1 else 0
  }

  /** A house's financial fact count is its number of selected, unsuppressed bets. */
  lemma {:induction false} FactsPerHouse(items: seq<Source>, suppressed: set<nat>, house: string)
    ensures Row(Totals(items, suppressed), house).facts == HouseFacts(items, suppressed, house)
  {
    if items != [] {
      FactsPerHouse(items[..|items| - 1], suppressed, house);
    }
  }

  /** A column summed directly over the counted bets of one house. */
  ghost function HouseSum(items: seq<Source>, suppressed: set<nat>, house: string, column: Bet -> int): int {
    if items == [] then
      0
    else
      var n := |items| - 1;
      HouseSum(items[..n], suppressed, house, column)
      + if items[n].house == house && IsFact(items[n], suppressed) then column(items[n].bet) else 0
  }

  function BetsOf(items: seq<Source>, house: string): nat {
    if items == [] then 0
    else BetsOf(items[..|items| - 1], house) + if items[|items| - 1].house == house then 1 else 0
  }

  const STAKE := (b: Bet) => b.stake
  const KNOWN_PAYOUT := (b: Bet) => if b.payout.Some? then b.payout.value else 0
  const UNKNOWN_STAKE := (b: Bet) => if b.payout.None? then b.stake else 0
  const OPEN_STAKE := (b: Bet) => if b.payout.None? || b.pending || b.graveReview then b.stake else 0

  lemma RowOneMore(items: seq<Source>, suppressed: set<nat>, house: string)
    requires items != []
    ensures var last := items[|items| - 1]; var before := Row(Totals(items[..|items| - 1], suppressed), house);
            Row(Totals(items, suppressed), house)
            == if last.house == house then before.Plus(Share(last, suppressed)) else before
  {
  }

  /**
   What a row of totals means: every bet is counted, the money is that of the selected bets no
   relation withholds, and profit is return minus stake, plus the stakes whose return is unknown.
   */
  lemma {:induction false} TotalsAreSums(items: seq<Source>, suppressed: set<nat>, house: string)
    ensures var row := Row(Totals(items, suppressed), house);
            && row.bets == BetsOf(items, house)
            && row.facts == HouseFacts(items, suppressed, house)
            && row.stake == HouseSum(items, suppressed, house, STAKE)
            && row.payout == HouseSum(items, suppressed, house, KNOWN_PAYOUT)
            && row.profit == row.payout - row.stake + HouseSum(items, suppressed, house, UNKNOWN_STAKE)
            && row.unresolved == HouseSum(items, suppressed, house, OPEN_STAKE)
  {
    if items != [] {
      hide Totals, Row;
      TotalsAreSums(items[..|items| - 1], suppressed, house);
      RowOneMore(items, suppressed, house);
    } else {
      assert Row(Totals(items, suppressed), house) == ZERO;
    }
  }
}
