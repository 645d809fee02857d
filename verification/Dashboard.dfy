/** The dashboard views: group-by sums of per-bet contributions, all of which must agree on one total. */
module Dashboard {
  import opened Wrappers
  import opened Sums

  datatype Estado = Pendente | Green | Red | Anulada | MeioGreen | MeioRed | Cashout

  /** A bet row joined with its account. Missing ids are None; `day` is its date in São Paulo. */
  datatype Bet = Bet(
    user: nat, bank: Option<nat>, house: Option<nat>, tipster: Option<nat>, market: Option<nat>, day: int,
    estado: Estado, freebet: bool, stake: int, face: int, payout: Option<int>, selected: bool, graveReview: bool)

  /** A bank with its opening balance, which the evolution view lists beside the bets. */
  datatype Bank = Bank(user: nat, id: nat, day: int, opening: int)

  /** The additive columns every view carries. */
  datatype Metrics = Metrics(
    bets: int, pending: int, greens: int, reds: int, turnover: int, roiBase: int, payout: int, profit: int, freebets: int) {
    function Plus(o: Metrics): Metrics {
      Metrics(bets + o.bets, pending + o.pending, greens + o.greens, reds + o.reds, turnover + o.turnover,
              roiBase + o.roiBase, payout + o.payout, profit + o.profit, freebets + o.freebets)
    }
  }

  const ZERO := Metrics(0, 0, 0, 0, 0, 0, 0, 0, 0)

  /** One row of `apostas_metricas`, or of the union that the evolution view adds to it. */
  datatype Line = Line(user: nat, bank: nat, house: nat, tipster: nat, market: nat, day: int, metrics: Metrics)

  predicate Settled(b: Bet) {
    b.estado != Pendente && b.estado != Anulada
  }

  function OrZero(id: Option<nat>): nat {
    if id.Some? then id.value else 0
  }

  function One(c: bool): int {
    if c then 1 else 0
  }

  function Contribution(b: Bet): Metrics {
    if !Settled(b) then
      Metrics(1, One(b.estado == Pendente), 0, 0, 0, 0, 0, 0, 0)
    else
      Metrics(1, 0, One(b.estado == Green), One(b.estado == Red), b.stake,
              if b.freebet then b.face else b.stake,
              if b.payout.Some? then b.payout.value else 0,
              if b.payout.Some? then b.payout.value - b.stake else 0,
              One(b.freebet))
  }

  /** View `apostas_metricas`. */
  function BetLines(bets: seq<Bet>): seq<Line> {
    if bets == [] then
      []
    else
      var n := |bets| - 1;
      var b := bets[n];
      BetLines(bets[..n])
      + if b.selected && !b.graveReview
        then [Line(b.user, OrZero(b.bank), OrZero(b.house), OrZero(b.tipster), OrZero(b.market), b.day, Contribution(b))]
        else []
  }

  /** The bank rows of the evolution view: no bets, only a place for the opening balance. */
  function BankLines(banks: seq<Bank>): seq<Line> {
    if banks == [] then
      []
    else
      var n := |banks| - 1;
      BankLines(banks[..n]) + [Line(banks[n].user, banks[n].id, 0, 0, 0, banks[n].day, ZERO)]
  }

  // ---------------------------------------------------------------- group by

  /** Column values of one group; columns a view does not group by are zero. */
  datatype Key = Key(user: nat, bank: nat, house: nat, tipster: nat, market: nat, day: int)

  type View = map<Key, Metrics>

  function Row(v: View, k: Key): Metrics {
    if k in v then v[k] else ZERO
  }

  /** SELECT key, SUM(...) FROM lines GROUP BY key. */
  function GroupBy(lines: seq<Line>, key: Line -> Key): View {
    if lines == [] then
      map[]
    else
      var n := |lines| - 1;
      var v := GroupBy(lines[..n], key);
      v[key(lines[n]) := Row(v, key(lines[n])).Plus(lines[n].metrics)]
  }

  function ByUser(l: Line): Key { Key(l.user, 0, 0, 0, 0, 0) }
  function ByHouse(l: Line): Key { Key(l.user, 0, l.house, 0, 0, 0) }
  function ByTipster(l: Line): Key { Key(l.user, 0, 0, l.tipster, 0, 0) }
  function ByMarket(l: Line): Key { Key(l.user, 0, 0, 0, l.market, 0) }
  function ByPeriod(start: int -> int): Line -> Key { (l: Line) => Key(l.user, 0, l.house, l.tipster, l.market, start(l.day)) }
  function ByEvolution(l: Line): Key { Key(l.user, l.bank, l.house, l.tipster, l.market, l.day) }

  /** View `painel_resumo`, its additive columns for one user. */
  function Summary(bets: seq<Bet>, user: nat): Metrics {
    Row(GroupBy(BetLines(bets), ByUser), Key(user, 0, 0, 0, 0, 0))
  }

  // ---------------------------------------------------------------- marginals

  /** A column of the metrics. */
  datatype Column = Bets | Pending | Greens | Reds | Turnover | RoiBase | Payout | Profit | Freebets

  function Get(m: Metrics, c: Column): int {
    match c
    case Bets => m.bets
    case Pending => m.pending
    case Greens => m.greens
    case Reds => m.reds
    case Turnover => m.turnover
    case RoiBase => m.roiBase
    case Payout => m.payout
    case Profit => m.profit
    case Freebets => m.freebets
  }

  lemma GetPlus(a: Metrics, b: Metrics, c: Column)
    ensures Get(a.Plus(b), c) == Get(a, c) + Get(b, c)
  {
  }

  /** The plain total of one user's lines, with no grouping at all. */
  function UserTotal(lines: seq<Line>, user: nat, c: Column): int {
    if lines == [] then
      0
    else
      var n := |lines| - 1;
      UserTotal(lines[..n], user, c) + if lines[n].user == user then Get(lines[n].metrics, c) else 0
  }

  ghost function KeysOf(v: View, user: nat): set<Key> {
    set k | k in v && k.user == user
  }

  /** The sum of one column over the rows that a view shows to one user. */
  ghost function Marginal(v: View, user: nat, c: Column): int {
    SumOver(KeysOf(v, user), (k: Key) => Get(Row(v, k), c))
  }

  /** Whatever a view groups by, as long as it keeps users apart, its rows add up to the user's total. */
  lemma {:induction false} GroupingConserves(lines: seq<Line>, key: Line -> Key, user: nat, c: Column)
    requires forall l :: key(l).user == l.user
    ensures Marginal(GroupBy(lines, key), user, c) == UserTotal(lines, user, c)
  {
    hide Get;
    if lines != [] {
      var n := |lines| - 1;
      var v, after := GroupBy(lines[..n], key), GroupBy(lines, key);
      GroupingConserves(lines[..n], key, user, c);
      var k, m := key(lines[n]), lines[n].metrics;
      MarginalStep(v, k, m, user, c);
    }
  }

  lemma MarginalStep(v: View, k: Key, m: Metrics, user: nat, c: Column)
    ensures Marginal(v[k := Row(v, k).Plus(m)], user, c)
            == Marginal(v, user, c) + if k.user == user then Get(m, c) else 0
  {
    var after := v[k := Row(v, k).Plus(m)];
    var f, g := (x: Key) => Get(Row(v, x), c), (x: Key) => Get(Row(after, x), c);
    GetPlus(Row(v, k), m, c);
    hide Get;
    if k.user == user {
      assert KeysOf(after, user) == KeysOf(v, user) + {k};
      SumAt(KeysOf(after, user), f, g, k);
      if k !in v {
        SumRemove(KeysOf(after, user), f, k);
        assert KeysOf(after, user) - {k} == KeysOf(v, user);
        ZeroGets(c);
      } else {
        assert KeysOf(after, user) == KeysOf(v, user);
      }
    } else {
      assert KeysOf(after, user) == KeysOf(v, user);
      SumSame(KeysOf(v, user), f, g);
    }
  }

  lemma ZeroGets(c: Column)
    ensures Get(ZERO, c) == 0
  {
  }

  lemma {:induction false} SummaryIsTotal(lines: seq<Line>, user: nat, c: Column)
    ensures Get(Row(GroupBy(lines, ByUser), Key(user, 0, 0, 0, 0, 0)), c) == UserTotal(lines, user, c)
  {
    if lines == [] {
      ZeroGets(c);
    } else {
      var n := |lines| - 1;
      SummaryIsTotal(lines[..n], user, c);
      GetPlus(Row(GroupBy(lines[..n], ByUser), ByUser(lines[n])), lines[n].metrics, c);
      hide Get;
    }
  }

  lemma {:induction false} BanksAddNothing(lines: seq<Line>, banks: seq<Bank>, user: nat, c: Column)
    ensures UserTotal(lines + BankLines(banks), user, c) == UserTotal(lines, user, c)
  {
    ZeroGets(c);
    if banks == [] {
      assert lines + BankLines(banks) == lines;
    } else {
      var n := |banks| - 1;
      BanksAddNothing(lines, banks[..n], user, c);
      var all := lines + BankLines(banks);
      assert all[..|all| - 1] == lines + BankLines(banks[..n]);
    }
  }

  /**
   Every additive column agrees: summed over the views by house, tipster and market, over the
   evolution view, and over any single granularity of the period view, it is the summary's.
   */
  lemma MarginalsAgree(bets: seq<Bet>, banks: seq<Bank>, start: int -> int, user: nat, c: Column)
    ensures var lines := BetLines(bets); var total := Get(Summary(bets, user), c);
            && Marginal(GroupBy(lines, ByHouse), user, c) == total
            && Marginal(GroupBy(lines, ByTipster), user, c) == total
            && Marginal(GroupBy(lines, ByMarket), user, c) == total
            && Marginal(GroupBy(lines, ByPeriod(start)), user, c) == total
            && Marginal(GroupBy(lines + BankLines(banks), ByEvolution), user, c) == total
  {
    hide Get, GroupBy, Marginal;
    var lines := BetLines(bets);
    SummaryIsTotal(lines, user, c);
    GroupingConserves(lines, ByHouse, user, c);
    GroupingConserves(lines, ByTipster, user, c);
    GroupingConserves(lines, ByMarket, user, c);
    GroupingConserves(lines, ByPeriod(start), user, c);
    GroupingConserves(lines + BankLines(banks), ByEvolution, user, c);
    BanksAddNothing(lines, banks, user, c);
  }

  // ---------------------------------------------------------------- what the summary says

  predicate InDashboard(b: Bet, user: nat) {
    b.selected && !b.graveReview && b.user == user
  }

  /** A value summed directly over the bets the dashboard shows a user. */
  function DirectSum(bets: seq<Bet>, user: nat, value: Bet -> int): int {
    if bets == [] then
      0
    else
      var b := bets[|bets| - 1];
      DirectSum(bets[..|bets| - 1], user, value) + if InDashboard(b, user) then value(b) else 0
  }

  /** The bet was decided or cashed out: neither pending nor voided. */
  ghost predicate Closed(b: Bet) {
    b.estado == Green || b.estado == Red || b.estado == MeioGreen || b.estado == MeioRed || b.estado == Cashout
  }

  /** What one bet is worth to a column, state by state. */
  ghost function Worth(b: Bet, c: Column): int {
    match c
    case Bets => 1
    case Pending => if b.estado == Pendente then 1 else 0
    case Greens => if b.estado == Green then 1 else 0
    case Reds => if b.estado == Red then 1 else 0
    case Turnover => if Closed(b) then b.stake else 0
    case RoiBase => if Closed(b) && b.freebet then b.face else if Closed(b) then b.stake else 0
    case Payout => if Closed(b) && b.payout != None then b.payout.value else 0
    case Profit => if Closed(b) && b.payout != None then b.payout.value - b.stake else 0
    case Freebets => if Closed(b) && b.freebet then 1 else 0
  }

  ghost const WORTH := (c: Column) => (b: Bet) => Worth(b, c)
  ghost const UNKNOWN_STAKE := (b: Bet) => if Closed(b) && b.payout == None then b.stake else 0

  lemma ContributionWorth(b: Bet, c: Column)
    ensures Get(Contribution(b), c) == Worth(b, c)
  {
  }

  lemma {:induction false} LinesAreDirect(bets: seq<Bet>, user: nat, c: Column, value: Bet -> int)
    requires forall b :: Get(Contribution(b), c) == value(b)
    ensures UserTotal(BetLines(bets), user, c) == DirectSum(bets, user, value)
  {
    if bets != [] {
      hide Contribution, Get, BetLines, UserTotal;
      LinesAreDirect(bets[..|bets| - 1], user, c, value);
      LastBet(bets, user, c);
    }
  }

  /** Each column of the summary is the sum of what the shown bets are worth to it. */
  lemma SummaryMeans(bets: seq<Bet>, user: nat, c: Column)
    ensures Get(Summary(bets, user), c) == DirectSum(bets, user, WORTH(c))
  {
    hide Summary, DirectSum, Contribution, Worth, Get;
    forall b ensures Get(Contribution(b), c) == WORTH(c)(b) {
      ContributionWorth(b, c);
    }
    ColumnIs(bets, user, c, WORTH(c));
  }

  lemma {:induction false} SumWithOneMore(a: seq<Bet>, b: Bet, z: seq<Bet>, user: nat, value: Bet -> int)
    ensures DirectSum(a + [b] + z, user, value)
            == DirectSum(a + z, user, value) + if b.selected && !b.graveReview && b.user == user then value(b) else 0
  {
    if z == [] {
      assert a + [b] + z == a + [b] && a + z == a;
      assert (a + [b])[..|a|] == a;
    } else {
      var n := |z| - 1;
      SumWithOneMore(a, b, z[..n], user, value);
      assert (a + [b] + z)[..|a| + 1 + n] == a + [b] + z[..n];
      assert (a + z)[..|a| + n] == a + z[..n];
    }
  }

  /**
   One bet more, anywhere, adds its worth to its own user's columns, if it is shown. A pending or
   voided bet adds to the number of bets and to the pending ones at most.
   */
  lemma OneBetMore(a: seq<Bet>, b: Bet, z: seq<Bet>, user: nat, c: Column)
    ensures Get(Summary(a + [b] + z, user), c)
            == Get(Summary(a + z, user), c) + if b.selected && !b.graveReview && b.user == user then Worth(b, c) else 0
    ensures b.estado == Pendente && c != Bets && c != Pending ==> Get(Summary(a + [b] + z, user), c) == Get(Summary(a + z, user), c)
    ensures b.estado == Anulada && c != Bets ==> Get(Summary(a + [b] + z, user), c) == Get(Summary(a + z, user), c)
  {
    hide Summary, DirectSum, Get;
    SummaryMeans(a + [b] + z, user, c);
    SummaryMeans(a + z, user, c);
    SumWithOneMore(a, b, z, user, WORTH(c));
  }

  lemma ColumnIs(bets: seq<Bet>, user: nat, c: Column, value: Bet -> int)
    requires forall b :: Get(Contribution(b), c) == value(b)
    ensures Get(Summary(bets, user), c) == DirectSum(bets, user, value)
  {
    hide Contribution, Get, GroupBy, UserTotal, BetLines;
    LinesAreDirect(bets, user, c, value);
    SummaryIsTotal(BetLines(bets), user, c);
  }

  // ---------------------------------------------------------------- profit

  lemma {:induction false} ProfitOfLines(bets: seq<Bet>, user: nat)
    ensures UserTotal(BetLines(bets), user, Profit)
            == UserTotal(BetLines(bets), user, Payout) - UserTotal(BetLines(bets), user, Turnover)
               + DirectSum(bets, user, UNKNOWN_STAKE)
  {
    if bets != [] {
      hide BetLines, Contribution, UserTotal;
      var n := |bets| - 1;
      ProfitOfLines(bets[..n], user);
      LastBet(bets, user, Profit);
      LastBet(bets, user, Payout);
      LastBet(bets, user, Turnover);
      ProfitOfBet(bets[n]);
    }
  }

  lemma LastBet(bets: seq<Bet>, user: nat, c: Column)
    requires bets != []
    ensures var n := |bets| - 1; var b := bets[n];
            UserTotal(BetLines(bets), user, c)
            == UserTotal(BetLines(bets[..n]), user, c)
               + if b.selected && !b.graveReview && b.user == user then Get(Contribution(b), c) else 0
  {
    hide Contribution, Get;
    var n := |bets| - 1;
    var all := BetLines(bets);
    if bets[n].selected && !bets[n].graveReview {
      assert all[..|all| - 1] == BetLines(bets[..n]);
    } else {
      assert all == BetLines(bets[..n]);
    }
  }

  lemma ProfitOfBet(b: Bet)
    ensures Get(Contribution(b), Profit)
            == Get(Contribution(b), Payout) - Get(Contribution(b), Turnover)
               + UNKNOWN_STAKE(b)
  {
  }

  /** Total profit is total return minus turnover, plus the turnover whose return is unknown. */
  lemma ProfitIdentity(bets: seq<Bet>, user: nat)
    ensures var s := Summary(bets, user);
            s.profit == s.payout - s.turnover + DirectSum(bets, user, UNKNOWN_STAKE)
  {
    hide GroupBy, UserTotal;
    ProfitOfLines(bets, user);
    SummaryIsTotal(BetLines(bets), user, Profit);
    SummaryIsTotal(BetLines(bets), user, Payout);
    SummaryIsTotal(BetLines(bets), user, Turnover);
  }

  // ---------------------------------------------------------------- what each row of a view says

  /** A value summed over the shown bets that `pick` picks. */
  ghost function PickedSum(bets: seq<Bet>, pick: Bet -> bool, value: Bet -> int): int {
    if bets == [] then
      0
    else
      var b := bets[|bets| - 1];
      PickedSum(bets[..|bets| - 1], pick, value)
      + if b.selected && !b.graveReview && pick(b) then value(b) else 0
  }

  function LineOf(b: Bet): Line {
    Line(b.user, OrZero(b.bank), OrZero(b.house), OrZero(b.tipster), OrZero(b.market), b.day, Contribution(b))
  }

  lemma {:induction false} RowMeans(bets: seq<Bet>, key: Line -> Key, k: Key, c: Column, pick: Bet -> bool)
    requires forall b :: key(LineOf(b)) == k <==> pick(b)
    ensures Get(Row(GroupBy(BetLines(bets), key), k), c) == PickedSum(bets, pick, WORTH(c))
  {
    hide Contribution, Get, Worth;
    if bets == [] {
      ZeroGets(c);
      assert BetLines(bets) == [];
    } else {
      var n := |bets| - 1;
      var b, lines, rest := bets[n], BetLines(bets), BetLines(bets[..n]);
      RowMeans(bets[..n], key, k, c, pick);
      if b.selected && !b.graveReview {
        assert lines == rest + [LineOf(b)];
        assert lines[..|lines| - 1] == rest;
        GetPlus(Row(GroupBy(rest, key), key(LineOf(b))), LineOf(b).metrics, c);
        ContributionWorth(b, c);
      } else {
        assert lines == rest;
      }
    }
  }

  /** The id a view shows: zero stands for a missing one. */
  ghost predicate Is(id: Option<nat>, shown: nat) {
    id == Some(shown) || (id == None && shown == 0)
  }

  ghost function OfHouse(user: nat, house: nat): Bet -> bool { (b: Bet) => b.user == user && Is(b.house, house) }
  ghost function OfTipster(user: nat, tipster: nat): Bet -> bool { (b: Bet) => b.user == user && Is(b.tipster, tipster) }
  ghost function OfMarket(user: nat, market: nat): Bet -> bool { (b: Bet) => b.user == user && Is(b.market, market) }

  ghost function OfPeriod(user: nat, house: nat, tipster: nat, market: nat, start: int -> int, day: int): Bet -> bool {
    (b: Bet) => b.user == user && Is(b.house, house) && Is(b.tipster, tipster) && Is(b.market, market) && start(b.day) == day
  }

  ghost function OfDay(user: nat, bank: nat, house: nat, tipster: nat, market: nat, day: int): Bet -> bool {
    (b: Bet) => b.user == user && Is(b.bank, bank) && Is(b.house, house) && Is(b.tipster, tipster) && Is(b.market, market) && b.day == day
  }

  /** Each row of the views by house, tipster and market sums what its own bets are worth. */
  lemma NarrowViewsMean(bets: seq<Bet>, c: Column, user: nat, house: nat, tipster: nat, market: nat)
    ensures var lines := BetLines(bets);
            && Get(Row(GroupBy(lines, ByHouse), Key(user, 0, house, 0, 0, 0)), c) == PickedSum(bets, OfHouse(user, house), WORTH(c))
            && Get(Row(GroupBy(lines, ByTipster), Key(user, 0, 0, tipster, 0, 0)), c) == PickedSum(bets, OfTipster(user, tipster), WORTH(c))
            && Get(Row(GroupBy(lines, ByMarket), Key(user, 0, 0, 0, market, 0)), c) == PickedSum(bets, OfMarket(user, market), WORTH(c))
  {
    hide GroupBy, BetLines, PickedSum, Get, Contribution;
    forall b ensures ByHouse(LineOf(b)) == Key(user, 0, house, 0, 0, 0) <==> OfHouse(user, house)(b) {
    }
    RowMeans(bets, ByHouse, Key(user, 0, house, 0, 0, 0), c, OfHouse(user, house));
    forall b ensures ByTipster(LineOf(b)) == Key(user, 0, 0, tipster, 0, 0) <==> OfTipster(user, tipster)(b) {
    }
    RowMeans(bets, ByTipster, Key(user, 0, 0, tipster, 0, 0), c, OfTipster(user, tipster));
    forall b ensures ByMarket(LineOf(b)) == Key(user, 0, 0, 0, market, 0) <==> OfMarket(user, market)(b) {
    }
    RowMeans(bets, ByMarket, Key(user, 0, 0, 0, market, 0), c, OfMarket(user, market));
  }

  /** So does each row of the view by period, at any granularity. */
  lemma PeriodViewMeans(bets: seq<Bet>, start: int -> int, c: Column, user: nat, house: nat, tipster: nat, market: nat, day: int)
    ensures Get(Row(GroupBy(BetLines(bets), ByPeriod(start)), Key(user, 0, house, tipster, market, day)), c)
            == PickedSum(bets, OfPeriod(user, house, tipster, market, start, day), WORTH(c))
  {
    hide GroupBy, BetLines, PickedSum, Get, Contribution;
    var k := Key(user, 0, house, tipster, market, day);
    forall b ensures ByPeriod(start)(LineOf(b)) == k <==> OfPeriod(user, house, tipster, market, start, day)(b) {
    }
    RowMeans(bets, ByPeriod(start), k, c, OfPeriod(user, house, tipster, market, start, day));
  }

  /** And each row of the evolution view, bank rows included. */
  lemma EvolutionViewMeans(bets: seq<Bet>, banks: seq<Bank>, c: Column, user: nat, bank: nat, house: nat, tipster: nat, market: nat, day: int)
    ensures Get(Row(GroupBy(BetLines(bets) + BankLines(banks), ByEvolution), Key(user, bank, house, tipster, market, day)), c)
            == PickedSum(bets, OfDay(user, bank, house, tipster, market, day), WORTH(c))
  {
    hide GroupBy, BetLines, PickedSum, Get, Contribution;
    var k := Key(user, bank, house, tipster, market, day);
    forall b ensures ByEvolution(LineOf(b)) == k <==> OfDay(user, bank, house, tipster, market, day)(b) {
    }
    RowMeans(bets, ByEvolution, k, c, OfDay(user, bank, house, tipster, market, day));
    BanksKeepRows(BetLines(bets), banks, k);
  }

  lemma {:induction false} BanksKeepRows(lines: seq<Line>, banks: seq<Bank>, k: Key)
    ensures Row(GroupBy(lines + BankLines(banks), ByEvolution), k) == Row(GroupBy(lines, ByEvolution), k)
  {
    hide GroupBy;
    if banks == [] {
      assert lines + BankLines(banks) == lines;
    } else {
      var n := |banks| - 1;
      var last := Line(banks[n].user, banks[n].id, 0, 0, 0, banks[n].day, ZERO);
      BanksKeepRows(lines, banks[..n], k);
      OneZeroMore(lines + BankLines(banks[..n]), last, k);
      assert lines + BankLines(banks) == lines + BankLines(banks[..n]) + [last];
    }
  }

  lemma OneZeroMore(lines: seq<Line>, last: Line, k: Key)
    requires last.metrics == ZERO
    ensures Row(GroupBy(lines + [last], ByEvolution), k) == Row(GroupBy(lines, ByEvolution), k)
  {
    hide Metrics.Plus;
    assert (lines + [last])[..|lines + [last]| - 1] == lines;
    var v := GroupBy(lines, ByEvolution);
    var own := ByEvolution(last);
    PlusZero(Row(v, own));
    assert GroupBy(lines + [last], ByEvolution) == v[own := Row(v, own)];
  }

  lemma PlusZero(m: Metrics)
    ensures m.Plus(ZERO) == m
  {
  }
}
