/** The rows one user's historical reconciliation reads: bets with their search data, and relations. */
module Sources {
  import opened Wrappers

  datatype Origin = Casa | Telegram | Print | Other

  /** A bet row. `payout` is None while the return is unknown; money is in cents. */
  datatype Bet = Bet(
    origin: Origin, selected: bool, paired: bool, duplicate: bool, graveReview: bool, pending: bool,
    stake: int, payout: Option<int>, tipsterId: Option<int>)

  /**
   A bet with the state folded from its history. `house` is never missing ("UNASSIGNED" stands in);
   `occurrence` is only read for sources without `error`, because a source without an occurrence
   instant always carries one. `evidence` is the normalized document that the engine compares.
   `events` is the length of its history, and `accountHouse` the house of its account, or
   "UNASSIGNED": what `house` falls back to when the history cannot be folded.
   */
  datatype Source = Source(
    id: nat, house: string, game: Option<int>, occurrence: int, error: Option<string>,
    evidence: string, tipster: string, bet: Bet, events: nat, accountHouse: string)

  const MAX_HISTORY := 1000

  /**
   How a bet is read once one more event was appended to its history: as before while the history
   fits, and otherwise with no state, as an incomplete history of its account's house.
   */
  function Reread(s: Source): Source {
    if s.events < MAX_HISTORY
    then s.(events := s.events + 1)
    else s.(events := s.events + 1, house := s.accountHouse, error := Some("incomplete_history"),
            game := None, evidence := "", tipster := "")
  }

  datatype LinkState = Active | Unlinked | Rejected

  datatype Link = Link(id: nat, houseId: nat, tipId: nat, state: LinkState)

  /** Sources are read by increasing positive bet id, so ids identify them. */
  ghost predicate Scanned(items: seq<Source>) {
    && (forall i, j :: 0 <= i < j < |items| ==> items[i].id < items[j].id)
    && (forall i :: 0 <= i < |items| ==> 0 < items[i].id)
  }

  predicate IsCasa(s: Source) {
    s.bet.origin.Casa?
  }

  /** Bets that an active relation already uses, on either side. */
  function Occupied(links: seq<Link>): set<nat> {
    (set l | l in links && l.state.Active? :: l.houseId) + SuppressedTips(links)
  }

  /** Bets that an active relation withholds from the totals: its Telegram side. */
  function SuppressedTips(links: seq<Link>): set<nat> {
    set l | l in links && l.state.Active? :: l.tipId
  }

  function Declined(links: seq<Link>): set<(nat, nat)> {
    set l | l in links && !l.state.Active? :: (l.houseId, l.tipId)
  }

  predicate Unpaired(s: Source, occupied: set<nat>) {
    && s.bet.origin in {Casa, Telegram, Print}
    && s.bet.selected && !s.bet.paired && !s.bet.duplicate && s.id !in occupied
  }

  predicate Eligible(s: Source, occupied: set<nat>) {
    Unpaired(s, occupied) && s.error.None?
  }

  function Searchable(items: seq<Source>, occupied: set<nat>): (r: seq<Source>) {
    if items == [] then
      []
    else
      var n := |items| - 1;
      Searchable(items[..n], occupied) + if Eligible(items[n], occupied) then [items[n]] else []
  }

  lemma {:induction false} SearchableMembers(items: seq<Source>, occupied: set<nat>)
    requires Scanned(items)
    ensures forall s :: s in Searchable(items, occupied) <==> s in items && Eligible(s, occupied)
    ensures Scanned(Searchable(items, occupied))
  {
    if items == [] {
    } else {
      var n := |items| - 1;
      var rest := Searchable(items[..n], occupied);
      SearchableMembers(items[..n], occupied);
      assert items == items[..n] + [items[n]];
      forall i | 0 <= i < |rest| ensures rest[i].id < items[n].id {
        assert rest[i] in items[..n];
      }
    }
  }

  /** In scanned rows an id names one source. */
  lemma IdNamesSource(items: seq<Source>, a: Source, b: Source)
    requires Scanned(items) && a in items && b in items && a.id == b.id
    ensures a == b
  {
  }
}
