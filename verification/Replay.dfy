/**
 Reconciling bet rows with their event histories: keyset pages of bet keys, each key folded from
 its whole history, rows updated in place. Keys are ranks in the database's order; rank 0 is the
 empty string, where the paging cursor starts.
 */
module Replay {
  import opened Wrappers

  /** An event; `key` is None for events without `aposta_chave`. */
  datatype BetEvent = BetEvent(id: int, key: Option<nat>, isCash: bool, at: int, body: string)

  /**
   The state folded from a history. A field of type Option<Option<...>> says whether the key is in
   the state at all, and then whether its value is null. `others` are the remaining columns present.
   */
  datatype Folded = Folded(
    origin: Option<Option<int>>, date: Option<Option<int>>, gameDate: Option<Option<int>>, unit: Option<Option<int>>,
    stakeUnits: int, freebet: bool, others: map<string, Option<int>>)

  /** The derived columns of a bet row. */
  datatype Data = Data(
    origin: Option<int>, date: Option<int>, gameDate: Option<int>, stakeUnits: int, stake: int, face: int,
    freebet: bool, account: Option<int>, others: map<string, Option<int>>)

  datatype Row = Row(id: int, createdAt: int, updatedAt: int, data: Data)

  /**
   What stays abstract: the projection (None when a history cannot be folded), the state and the
   reference row that a complete creation snapshot yields for a missing row, units, accounts
   (None for an invalid explicit reference), the rounding of a stake to cents, and what the bet
   table asks of a row beyond the checks written out below: enumerations, widths, foreign keys.
   */
  datatype Env = Env(
    project: seq<BetEvent> -> Option<Folded>, snapshot: seq<BetEvent> -> Option<(Folded, Row)>,
    unitAt: int -> Option<int>, account: Folded -> Option<Option<int>>, cents: (int, int) -> int,
    storable: Data -> bool)

  datatype Interval = Interval(from: Option<int>, to: Option<int>)

  datatype Counters = Counters(events: nat, bets: nat, altered: nat, recreated: nat)

  const DEFAULT_UNIT := 10000
  const NOTHING := Counters(0, 0, 0, 0)

  predicate Chosen(instant: int, w: Interval) {
    (w.from.None? || instant >= w.from.value) && (w.to.None? || instant < w.to.value)
  }

  function Or(a: Option<int>, b: Option<int>): Option<int> {
    if a.Some? then a else b
  }

  // ---------------------------------------------------------------- one key

  function DateOf(s: Folded, row: Row): Option<int> {
    if s.date.Some? then s.date.value else row.data.date
  }

  /** The unit a stake is converted with; a missing or null snapshot falls back to the unit in force. */
  function UnitOf(s: Folded, row: Row, env: Env): int {
    if s.unit.Some? && s.unit.value.Some? then
      s.unit.value.value
    else
      var reference := Or(DateOf(s, row), row.data.date);
      var unit := env.unitAt(if reference.Some? then reference.value else row.createdAt);
      if unit.None? then DEFAULT_UNIT else unit.value
  }

  /** `_valores`: the columns a row must have, or None when it raises. */
  function Values(s: Folded, row: Row, env: Env): Option<Data> {
    var unit := UnitOf(s, row, env);
    var face := env.cents(s.stakeUnits, unit);
    var stake := if s.freebet then 0 else face;
    if unit <= 0 then
      None
    else if s.unit.None? && (stake != row.data.stake || face != row.data.face) then
      None
    else if s.origin.None? || env.account(s).None? then
      None
    else
      Some(Data(s.origin.value, DateOf(s, row), if s.gameDate.Some? then s.gameDate.value else row.data.gameDate,
                s.stakeUnits, stake, face, s.freebet, env.account(s).value, s.others))
  }

  /** The row's columns after `values` are written over them. */
  function Overwrite(was: Data, values: Data): Data {
    values.(others := was.others + values.others)
  }

  /** Some column in `values` differs from the row. */
  predicate Differs(was: Data, values: Data) {
    || was.(others := map[]) != values.(others := map[])
    || exists c :: c in values.others && (c !in was.others || was.others[c] != values.others[c])
  }

  lemma DiffersExactly(was: Data, values: Data)
    ensures Differs(was, values) <==> Overwrite(was, values) != was
  {
  }

  datatype Treatment =
    | Skipped
    | Unchanged
    | Altered(row: Row)
    | Recreated(row: Row)

  function ReferenceOf(s: Folded, found: Option<Row>, history: seq<BetEvent>): int
    requires history != []
  {
    var stated := if s.date.Some? then s.date.value else None;
    var reference := Or(stated, if found.Some? then found.value.data.date else None);
    if reference.Some? then reference.value else history[0].at
  }

  /** What the replay does with one key: None when it raises. */
  function Treat(history: seq<BetEvent>, found: Option<Row>, env: Env, w: Interval): Option<Treatment>
    requires history != []
  {
    var folded := env.project(history);
    if folded.None? then
      None
    else if !Chosen(ReferenceOf(folded.value, found, history), w) then
      Some(Skipped)
    else if found.None? then
      var snapshot := env.snapshot(history);
      if snapshot.None? then
        None
      else
        var values := Values(snapshot.value.0, snapshot.value.1, env);
        if values.None? then None
        else Some(Recreated(Row(snapshot.value.1.id, history[0].at, history[|history| - 1].at, values.value)))
    else
      var values := Values(folded.value, found.value, env);
      if values.None? then None
      else if Differs(found.value.data, values.value)
      then Some(Altered(found.value.(data := Overwrite(found.value.data, values.value))))
      else Some(Unchanged)
  }

  /**
   What a history does not say stays as it is: without a unit snapshot the money of the row is kept
   to the cent, and columns absent from the state keep their values.
   */
  lemma SilentColumnsStay(s: Folded, row: Row, env: Env)
    requires Values(s, row, env).Some?
    ensures var after := Overwrite(row.data, Values(s, row, env).value);
            && (s.unit.None? ==> after.stake == row.data.stake && after.face == row.data.face)
            && (s.date.None? ==> after.date == row.data.date)
            && (s.gameDate.None? ==> after.gameDate == row.data.gameDate)
            && (forall c :: c in row.data.others && c !in s.others ==>
                  c in after.others && after.others[c] == row.data.others[c])
            && (s.freebet ==> after.stake == 0) && (!s.freebet ==> after.stake == after.face)
  {
  }

  // ---------------------------------------------------------------- reconciling a key again

  /** The unit a second run uses: once the date is written, only it and the creation instant are left. */
  function UnitNext(s: Folded, row: Row, env: Env): int {
    if s.unit.Some? && s.unit.value.Some? then
      s.unit.value.value
    else
      var date := DateOf(s, row);
      var unit := env.unitAt(if date.Some? then date.value else row.createdAt);
      if unit.None? then DEFAULT_UNIT else unit.value
  }

  /** A second run converts the stake to the same cents. */
  predicate Steady(s: Folded, row: Row, env: Env) {
    UnitNext(s, row, env) > 0
    && env.cents(s.stakeUnits, UnitNext(s, row, env)) == env.cents(s.stakeUnits, UnitOf(s, row, env))
  }

  /** A state that carries its unit, or does not blank the row's date, is steady. */
  lemma CarriedUnitIsSteady(s: Folded, row: Row, env: Env)
    requires Values(s, row, env).Some?
    requires (s.unit.Some? && s.unit.value.Some?) || DateOf(s, row).Some? || row.data.date.None?
    ensures Steady(s, row, env)
  {
  }

  /** A second run leaves the row alone exactly when it does not select it or its stake is steady. */
  lemma SecondRunExactly(history: seq<BetEvent>, row: Row, env: Env, w: Interval)
    requires history != [] && Treat(history, Some(row), env, w).Some?
    requires Treat(history, Some(row), env, w).value.Altered?
    ensures var s := env.project(history).value;
            var after := Treat(history, Some(row), env, w).value.row;
            var again := Treat(history, Some(after), env, w);
            (again.Some? && (again.value.Unchanged? || again.value.Skipped?))
            <==> !Chosen(ReferenceOf(s, Some(after), history), w) || Steady(s, row, env)
  {
  }

  /** The premise is needed: a blanked date makes a legacy stake drift to the unit in force at creation. */
  lemma BlankedDateDrifts()
    ensures var s := Folded(Some(Some(1)), Some(None), None, Some(None), 2, false, map[]);
            var env := Env(_ => Some(s), _ => None, t => Some(if t == 0 then 300 else 100), _ => Some(None),
                           (units, unit) => units * unit, _ => true);
            var row := Row(1, 0, 0, Data(Some(1), Some(5), None, 2, 200, 200, false, None, map[]));
            var history := [BetEvent(1, Some(1), false, 0, "")];
            var w := Interval(None, None);
            && Treat(history, Some(row), env, w).Some? && Treat(history, Some(row), env, w).value.Altered?
            && var again := Treat(history, Some(Treat(history, Some(row), env, w).value.row), env, w);
               again.Some? && again.value.Altered?
  {
  }

  // ---------------------------------------------------------------- the whole set of keys

  type Rows = map<nat, Row>

  function History(events: seq<BetEvent>, key: nat): (r: seq<BetEvent>) {
    if events == [] then
      []
    else
      var n := |events| - 1;
      History(events[..n], key) + if events[n].key == Some(key) then [events[n]] else []
  }

  function Lookup(rows: Rows, key: nat): Option<Row> {
    if key in rows then Some(rows[key]) else None
  }

  function Count(c: Counters, t: Treatment, seen: nat): Counters {
    Counters(c.events + seen,
             c.bets + if t.Skipped? then 0 else 1,
             c.altered + if t.Altered? then 1 else 0,
             c.recreated + if t.Recreated? then 1 else 0)
  }

  function Write(rows: Rows, key: nat, t: Treatment, dry: bool): Rows {
    if !dry && Writes(t) then rows[key := t.row] else rows
  }

  predicate Writes(t: Treatment) {
    t.Altered? || t.Recreated?
  }

  // ---------------------------------------------------------------- what the bet table takes

  const TELEGRAM := 1

  function ColumnOf(d: Data, column: string): Option<int> {
    if column in d.others then d.others[column] else None
  }

  /** An origin, a stake that is not negative, none for a freebet, a message for a Telegram bet. */
  predicate RowChecks(d: Data) {
    && d.origin.Some? && d.stake >= 0 && (d.freebet ==> d.stake == 0)
    && (d.origin == Some(TELEGRAM) ==> ColumnOf(d, "chat_id").Some? && ColumnOf(d, "message_id").Some?)
  }

  /** Equal in the columns of the unique constraint, none of them null. */
  predicate SameMessage(a: Data, b: Data) {
    forall column :: column in ["chat_id", "message_id", "ordem_na_mensagem"] ==>
      ColumnOf(a, column).Some? && ColumnOf(a, column) == ColumnOf(b, column)
  }

  predicate TableTakes(rows: Rows, key: nat, d: Data, env: Env) {
    && RowChecks(d) && env.storable(d)
    && forall k :: k in rows && k != key ==> !SameMessage(rows[k].data, d)
  }

  datatype Folding = Folding(rows: Rows, counters: Counters)

  /**
   Keys in order, one at a time, against the rows as they are at that moment. Live, a write that the
   table rejects raises.
   */
  function Fold(rows: Rows, keys: seq<nat>, events: seq<BetEvent>, env: Env, w: Interval, dry: bool): Option<Folding> {
    if keys == [] then
      Some(Folding(rows, NOTHING))
    else
      var n := |keys| - 1;
      var before := Fold(rows, keys[..n], events, env, w, dry);
      var history := History(events, keys[n]);
      if before.None? || history == [] then
        None
      else
        var t := Treat(history, Lookup(before.value.rows, keys[n]), env, w);
        if t.None? then None
        else if !dry && Writes(t.value) && !TableTakes(before.value.rows, keys[n], t.value.row.data, env) then None
        else Some(Folding(Write(before.value.rows, keys[n], t.value, dry),
                          Count(before.value.counters, t.value, |history|)))
  }

  ghost predicate NoRepeat(keys: seq<nat>) {
    forall i, j :: 0 <= i < j < |keys| ==> keys[i] != keys[j]
  }

  /** A row is what its own key's treatment makes of the row it started as; other rows stay. */
  lemma {:induction false} FoldIsPointwise(rows: Rows, keys: seq<nat>, events: seq<BetEvent>, env: Env, w: Interval, k: nat)
    requires NoRepeat(keys) && Fold(rows, keys, events, env, w, false).Some?
    ensures var after := Fold(rows, keys, events, env, w, false).value.rows;
            && (k !in keys ==> Lookup(after, k) == Lookup(rows, k))
            && (k in keys ==>
                  && History(events, k) != [] && Treat(History(events, k), Lookup(rows, k), env, w).Some?
                  && var t := Treat(History(events, k), Lookup(rows, k), env, w).value;
                     Lookup(after, k) == if Writes(t) then Some(t.row) else Lookup(rows, k))
  {
    hide Treat, TableTakes;
    if keys != [] {
      var n := |keys| - 1;
      FoldIsPointwise(rows, keys[..n], events, env, w, k);
      FoldIsPointwise(rows, keys[..n], events, env, w, keys[n]);
      assert keys == keys[..n] + [keys[n]];
      assert keys[n] !in keys[..n];
    }
  }

  /** The rows a live run is about to leave, were every write taken. */
  function Intended(rows: Rows, keys: seq<nat>, events: seq<BetEvent>, env: Env, w: Interval): Rows {
    if keys == [] then
      rows
    else
      var n := |keys| - 1;
      var before := Intended(rows, keys[..n], events, env, w);
      var history := History(events, keys[n]);
      if history == [] then before
      else
        var t := Treat(history, Lookup(rows, keys[n]), env, w);
        if t.None? then before else Write(before, keys[n], t.value, false)
  }

  /** If the key at turn `i` is written, the table takes the row beside those intended before it. */
  ghost predicate TurnTaken(rows: Rows, keys: seq<nat>, events: seq<BetEvent>, env: Env, w: Interval, i: nat)
    requires i < |keys|
  {
    var history := History(events, keys[i]);
    history != [] ==>
      var t := Treat(history, Lookup(rows, keys[i]), env, w);
      t.Some? && Writes(t.value) ==>
        TableTakes(Intended(rows, keys[..i], events, env, w), keys[i], t.value.row.data, env)
  }

  ghost predicate WritesTaken(rows: Rows, keys: seq<nat>, events: seq<BetEvent>, env: Env, w: Interval) {
    forall i :: 0 <= i < |keys| ==> TurnTaken(rows, keys, events, env, w, i)
  }

  lemma TurnsGrow(rows: Rows, keys: seq<nat>, events: seq<BetEvent>, env: Env, w: Interval)
    requires keys != []
    ensures var n := |keys| - 1;
            WritesTaken(rows, keys, events, env, w)
            <==> WritesTaken(rows, keys[..n], events, env, w) && TurnTaken(rows, keys, events, env, w, n)
  {
    var n := |keys| - 1;
    hide Treat, TableTakes, Intended;
    forall i | 0 <= i < n ensures TurnTaken(rows, keys[..n], events, env, w, i) <==> TurnTaken(rows, keys, events, env, w, i) {
      assert keys[..n][..i] == keys[..i];
    }
  }

  /**
   A dry run that succeeds predicts the live run exactly when the table takes every intended write:
   then the live run succeeds with the same counters, and otherwise it raises. A live run that
   succeeds was always predicted.
   */
  lemma {:induction false} DryFoldPredictsExactly(rows: Rows, keys: seq<nat>, events: seq<BetEvent>, env: Env, w: Interval)
    requires NoRepeat(keys)
    ensures var dry, live := Fold(rows, keys, events, env, w, true), Fold(rows, keys, events, env, w, false);
            && (live.Some? <==> dry.Some? && WritesTaken(rows, keys, events, env, w))
            && (dry.Some? ==> dry.value.rows == rows)
            && (live.Some? ==> live.value == Folding(Intended(rows, keys, events, env, w), dry.value.counters))
  {
    hide Treat, Count, TableTakes, WritesTaken;
    if keys == [] {
      NoTurns(rows, events, env, w);
    } else {
      var n := |keys| - 1;
      DryFoldPredictsExactly(rows, keys[..n], events, env, w);
      TurnsGrow(rows, keys, events, env, w);
      assert keys[n] !in keys[..n];
      if Fold(rows, keys[..n], events, env, w, false).Some? {
        FoldIsPointwise(rows, keys[..n], events, env, w, keys[n]);
      }
    }
  }

  lemma NoTurns(rows: Rows, events: seq<BetEvent>, env: Env, w: Interval)
    ensures WritesTaken(rows, [], events, env, w)
  {
  }

  const CHAT_NULLED := Folded(Some(Some(TELEGRAM)), None, None, Some(Some(100)), 2, false, map["chat_id" := None])
  const PLAIN_ENV := Env(_ => Some(CHAT_NULLED), _ => None, _ => None, _ => Some(None), (units, unit) => units * unit, _ => true)
  const TELEGRAM_ROW := Row(1, 0, 0, Data(Some(TELEGRAM), Some(5), None, 2, 200, 200, false, None,
                                          map["chat_id" := Some(7), "message_id" := Some(8)]))
  const ONE_EVENT := [BetEvent(1, Some(1), false, 0, "")]

  lemma NulledTreatment() returns (after: Row)
    ensures Treat(ONE_EVENT, Some(TELEGRAM_ROW), PLAIN_ENV, Interval(None, None)) == Some(Altered(after))
    ensures !RowChecks(after.data)
  {
    var values := Data(Some(TELEGRAM), Some(5), None, 2, 200, 200, false, None, map["chat_id" := None]);
    assert Values(CHAT_NULLED, TELEGRAM_ROW, PLAIN_ENV) == Some(values);
    assert "chat_id" in values.others;
    after := TELEGRAM_ROW.(data := Overwrite(TELEGRAM_ROW.data, values));
    assert ColumnOf(after.data, "chat_id") == None;
  }

  /** A correction that nulls the chat of a Telegram bet passes the dry run and no live run. */
  lemma NulledMessageFoolsDryRun()
    ensures var rows, w := map[1 := TELEGRAM_ROW], Interval(None, None);
            && RowChecks(TELEGRAM_ROW.data)
            && Fold(rows, [1], ONE_EVENT, PLAIN_ENV, w, true).Some?
            && Fold(rows, [1], ONE_EVENT, PLAIN_ENV, w, false).None?
  {
    var rows: Rows, w := map[1 := TELEGRAM_ROW], Interval(None, None);
    var after := NulledTreatment();
    hide Treat, RowChecks;
    assert ONE_EVENT[..0] == [] && [1][..0] == [];
    assert History(ONE_EVENT, 1) == ONE_EVENT;
    assert Fold(rows, [], ONE_EVENT, PLAIN_ENV, w, false) == Fold(rows, [], ONE_EVENT, PLAIN_ENV, w, true)
           == Some(Folding(rows, NOTHING));
    assert Lookup(rows, 1) == Some(TELEGRAM_ROW);
    assert RowChecks(TELEGRAM_ROW.data) by { TelegramRowPasses(); }
  }

  lemma TelegramRowPasses()
    ensures RowChecks(TELEGRAM_ROW.data)
  {
  }

  /** Live replay keeps every existing row: same id, same creation, same update timestamp. */
  lemma RowsKeepIdentity(rows: Rows, keys: seq<nat>, events: seq<BetEvent>, env: Env, w: Interval, k: nat)
    requires NoRepeat(keys) && Fold(rows, keys, events, env, w, false).Some? && k in rows
    ensures var after := Fold(rows, keys, events, env, w, false).value.rows;
            && k in after && after[k].id == rows[k].id && after[k].createdAt == rows[k].createdAt
            && after[k].updatedAt == rows[k].updatedAt
  {
  }

  /** Every key has a row, and its stake does not depend on the date the replay would blank. */
  ghost predicate Settled(rows: Rows, keys: seq<nat>, events: seq<BetEvent>, env: Env) {
    forall k :: k in keys ==>
      && k in rows && History(events, k) != []
      && (env.project(History(events, k)).Some? ==> Steady(env.project(History(events, k)).value, rows[k], env))
  }

  lemma {:induction false} QuietFold(rows: Rows, keys: seq<nat>, events: seq<BetEvent>, env: Env, w: Interval)
    requires forall k :: k in keys ==>
               && History(events, k) != [] && Treat(History(events, k), Lookup(rows, k), env, w).Some?
               && (Treat(History(events, k), Lookup(rows, k), env, w).value.Unchanged?
                   || Treat(History(events, k), Lookup(rows, k), env, w).value.Skipped?)
    ensures var r := Fold(rows, keys, events, env, w, false);
            r.Some? && r.value.rows == rows && r.value.counters.altered == 0 && r.value.counters.recreated == 0
  {
    hide Treat;
    if keys != [] {
      QuietFold(rows, keys[..|keys| - 1], events, env, w);
      assert keys[|keys| - 1] in keys;
    }
  }

  /** A second full run alters and recreates nothing. */
  lemma SecondRunIsQuiet(rows: Rows, keys: seq<nat>, events: seq<BetEvent>, env: Env, w: Interval)
    requires NoRepeat(keys) && Settled(rows, keys, events, env)
    requires Fold(rows, keys, events, env, w, false).Some?
    ensures var once := Fold(rows, keys, events, env, w, false).value.rows;
            var again := Fold(once, keys, events, env, w, false);
            again.Some? && again.value.rows == once
            && again.value.counters.altered == 0 && again.value.counters.recreated == 0
  {
    var once := Fold(rows, keys, events, env, w, false).value.rows;
    forall k | k in keys
      ensures History(events, k) != [] && Treat(History(events, k), Lookup(once, k), env, w).Some?
      ensures Treat(History(events, k), Lookup(once, k), env, w).value.Unchanged?
              || Treat(History(events, k), Lookup(once, k), env, w).value.Skipped?
    {
      FoldIsPointwise(rows, keys, events, env, w, k);
      if Treat(History(events, k), Some(rows[k]), env, w).value.Altered? {
        SecondRunExactly(History(events, k), rows[k], env, w);
      }
    }
    QuietFold(once, keys, events, env, w);
  }
}
