/**
 What reconciling a bet row with its history means, told by the columns of the row, the state folded
 from the history and the lookups, with nothing that the replay itself computes with.
 */
module ReplayMeaning {
  import opened Wrappers
  import opened Replay

  // ---------------------------------------------------------------- one row

  /** The unit of a stake: the state's own, else the one in force at the bet's date, else the default. */
  ghost predicate UnitIs(unit: int, s: Folded, row: Row, env: Env) {
    if s.unit != None && s.unit.value != None then
      unit == s.unit.value.value
    else
      exists instant ::
        && (if s.date != None && s.date.value != None then instant == s.date.value.value
            else if row.data.date != None then instant == row.data.date.value
            else instant == row.createdAt)
        && unit == if env.unitAt(instant) == None then 10000 else env.unitAt(instant).value
  }

  /** The money columns that follow from a unit. */
  ghost predicate Money(d: Data, unit: int, s: Folded, env: Env) {
    && d.stakeUnits == s.stakeUnits && d.freebet == s.freebet && d.face == env.cents(s.stakeUnits, unit)
    && d.stake == if s.freebet then 0 else env.cents(s.stakeUnits, unit)
  }

  /** The row can be brought up to the state: a sound unit, an origin, a valid account, and no legacy money moved. */
  ghost predicate Writable(s: Folded, row: Row, env: Env) {
    && s.origin != None && env.account(s) != None
    && exists unit ::
         && UnitIs(unit, s, row, env) && unit > 0
         && (s.unit == None ==>
               && row.data.face == env.cents(s.stakeUnits, unit)
               && row.data.stake == if s.freebet then 0 else env.cents(s.stakeUnits, unit))
  }

  /** The columns say what the state says, and what it does not say they keep from the row. */
  ghost predicate Carries(after: Data, s: Folded, row: Row, env: Env)
    requires s.origin != None && env.account(s) != None
  {
    && after.origin == s.origin.value && after.account == env.account(s).value
    && after.date == (if s.date == None then row.data.date else s.date.value)
    && after.gameDate == (if s.gameDate == None then row.data.gameDate else s.gameDate.value)
    && (exists unit :: UnitIs(unit, s, row, env) && unit > 0 && Money(after, unit, s, env))
  }

  /** Over the other columns: those the state has, as it has them, and the row's own beside them. */
  ghost predicate Merged(after: map<string, Option<int>>, said: map<string, Option<int>>, was: map<string, Option<int>>) {
    && (forall c :: c in after <==> c in said || c in was)
    && (forall c :: c in said ==> after[c] == said[c])
    && (forall c :: c in was && c !in said ==> after[c] == was[c])
  }

  lemma UnitExactly(s: Folded, row: Row, env: Env)
    ensures forall unit :: UnitIs(unit, s, row, env) <==> unit == UnitOf(s, row, env)
  {
    if s.unit != None && s.unit.value != None {
    } else {
      var instant := if s.date != None && s.date.value != None then s.date.value.value
                     else if row.data.date != None then row.data.date.value else row.createdAt;
      assert UnitOf(s, row, env) == if env.unitAt(instant) == None then 10000 else env.unitAt(instant).value;
      assert UnitIs(UnitOf(s, row, env), s, row, env);
    }
  }

  lemma ValuesExactly(s: Folded, row: Row, env: Env)
    ensures Values(s, row, env) != None <==> Writable(s, row, env)
    ensures Values(s, row, env) != None ==>
              s.origin != None && env.account(s) != None
    ensures Values(s, row, env) != None ==>
              Writable(s, row, env) && Carries(Values(s, row, env).value, s, row, env) && Values(s, row, env).value.others == s.others
  {
    hide UnitIs, UnitOf;
    UnitExactly(s, row, env);
    assert UnitIs(UnitOf(s, row, env), s, row, env);
  }

  /** The replay takes the bet: its instant lies in the half-open interval. */
  ghost predicate Taken(s: Folded, found: Option<Row>, history: seq<BetEvent>, w: Interval)
    requires history != []
  {
    var instant :=
      if s.date != None && s.date.value != None then s.date.value.value
      else if found != None && found.value.data.date != None then found.value.data.date.value
      else history[0].at;
    (w.from == None || w.from.value <= instant) && (w.to == None || instant < w.to.value)
  }

  lemma TakenExactly(s: Folded, found: Option<Row>, history: seq<BetEvent>, w: Interval)
    requires history != []
    ensures Chosen(ReferenceOf(s, found, history), w) <==> Taken(s, found, history, w)
  {
  }

  /** When one key stops the replay, and when it is passed over. */
  lemma TreatRaisesExactly(history: seq<BetEvent>, found: Option<Row>, env: Env, w: Interval)
    requires history != []
    ensures Treat(history, found, env, w) == None <==>
            || env.project(history) == None
            || (Taken(env.project(history).value, found, history, w)
                && if found == None
                   then env.snapshot(history) == None || !Writable(env.snapshot(history).value.0, env.snapshot(history).value.1, env)
                   else !Writable(env.project(history).value, found.value, env))
    ensures Treat(history, found, env, w) == Some(Skipped) <==>
            env.project(history) != None && !Taken(env.project(history).value, found, history, w)
  {
    hide Values, Writable, Taken, Chosen, ReferenceOf, Differs;
    if env.project(history) != None {
      TakenExactly(env.project(history).value, found, history, w);
      if found != None {
        ValuesExactly(env.project(history).value, found.value, env);
      } else if env.snapshot(history) != None {
        ValuesExactly(env.snapshot(history).value.0, env.snapshot(history).value.1, env);
      }
    }
  }

  /** The row that an existing bet is left with: what its history says, under its old identity. */
  ghost predicate Reconciled(after: Row, row: Row, s: Folded, env: Env) {
    && after.id == row.id && after.createdAt == row.createdAt && after.updatedAt == row.updatedAt
    && Writable(s, row, env) && Carries(after.data, s, row, env) && Merged(after.data.others, s.others, row.data.others)
  }

  /** The row that a missing bet gets: what its snapshot says, with the instants of its first and last event. */
  ghost predicate Rebuilt(after: Row, history: seq<BetEvent>, s: Folded, reference: Row, env: Env)
    requires history != []
  {
    && after.id == reference.id && after.createdAt == history[0].at && after.updatedAt == history[|history| - 1].at
    && Writable(s, reference, env) && Carries(after.data, s, reference, env) && after.data.others == s.others
  }

  /** What a key that is taken leaves, written or not: unchanged means that it was so already. */
  lemma TreatLeaves(history: seq<BetEvent>, found: Option<Row>, env: Env, w: Interval)
    requires history != [] && Treat(history, found, env, w) != None && Treat(history, found, env, w) != Some(Skipped)
    ensures var t := Treat(history, found, env, w).value;
            if found != None then
              && env.project(history) != None && (t.Altered? || t.Unchanged?)
              && Reconciled(if t.Altered? then t.row else found.value, found.value, env.project(history).value, env)
              && (t.Altered? ==> t.row != found.value)
            else
              && t.Recreated? && env.snapshot(history) != None
              && Rebuilt(t.row, history, env.snapshot(history).value.0, env.snapshot(history).value.1, env)
  {
    hide Values, Writable, Carries, Chosen, ReferenceOf;
    if found != None {
      var s := env.project(history).value;
      ValuesExactly(s, found.value, env);
      var values := Values(s, found.value, env).value;
      DiffersExactly(found.value.data, values);
      SameButOthers(values, Overwrite(found.value.data, values), s, found.value, env);
    } else {
      ValuesExactly(env.snapshot(history).value.0, env.snapshot(history).value.1, env);
    }
  }

  lemma SameButOthers(values: Data, after: Data, s: Folded, row: Row, env: Env)
    requires s.origin != None && env.account(s) != None && Carries(values, s, row, env)
    requires after == values.(others := after.others)
    ensures Carries(after, s, row, env)
  {
  }

  // ---------------------------------------------------------------- the whole set of keys

  /** The history of a key is all of its events, in order. */
  lemma {:induction false} HistoryExactly(events: seq<BetEvent>, key: nat)
    ensures forall e :: e in History(events, key) <==> e in events && e.key == Some(key)
    ensures (forall i, j :: 0 <= i < j < |events| ==> events[i].id < events[j].id) ==>
              forall i, j :: 0 <= i < j < |History(events, key)| ==> History(events, key)[i].id < History(events, key)[j].id
  {
    if events != [] {
      var n := |events| - 1;
      HistoryExactly(events[..n], key);
      assert events == events[..n] + [events[n]];
      var h := History(events[..n], key);
      if forall i, j :: 0 <= i < j < |events| ==> events[i].id < events[j].id {
        forall i | 0 <= i < |h| ensures h[i].id < events[n].id {
          assert h[i] in h;
        }
      }
    }
  }

  /** The key's events put it into the interval. */
  ghost predicate Selects(rows: Rows, events: seq<BetEvent>, env: Env, w: Interval, k: nat) {
    && History(events, k) != [] && env.project(History(events, k)) != None
    && Taken(env.project(History(events, k)).value, Lookup(rows, k), History(events, k), w)
  }

  /**
   What a live replay leaves of one key: a row taken by the interval carries what its history says,
   a missing one is rebuilt from its snapshot, and any other stays as it was.
   */
  lemma RowsExactly(rows: Rows, keys: seq<nat>, events: seq<BetEvent>, env: Env, w: Interval, k: nat)
    requires NoRepeat(keys) && Fold(rows, keys, events, env, w, false) != None
    ensures var after := Fold(rows, keys, events, env, w, false).value.rows; var history := History(events, k);
            if k in keys && Selects(rows, events, env, w, k) then
              && history != [] && env.project(history) != None && k in after
              && if k in rows then Reconciled(after[k], rows[k], env.project(history).value, env)
                 else env.snapshot(history) != None
                      && Rebuilt(after[k], history, env.snapshot(history).value.0, env.snapshot(history).value.1, env)
            else
              (k in after <==> k in rows) && (k in rows ==> after[k] == rows[k])
  {
    hide Treat, Fold, Reconciled, Rebuilt, Taken;
    FoldIsPointwise(rows, keys, events, env, w, k);
    if k in keys {
      var history, found := History(events, k), Lookup(rows, k);
      TreatRaisesExactly(history, found, env, w);
      if Treat(history, found, env, w) != Some(Skipped) {
        TreatLeaves(history, found, env, w);
      }
    }
  }

  /** What one key does to the counters. */
  lemma TreatCounts(rows: Rows, events: seq<BetEvent>, env: Env, w: Interval, k: nat)
    requires History(events, k) != [] && Treat(History(events, k), Lookup(rows, k), env, w) != None
    ensures var t := Treat(History(events, k), Lookup(rows, k), env, w).value;
            && (t.Skipped? <==> !Selects(rows, events, env, w, k))
            && (t.Altered? ==> k in rows && t.row != rows[k])
            && (t.Recreated? ==> k !in rows)
  {
    hide Treat, Taken, Reconciled, Rebuilt;
    TreatRaisesExactly(History(events, k), Lookup(rows, k), env, w);
    if Treat(History(events, k), Lookup(rows, k), env, w) != Some(Skipped) {
      TreatLeaves(History(events, k), Lookup(rows, k), env, w);
    }
  }

  function EventCount(keys: seq<nat>, events: seq<BetEvent>): nat {
    if keys == [] then 0 else EventCount(keys[..|keys| - 1], events) + |History(events, keys[|keys| - 1])|
  }

  /** The counters of a live replay, said of its rows: what it took, what it changed and what it created. */
  lemma {:induction false} CountersExactly(rows: Rows, keys: seq<nat>, events: seq<BetEvent>, env: Env, w: Interval)
    requires NoRepeat(keys) && Fold(rows, keys, events, env, w, false) != None
    ensures var r := Fold(rows, keys, events, env, w, false).value;
            && r.counters.events == EventCount(keys, events)
            && r.counters.bets == |set k | k in keys && Selects(rows, events, env, w, k)|
            && r.counters.altered == |set k | k in keys && k in rows && Lookup(r.rows, k) != Lookup(rows, k)|
            && r.counters.recreated == |set k | k in keys && k !in rows && Lookup(r.rows, k) != Lookup(rows, k)|
  {
    hide Treat, Selects, TableTakes;
    if keys != [] {
      var n := |keys| - 1;
      var last, rest := keys[n], keys[..n];
      assert keys == rest + [last] && last !in rest;
      CountersExactly(rows, rest, events, env, w);
      var before, after := Fold(rows, rest, events, env, w, false).value, Fold(rows, keys, events, env, w, false).value;
      FoldIsPointwise(rows, rest, events, env, w, last);
      FoldIsPointwise(rows, keys, events, env, w, last);
      TreatCounts(rows, events, env, w, last);
      hide Fold;
      forall k | k in rest ensures Lookup(after.rows, k) == Lookup(before.rows, k) {
        FoldIsPointwise(rows, rest, events, env, w, k);
        FoldIsPointwise(rows, keys, events, env, w, k);
      }
      TakenGrow(rows, rest, last, events, env, w);
      AlteredGrow(rows, rest, last, before.rows, after.rows);
      CreatedGrow(rows, rest, last, before.rows, after.rows);
    }
  }

  lemma TakenGrow(rows: Rows, rest: seq<nat>, last: nat, events: seq<BetEvent>, env: Env, w: Interval)
    requires last !in rest
    ensures |set k | k in rest + [last] && Selects(rows, events, env, w, k)|
            == |set k | k in rest && Selects(rows, events, env, w, k)| + if Selects(rows, events, env, w, last) then 1 else 0
  {
    hide Selects;
    var taken := (k: nat) => Selects(rows, events, env, w, k);
    OneMoreKey(rest, last, taken);
    assert (set k | k in rest + [last] && taken(k)) == set k | k in rest + [last] && Selects(rows, events, env, w, k);
    assert (set k | k in rest && taken(k)) == set k | k in rest && Selects(rows, events, env, w, k);
  }

  lemma AlteredGrow(rows: Rows, rest: seq<nat>, last: nat, before: Rows, after: Rows)
    requires last !in rest && forall k :: k in rest ==> Lookup(after, k) == Lookup(before, k)
    ensures |set k | k in rest + [last] && k in rows && Lookup(after, k) != Lookup(rows, k)|
            == |set k | k in rest && k in rows && Lookup(before, k) != Lookup(rows, k)|
               + if last in rows && Lookup(after, last) != Lookup(rows, last) then 1 else 0
  {
    hide Lookup;
    var altered := (k: nat) => k in rows && Lookup(after, k) != Lookup(rows, k);
    OneMoreKey(rest, last, altered);
    assert (set k | k in rest + [last] && altered(k)) == set k | k in rest + [last] && k in rows && Lookup(after, k) != Lookup(rows, k);
    assert (set k | k in rest && altered(k)) == set k | k in rest && k in rows && Lookup(before, k) != Lookup(rows, k);
  }

  lemma CreatedGrow(rows: Rows, rest: seq<nat>, last: nat, before: Rows, after: Rows)
    requires last !in rest && forall k :: k in rest ==> Lookup(after, k) == Lookup(before, k)
    ensures |set k | k in rest + [last] && k !in rows && Lookup(after, k) != Lookup(rows, k)|
            == |set k | k in rest && k !in rows && Lookup(before, k) != Lookup(rows, k)|
               + if last !in rows && Lookup(after, last) != Lookup(rows, last) then 1 else 0
  {
    hide Lookup;
    var created := (k: nat) => k !in rows && Lookup(after, k) != Lookup(rows, k);
    OneMoreKey(rest, last, created);
    assert (set k | k in rest + [last] && created(k)) == set k | k in rest + [last] && k !in rows && Lookup(after, k) != Lookup(rows, k);
    assert (set k | k in rest && created(k)) == set k | k in rest && k !in rows && Lookup(before, k) != Lookup(rows, k);
  }

  lemma OneMoreKey(rest: seq<nat>, last: nat, p: nat -> bool)
    requires last !in rest
    ensures |set k | k in rest + [last] && p(k)| == |set k | k in rest && p(k)| + if p(last) then 1 else 0
  {
    assert (set k | k in rest + [last] && p(k)) == (set k | k in rest && p(k)) + if p(last) then {last} else {};
  }

  // ---------------------------------------------------------------- the bet table

  ghost predicate Filled(d: Data, column: string) {
    column in d.others && d.others[column] != None
  }

  /** What the table checks of one row. */
  ghost predicate RowSound(d: Data) {
    && d.origin != None && d.stake >= 0 && !(d.freebet && d.stake != 0)
    && (d.origin == Some(1) ==> Filled(d, "chat_id") && Filled(d, "message_id"))
  }

  /** Two rows of one message are the same place in it. */
  ghost predicate SamePlace(a: Data, b: Data) {
    && Filled(a, "chat_id") && Filled(a, "message_id") && Filled(a, "ordem_na_mensagem")
    && Filled(b, "chat_id") && Filled(b, "message_id") && Filled(b, "ordem_na_mensagem")
    && a.others["chat_id"] == b.others["chat_id"] && a.others["message_id"] == b.others["message_id"]
    && a.others["ordem_na_mensagem"] == b.others["ordem_na_mensagem"]
  }

  ghost predicate TableSound(rows: Rows, env: Env) {
    && (forall k :: k in rows ==> RowSound(rows[k].data) && env.storable(rows[k].data))
    && (forall j, k :: j in rows && k in rows && j != k ==> !SamePlace(rows[j].data, rows[k].data))
  }

  lemma TableExactly(rows: Rows, key: nat, d: Data, env: Env)
    ensures TableTakes(rows, key, d, env) <==>
            RowSound(d) && env.storable(d) && forall k :: k in rows && k != key ==> !SamePlace(rows[k].data, d)
  {
    forall k | k in rows ensures SameMessage(rows[k].data, d) <==> SamePlace(rows[k].data, d) {
      PlaceExactly(rows[k].data, d);
    }
    hide SameMessage, SamePlace;
  }

  lemma PlaceExactly(a: Data, b: Data)
    ensures SameMessage(a, b) <==> SamePlace(a, b)
  {
    var columns := ["chat_id", "message_id", "ordem_na_mensagem"];
    assert columns[0] in columns && columns[1] in columns && columns[2] in columns;
    if SamePlace(a, b) {
      forall column | column in columns ensures ColumnOf(a, column).Some? && ColumnOf(a, column) == ColumnOf(b, column) {
        assert column == columns[0] || column == columns[1] || column == columns[2];
      }
    }
  }

  lemma PlaceSymmetric(a: Data, b: Data)
    ensures SamePlace(a, b) <==> SamePlace(b, a)
  {
  }

  /** A live replay that succeeds keeps the checks and the unique message of the table. */
  lemma {:induction false} FoldKeepsTable(rows: Rows, keys: seq<nat>, events: seq<BetEvent>, env: Env, w: Interval)
    requires TableSound(rows, env) && Fold(rows, keys, events, env, w, false) != None
    ensures TableSound(Fold(rows, keys, events, env, w, false).value.rows, env)
  {
    hide Treat, TableTakes, TableSound;
    if keys != [] {
      var n := |keys| - 1;
      FoldKeepsTable(rows, keys[..n], events, env, w);
      var before := Fold(rows, keys[..n], events, env, w, false).value.rows;
      var t := Treat(History(events, keys[n]), Lookup(before, keys[n]), env, w).value;
      if Writes(t) {
        WriteKeepsTable(before, keys[n], t.row, env);
      }
    }
  }

  lemma WriteKeepsTable(rows: Rows, key: nat, row: Row, env: Env)
    requires TableSound(rows, env) && TableTakes(rows, key, row.data, env)
    ensures TableSound(rows[key := row], env)
  {
    TableExactly(rows, key, row.data, env);
    hide TableTakes, SamePlace, RowSound;
    forall k | k in rows ensures SamePlace(rows[k].data, row.data) <==> SamePlace(row.data, rows[k].data) {
      PlaceSymmetric(rows[k].data, row.data);
    }
  }
}
