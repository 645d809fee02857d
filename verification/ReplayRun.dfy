/** A whole replay of one user: one transaction over bet rows, relations and the cash ledger. */
module ReplayRun {
  import opened Wrappers
  import opened Paging
  import opened Replay
  import opened ReplayMeaning
  import L = Ledger

  /**
   `keyless` counts bet rows without a key; cash events and stored responses are read by increasing
   positive id.
   */
  datatype Db = Db(
    events: seq<BetEvent>, rows: Rows, keyless: nat,
    cash: seq<L.CashEvent>, movements: seq<L.Movement>, requests: seq<L.Request>)

  /**
   The outside of the transaction. `relations(dry)` says whether replaying the relations succeeds;
   it raises on a dry run only for reasons that also make a live run raise.
   */
  datatype World = World(bets: Env, ledger: L.Env, relations: bool -> bool)

  datatype Report = Report(counters: Counters, restored: nat, verified: Option<L.Verified>)

  datatype Outcome = Outcome(db: Db, report: Report)

  // ---------------------------------------------------------------- keys in order

  function Self(k: nat): int {
    k
  }

  function CashId(e: L.CashEvent): int {
    e.id
  }

  function RequestId(q: L.Request): int {
    q.id
  }

  function InsertKey(k: nat, keys: seq<nat>): seq<nat> {
    if keys == [] || k < keys[0] then [k] + keys
    else if k == keys[0] then keys
    else [keys[0]] + InsertKey(k, keys[1..])
  }

  lemma {:induction false} InsertedKeys(k: nat, keys: seq<nat>)
    ensures forall x :: x in InsertKey(k, keys) <==> x == k || x in keys
  {
    if keys != [] && k > keys[0] {
      InsertedKeys(k, keys[1..]);
      assert keys == [keys[0]] + keys[1..];
    }
  }

  lemma {:induction false} InsertKeepsOrder(k: nat, keys: seq<nat>)
    requires Increasing(keys, Self)
    ensures Increasing(InsertKey(k, keys), Self)
  {
    if keys != [] && k > keys[0] {
      InsertKeepsOrder(k, keys[1..]);
      InsertedKeys(k, keys[1..]);
      var rest := InsertKey(k, keys[1..]);
      forall i | 0 <= i < |rest| ensures Self(keys[0]) < Self(rest[i]) {
        assert rest[i] in rest;
      }
    }
  }

  /** The distinct nonempty keys of the events, in order. */
  function Keys(events: seq<BetEvent>): seq<nat> {
    if events == [] then
      []
    else
      var last := events[|events| - 1].key;
      var rest := Keys(events[..|events| - 1]);
      if last.Some? && last.value > 0 then InsertKey(last.value, rest) else rest
  }

  lemma {:induction false} KeysIncrease(events: seq<BetEvent>)
    ensures Increasing(Keys(events), Self) && forall k :: k in Keys(events) ==> Self(k) > 0
  {
    if events != [] {
      var last, rest := events[|events| - 1].key, Keys(events[..|events| - 1]);
      KeysIncrease(events[..|events| - 1]);
      if last.Some? && last.value > 0 {
        InsertKeepsOrder(last.value, rest);
        InsertedKeys(last.value, rest);
      }
    }
  }

  lemma {:induction false} KeysAreThose(events: seq<BetEvent>, k: nat)
    ensures k in Keys(events) <==> k > 0 && History(events, k) != []
  {
    if events != [] {
      var last, rest := events[|events| - 1].key, Keys(events[..|events| - 1]);
      KeysAreThose(events[..|events| - 1], k);
      if last.Some? {
        InsertedKeys(last.value, rest);
      }
    }
  }

  lemma KeysDoNotRepeat(events: seq<BetEvent>)
    ensures NoRepeat(Keys(events))
  {
    var keys := Keys(events);
    KeysIncrease(events);
    forall i, j | 0 <= i < j < |keys| ensures keys[i] != keys[j] {
      assert Self(keys[i]) < Self(keys[j]);
    }
  }

  // ---------------------------------------------------------------- the transaction

  predicate Orphans(rows: Rows, keyless: nat, events: seq<BetEvent>) {
    keyless > 0 || exists k :: k in rows && History(events, k) == []
  }

  predicate Unkeyed(events: seq<BetEvent>) {
    exists e :: e in events && e.key.None? && !e.isCash
  }

  /** `reconstruir_usuario`: None when it raises, and then nothing is kept. */
  function Reconstruct(db: Db, world: World, w: Interval, dry: bool): Option<Outcome> {
    var folding := Fold(db.rows, Keys(db.events), db.events, world.bets, w, dry);
    var restored := L.RestoreAll(db.movements, db.cash, world.ledger, dry);
    if Unkeyed(db.events) || folding.None? || Orphans(folding.value.rows, db.keyless, db.events) then
      None
    else if !world.relations(dry) || restored.None? then
      None
    else
      var after := db.(rows := folding.value.rows, movements := restored.value.rows);
      if dry && restored.value.count > 0 then
        Some(Outcome(after, Report(folding.value.counters, restored.value.count, None)))
      else
        var verified := L.Confirm(restored.value.rows, db.cash, db.requests);
        if verified.None? then None
        else Some(Outcome(after, Report(folding.value.counters, restored.value.count, verified)))
  }

  /** A replay that ends normally left no event without a key, but for cash, and no row without an event of its key. */
  lemma CommitsOnlyComplete(db: Db, world: World, w: Interval, dry: bool)
    requires Reconstruct(db, world, w, dry) != None
    ensures forall e :: e in db.events ==> e.key != None || e.isCash
    ensures db.keyless == 0 && forall k :: k in Reconstruct(db, world, w, dry).value.db.rows ==> exists e :: e in db.events && e.key == Some(k)
    ensures world.relations(dry)
    ensures var after := Reconstruct(db, world, w, dry).value.db;
            after == db.(rows := after.rows, movements := after.movements)
    ensures dry && Reconstruct(db, world, w, dry).value.report.verified == None <==>
              dry && Reconstruct(db, world, w, dry).value.report.restored > 0
  {
    hide Fold, L.RestoreAll, L.Confirm, Keys, History;
    var after := Reconstruct(db, world, w, dry).value.db;
    forall k | k in after.rows ensures exists e :: e in db.events && e.key == Some(k) {
      HistoryExactly(db.events, k);
      var h := History(db.events, k);
      assert h[0] in h;
    }
  }

  /** Whenever a live replay commits, a dry run succeeds with the same counters and changes nothing. */
  lemma DryRunPredictsLive(db: Db, world: World, w: Interval)
    requires world.relations(false) ==> world.relations(true)
    requires Reconstruct(db, world, w, false).Some?
    ensures var live, dry := Reconstruct(db, world, w, false).value, Reconstruct(db, world, w, true);
            && dry.Some? && dry.value.db == db
            && dry.value.report.counters == live.report.counters
            && dry.value.report.restored == live.report.restored
            && (live.report.restored == 0 ==> dry.value.report.verified == live.report.verified)
  {
    KeysDoNotRepeat(db.events);
    DryFoldPredictsExactly(db.rows, Keys(db.events), db.events, world.bets, w);
    L.LedgerDryPredictsLive(db.movements, db.cash, world.ledger);
    var live := Reconstruct(db, world, w, false).value;
    forall k | k in db.rows ensures k in live.db.rows {
      RowsKeepIdentity(db.rows, Keys(db.events), db.events, world.bets, w, k);
    }
    hide Fold, L.RestoreAll, L.Verify, L.RequestHolds, Keys;
  }

  /**
   A dry run that succeeds predicts a live commit exactly when, besides the relations, the tables
   take every bet row and movement it would write, the ledger is verifiable and every stored response
   settles.
   */
  lemma DryRunPredictsExactly(db: Db, world: World, w: Interval)
    requires Reconstruct(db, world, w, true).Some?
    ensures Reconstruct(db, world, w, false).Some?
            <==> && WritesTaken(db.rows, Keys(db.events), db.events, world.bets, w)
                 && world.relations(false)
                 && L.MissingTaken(db.movements, L.Entries(db.cash, world.ledger), world.ledger)
                 && L.Verifiable(db.movements, db.cash, world.ledger)
                 && L.RequestsSettle(db.movements, L.Entries(db.cash, world.ledger), db.requests, world.ledger)
  {
    KeysDoNotRepeat(db.events);
    DryFoldPredictsExactly(db.rows, Keys(db.events), db.events, world.bets, w);
    L.LedgerDryPredictsExactly(db.movements, db.cash, db.requests, world.ledger);
    if Fold(db.rows, Keys(db.events), db.events, world.bets, w, false).Some? {
      NoNewOrphans(db, world, w);
    }
    hide Fold, L.RestoreAll, L.Verify, L.RequestHolds, Keys, WritesTaken, L.MissingTaken, L.Verifiable, L.RequestsSettle, Orphans;
  }

  /** Reconciling makes no orphans and saves none: rows come and stay only with a history. */
  lemma NoNewOrphans(db: Db, world: World, w: Interval)
    requires Fold(db.rows, Keys(db.events), db.events, world.bets, w, false).Some?
    ensures var after := Fold(db.rows, Keys(db.events), db.events, world.bets, w, false).value.rows;
            Orphans(after, db.keyless, db.events) <==> Orphans(db.rows, db.keyless, db.events)
  {
    hide Fold, History;
    var keys := Keys(db.events);
    var after := Fold(db.rows, keys, db.events, world.bets, w, false).value.rows;
    KeysDoNotRepeat(db.events);
    forall k ensures k in keys ==> History(db.events, k) != []
             ensures k !in keys ==> (k in after <==> k in db.rows) {
      KeysAreThose(db.events, k);
      FoldIsPointwise(db.rows, keys, db.events, world.bets, w, k);
    }
  }

  /** A committed ledger is sound: conservation and bijection hold of what the replay leaves. */
  lemma CommittedLedgerConserves(db: Db, world: World, w: Interval)
    requires Reconstruct(db, world, w, false).Some?
    ensures var r := Reconstruct(db, world, w, false).value;
            && db.movements <= r.db.movements && r.report.verified.Some?
            && |r.db.movements| == |db.movements| + r.report.restored
            && r.report.verified.value.withoutEvent == |L.Legacy(r.db.movements, L.IdSet(db.cash))|
            && L.Total(r.db.movements)
               == L.NonTransferSum(db.cash) + L.Total(L.Legacy(r.db.movements, L.IdSet(db.cash)))
  {
    hide Fold, Keys;
    var r := Reconstruct(db, world, w, false).value;
    L.VerifiedConserves(r.db.movements, db.cash);
    L.LedgerDryPredictsLive(db.movements, db.cash, world.ledger);
  }

  /** A second live replay alters, recreates and restores nothing. */
  lemma SecondReplayIsQuiet(db: Db, world: World, w: Interval)
    requires Reconstruct(db, world, w, false).Some?
    requires Settled(db.rows, Keys(db.events), db.events, world.bets)
    ensures var once := Reconstruct(db, world, w, false).value;
            var again := Reconstruct(once.db, world, w, false);
            && again.Some? && again.value.db == once.db
            && again.value.report.counters.altered == 0 && again.value.report.counters.recreated == 0
            && again.value.report.restored == 0 && again.value.report.verified == once.report.verified
  {
    KeysDoNotRepeat(db.events);
    SecondRunIsQuiet(db.rows, Keys(db.events), db.events, world.bets, w);
    var once := Reconstruct(db, world, w, false).value;
    L.RestoreIsIdempotent(once.db.movements, db.cash, world.ledger, false);
    hide Fold, L.RestoreAll, L.Verify, L.RequestHolds, Keys;
  }

  /** A whole replay that a stale response stops live, after a dry run that succeeds. */
  lemma StaleResponseStopsReplay(world: World, w: Interval)
    requires (7, 0) !in world.ledger.foreign && (forall row :: world.ledger.storable(row))
    requires world.relations(true) && world.relations(false)
    ensures var db := Db([], map[], 0, [L.DEPOSIT_EVENT], [], [L.STALE]);
            && Reconstruct(db, world, w, true).Some? && Reconstruct(db, world, w, true).value.report.restored == 1
            && Reconstruct(db, world, w, false).None?
  {
    L.StaleResponseFoolsDryRun(world.ledger);
    FoldOfNothing(map[], [], world.bets, w, true);
    FoldOfNothing(map[], [], world.bets, w, false);
    hide Fold, L.RestoreAll, L.Confirm;
  }

  // ---------------------------------------------------------------- the loops

  lemma {:induction false} FoldFailsOn(rows: Rows, keys: seq<nat>, m: nat, events: seq<BetEvent>, env: Env, w: Interval, dry: bool)
    requires m <= |keys| && Fold(rows, keys[..m], events, env, w, dry).None?
    ensures Fold(rows, keys, events, env, w, dry).None?
  {
    if m < |keys| {
      assert keys[..|keys| - 1][..m] == keys[..m];
      FoldFailsOn(rows, keys[..|keys| - 1], m, events, env, w, dry);
    } else {
      assert keys[..m] == keys;
    }
  }

  const PAGE_SIZE := 1000

  class Replayer {
    var db: Db

    /** One page of keys; the page's bet rows are read once, before any of them is updated. */
    method ReconcilePage(world: World, w: Interval, dry: bool, page: seq<nat>, counted: Counters,
                         ghost start: Rows, ghost keys: seq<nat>, ghost m: nat) returns (r: Option<Counters>)
      requires m + |page| <= |keys| && page == keys[m..m + |page|] && keys == Keys(db.events)
      requires Fold(start, keys[..m], db.events, world.bets, w, dry) == Some(Folding(db.rows, counted))
      modifies this
      ensures db == old(db).(rows := db.rows)
      ensures if r.Some?
              then Fold(start, keys[..m + |page|], db.events, world.bets, w, dry) == Some(Folding(db.rows, r.value))
              else Fold(start, keys, db.events, world.bets, w, dry).None?
    {
      hide Treat, Count, Keys, History, Fold, Write, TableTakes;
      ghost var events := db.events;
      KeysDoNotRepeat(events);
      var bets := map k | k in page && k in db.rows :: db.rows[k];
      var counters := counted;
      for i := 0 to |page|
        invariant db == old(db).(rows := db.rows)
        invariant Fold(start, keys[..m + i], events, world.bets, w, dry) == Some(Folding(db.rows, counters))
        invariant forall j :: i <= j < |page| ==> Lookup(db.rows, page[j]) == Lookup(bets, page[j])
      {
        var key := page[i];
        assert keys[m + i] == key;
        var history := History(db.events, key);
        KeysAreThose(events, key);
        var treatment := Treat(history, Lookup(bets, key), world.bets, w);
        FoldOneMore(start, keys, m + i, events, world.bets, w, dry);
        if treatment.None? {
          return None;
        }
        if !dry && Writes(treatment.value) && !TableTakes(db.rows, key, treatment.value.row.data, world.bets) {
          return None;
        }
        counters := Count(counters, treatment.value, |history|);
        ghost var before := db.rows;
        db := db.(rows := Write(db.rows, key, treatment.value, dry));
        WriteOnlyAt(before, key, treatment.value, dry);
        forall j | i + 1 <= j < |page| ensures Lookup(db.rows, page[j]) == Lookup(bets, page[j]) {
          assert keys[m + j] == page[j] && keys[m + j] != keys[m + i];
        }
      }
      return Some(counters);
    }

    /**
     The key loop, `chunkSize` keys a page. The result does not depend on the page size: it is the
     fold over every distinct nonempty key, each with its whole history.
     */
    method ReconcileBets(world: World, w: Interval, dry: bool, chunkSize: nat) returns (r: Option<Counters>)
      requires chunkSize >= 1
      modifies this
      ensures var folding := Fold(old(db).rows, Keys(old(db).events), old(db).events, world.bets, w, dry);
              if folding.Some?
              then r == Some(folding.value.counters) && db == old(db).(rows := folding.value.rows)
              else r.None? && db == old(db)
    {
      hide Treat, Count, Fold, Keys, Page;
      ghost var keys := Keys(db.events);
      var start := db;
      KeysIncrease(db.events);
      var counters, after := NOTHING, 0;
      var m: nat := 0;
      FoldOfNothing(db.rows, db.events, world.bets, w, dry);
      assert keys[..0] == [];
      while true
        invariant m <= |keys| && after == Cursor(keys, Self, 0, m)
        invariant db == start.(rows := db.rows)
        invariant Fold(start.rows, keys[..m], start.events, world.bets, w, dry) == Some(Folding(db.rows, counters))
        decreases |keys| - m
      {
        PageIsNextStretch(keys, Self, 0, m, chunkSize);
        var page := Page(Keys(db.events), Self, after, chunkSize);
        if page == [] {
          break;
        }
        var done := ReconcilePage(world, w, dry, page, counters, start.rows, keys, m);
        if done.None? {
          db := start;
          return None;
        }
        counters := done.value;
        after := page[|page| - 1];
        m := m + |page|;
        if |page| < chunkSize {
          break;
        }
      }
      assert m == |keys|;
      assert keys[..m] == keys;
      return Some(counters);
    }

    /** One cash event: its lines in order, each looked up among the movements as they are by then. */
    method RestoreEvent(env: L.Env, e: L.CashEvent, dry: bool, counted: nat, ghost rows: seq<L.Movement>, ghost done: seq<L.Entry>)
      returns (r: Option<nat>)
      requires L.Opens(e, env) && L.Restore(rows, done, env, dry) == Some(L.Restored(db.movements, counted))
      modifies this
      ensures db == old(db).(movements := db.movements)
      ensures var after := L.Restore(rows, done + L.EntriesOf(e, e.lines.value, env), env, dry);
              if after.Some? then r.Some? && after == Some(L.Restored(db.movements, r.value)) else r.None?
    {
      hide L.Examine, L.Restore, L.EntriesOf;
      var transfer := if e.transfer.None? then None else env.uuid(e.transfer.value);
      var lines, count := e.lines.value, counted;
      NoEntries(e, env, done);
      for j := 0 to |lines|
        invariant db == old(db).(movements := db.movements)
        invariant L.Restore(rows, done + L.EntriesOf(e, lines[..j], env), env, dry)
                  == Some(L.Restored(db.movements, count))
      {
        var entry := L.Entry(lines[j], e.at.value, transfer);
        OneMoreEntry(e, env, done, j);
        RestoreOneMore(rows, done + L.EntriesOf(e, lines[..j], env), entry, env, dry);
        match L.Examine(db.movements, entry, env) {
          case NotRestorable =>
            LinesFailOn(rows, done, e, j + 1, env, dry);
            return None;
          case Present =>
          case Missing =>
            MissingIsInsertable(db.movements, entry, env);
            var row := L.RowFor(entry, env);
            if !dry && !L.TableTakes(row, env) {
              LinesFailOn(rows, done, e, j + 1, env, dry);
              return None;
            }
            count := count + 1;
            if !dry {
              db := db.(movements := db.movements + [row]);
            }
        }
      }
      assert lines[..|lines|] == lines;
      return Some(count);
    }

    /** One page of cash events. */
    method RestorePage(env: L.Env, dry: bool, page: seq<L.CashEvent>, counted: nat, ghost rows: seq<L.Movement>, ghost m: nat)
      returns (r: Option<nat>)
      requires m + |page| <= |db.cash| && page == db.cash[m..m + |page|]
      requires forall e :: e in db.cash[..m] ==> L.Opens(e, env)
      requires L.Restore(rows, L.Entries(db.cash[..m], env), env, dry) == Some(L.Restored(db.movements, counted))
      modifies this
      ensures db == old(db).(movements := db.movements)
      ensures if r.Some?
              then (forall e :: e in db.cash[..m + |page|] ==> L.Opens(e, env))
                   && L.Restore(rows, L.Entries(db.cash[..m + |page|], env), env, dry)
                      == Some(L.Restored(db.movements, r.value))
              else L.RestoreAll(rows, db.cash, env, dry).None?
    {
      hide L.Restore, L.Opens, L.Entries, L.EntriesOf, L.RestoreAll;
      ghost var cash := db.cash;
      var count := counted;
      for i := 0 to |page|
        invariant db == old(db).(movements := db.movements)
        invariant forall e :: e in cash[..m + i] ==> L.Opens(e, env)
        invariant L.Restore(rows, L.Entries(cash[..m + i], env), env, dry) == Some(L.Restored(db.movements, count))
      {
        var e := page[i];
        assert e == cash[m + i];
        if !L.Opens(e, env) {
          ClosedEventFails(rows, cash, e, env, dry);
          return None;
        }
        assert cash[..m + i + 1] == cash[..m + i] + [e];
        OpensMeans(e, env);
        OneMoreEvent(cash, m + i, env);
        var done := RestoreEvent(env, e, dry, count, rows, L.Entries(cash[..m + i], env));
        if done.None? {
          EventsFailOn(rows, cash, m + i + 1, env, dry);
          return None;
        }
        count := done.value;
      }
      return Some(count);
    }

    /** `_restaurar_ledger`, with its pages of cash events; a failure rolls everything back. */
    method RestoreLedger(env: L.Env, dry: bool) returns (r: Option<nat>)
      requires Increasing(db.cash, CashId) && forall e :: e in db.cash ==> CashId(e) > 0
      modifies this
      ensures var spec := L.RestoreAll(old(db).movements, old(db).cash, env, dry);
              if spec.Some?
              then r == Some(spec.value.count) && db == old(db).(movements := spec.value.rows)
              else r.None? && db == old(db)
    {
      hide L.Restore, Page, L.Opens, L.Entries;
      var start, cash := db, db.cash;
      var after, count := 0, 0;
      var m: nat := 0;
      assert cash[..0] == [];
      NothingRestored(db.movements, env, dry);
      while true
        invariant m <= |cash| && after == Cursor(cash, CashId, 0, m)
        invariant db == start.(movements := db.movements)
        invariant forall e :: e in cash[..m] ==> L.Opens(e, env)
        invariant L.Restore(start.movements, L.Entries(cash[..m], env), env, dry) == Some(L.Restored(db.movements, count))
        decreases |cash| - m
      {
        PageIsNextStretch(cash, CashId, 0, m, PAGE_SIZE);
        var page := Page(cash, CashId, after, PAGE_SIZE);
        if page == [] {
          break;
        }
        var done := RestorePage(env, dry, page, count, start.movements, m);
        if done.None? {
          db := start;
          return None;
        }
        count := done.value;
        after := page[|page| - 1].id;
        m := m + |page|;
        if |page| < PAGE_SIZE {
          break;
        }
      }
      assert cash[..m] == cash;
      return Some(count);
    }

    /** `_conferir_ledger` for one event. */
    method CheckEvent(e: L.CashEvent) returns (ok: bool)
      ensures ok <==> L.EventHolds(db.movements, e)
    {
      if e.lines.None? || e.lines.value == [] {
        return false;
      }
      var lines := e.lines.value;
      if (e.isTransfer && |lines| != 2) || e.isTransfer != L.Truthy(e.transfer) {
        return false;
      }
      hide L.LineHolds;
      var sum := 0;
      for j := 0 to |lines|
        invariant forall l :: l in lines[..j] ==> L.LineHolds(db.movements, l, e)
        invariant sum == L.LineSum(lines[..j])
      {
        assert lines[j] in lines && lines[..j + 1][..j] == lines[..j];
        if !L.LineHolds(db.movements, lines[j], e) {
          return false;
        }
        LineHasValue(db.movements, lines[j], e);
        sum := sum + L.RowsWith(db.movements, lines[j].movementId)[0].value;
      }
      assert lines[..|lines|] == lines;
      return !e.isTransfer || sum == 0;
    }

    /** The first half of `_conferir_ledger`: every cash event, page by page, then the counts. */
    method VerifyEvents() returns (r: Option<L.Verified>)
      requires Increasing(db.cash, CashId) && forall e :: e in db.cash ==> CashId(e) > 0
      ensures r == L.Verify(db.movements, db.cash)
    {
      hide L.EventHolds, Page;
      var cash := db.cash;
      var after, m: nat := 0, 0;
      while true
        invariant m <= |cash| && after == Cursor(cash, CashId, 0, m)
        invariant forall e :: e in cash[..m] ==> L.EventHolds(db.movements, e)
        decreases |cash| - m
      {
        PageIsNextStretch(cash, CashId, 0, m, PAGE_SIZE);
        var page := Page(cash, CashId, after, PAGE_SIZE);
        if page == [] {
          break;
        }
        for i := 0 to |page|
          invariant forall e :: e in cash[..m + i] ==> L.EventHolds(db.movements, e)
        {
          assert page[i] == cash[m + i] && cash[m + i] in cash;
          var ok := CheckEvent(page[i]);
          if !ok {
            return None;
          }
          assert cash[..m + i + 1] == cash[..m + i] + [page[i]];
        }
        after := page[|page| - 1].id;
        m := m + |page|;
        if |page| < PAGE_SIZE {
          break;
        }
      }
      assert cash[..m] == cash;
      return L.Verify(db.movements, cash);
    }

    method CheckRequest(q: L.Request) returns (ok: bool)
      ensures ok <==> L.RequestHolds(db.movements, db.cash, q)
    {
      hide L.ReplyHolds;
      if q.lines.None? {
        return false;
      }
      var lines := q.lines.value;
      for j := 0 to |lines|
        invariant forall r :: r in lines[..j] ==> L.ReplyHolds(db.movements, db.cash, r)
      {
        assert lines[j] in lines && lines[..j + 1] == lines[..j] + [lines[j]];
        if !L.ReplyHolds(db.movements, db.cash, lines[j]) {
          return false;
        }
      }
      assert lines[..|lines|] == lines;
      return true;
    }

    /** All of `_conferir_ledger`: the events, then every stored response, page by page. */
    method VerifyLedger() returns (r: Option<L.Verified>)
      requires Increasing(db.cash, CashId) && forall e :: e in db.cash ==> CashId(e) > 0
      requires Increasing(db.requests, RequestId) && forall q :: q in db.requests ==> RequestId(q) > 0
      ensures r == L.Confirm(db.movements, db.cash, db.requests)
    {
      hide L.RequestHolds, L.Verify, Page;
      r := VerifyEvents();
      if r.None? {
        return None;
      }
      var requests := db.requests;
      var after, m: nat := 0, 0;
      while true
        invariant m <= |requests| && after == Cursor(requests, RequestId, 0, m)
        invariant forall q :: q in requests[..m] ==> L.RequestHolds(db.movements, db.cash, q)
        decreases |requests| - m
      {
        PageIsNextStretch(requests, RequestId, 0, m, PAGE_SIZE);
        var page := Page(requests, RequestId, after, PAGE_SIZE);
        if page == [] {
          break;
        }
        for i := 0 to |page|
          invariant forall q :: q in requests[..m + i] ==> L.RequestHolds(db.movements, db.cash, q)
        {
          assert page[i] == requests[m + i] && requests[m + i] in requests;
          var ok := CheckRequest(page[i]);
          if !ok {
            return None;
          }
          assert requests[..m + i + 1] == requests[..m + i] + [page[i]];
        }
        after := page[|page| - 1].id;
        m := m + |page|;
        if |page| < PAGE_SIZE {
          break;
        }
      }
      assert requests[..m] == requests;
    }

    /**
     `reconstruir_usuario`: the whole transaction. Its outcome is the same for every page size, and a
     failure anywhere, or a dry run, leaves the stored rows as they were.
     */
    method Rebuild(world: World, w: Interval, dry: bool, chunkSize: nat) returns (r: Option<Report>)
      requires chunkSize >= 1
      requires Increasing(db.cash, CashId) && forall e :: e in db.cash ==> CashId(e) > 0
      requires Increasing(db.requests, RequestId) && forall q :: q in db.requests ==> RequestId(q) > 0
      modifies this
      ensures var spec := Reconstruct(old(db), world, w, dry);
              && (spec.Some? ==> r == Some(spec.value.report)) && (spec.None? ==> r.None?)
              && db == if spec.Some? && !dry then spec.value.db else old(db)
    {
      hide Fold, Keys, L.RestoreAll, L.Verify;
      var start := db;
      if Unkeyed(db.events) {
        return None;
      }
      var counters := ReconcileBets(world, w, dry, chunkSize);
      if counters.None? {
        return None;
      }
      if Orphans(db.rows, db.keyless, db.events) || !world.relations(dry) {
        db := start;
        return None;
      }
      var restored := RestoreLedger(world.ledger, dry);
      if restored.None? {
        db := start;
        return None;
      }
      var verified := None;
      if !dry || restored.value == 0 {
        verified := VerifyLedger();
        if verified.None? {
          db := start;
          return None;
        }
      }
      if dry {
        db := start;
      }
      return Some(Report(counters.value, restored.value, verified));
    }
  }

  lemma LineHasValue(rows: seq<L.Movement>, l: L.Line, e: L.CashEvent)
    requires L.LineHolds(rows, l, e)
    ensures l.Line? && |L.RowsWith(rows, l.movementId)| == 1
    ensures l.value == Some(L.RowsWith(rows, l.movementId)[0].value)
  {
  }

  lemma NoEntries(e: L.CashEvent, env: L.Env, done: seq<L.Entry>)
    requires L.Opens(e, env)
    ensures done + L.EntriesOf(e, e.lines.value[..0], env) == done
  {
  }

  lemma OneMoreEntry(e: L.CashEvent, env: L.Env, done: seq<L.Entry>, j: nat)
    requires L.Opens(e, env) && j < |e.lines.value|
    ensures var transfer := if e.transfer.None? then None else env.uuid(e.transfer.value);
            done + L.EntriesOf(e, e.lines.value[..j + 1], env)
            == done + L.EntriesOf(e, e.lines.value[..j], env) + [L.Entry(e.lines.value[j], e.at.value, transfer)]
  {
    assert e.lines.value[..j + 1][..j] == e.lines.value[..j];
  }

  lemma RestoreOneMore(rows: seq<L.Movement>, seen: seq<L.Entry>, x: L.Entry, env: L.Env, dry: bool)
    requires L.Restore(rows, seen, env, dry).Some?
    ensures var before := L.Restore(rows, seen, env, dry).value;
            var after := L.Restore(rows, seen + [x], env, dry);
            match L.Examine(before.rows, x, env)
            case NotRestorable => after.None?
            case Present => after == Some(before)
            case Missing =>
              && L.Insertable(x.line, env)
              && var row := L.RowFor(x, env);
                 if dry then after == Some(L.Restored(before.rows, before.count + 1))
                 else if L.TableTakes(row, env) then after == Some(L.Restored(before.rows + [row], before.count + 1))
                 else after.None?
  {
    hide L.Examine, L.TableTakes, L.RowFor;
    MissingIsInsertable(L.Restore(rows, seen, env, dry).value.rows, x, env);
    assert (seen + [x])[..|seen|] == seen && (seen + [x])[|seen|] == x;
  }

  lemma ClosedEventFails(rows: seq<L.Movement>, cash: seq<L.CashEvent>, e: L.CashEvent, env: L.Env, dry: bool)
    requires e in cash && !L.Opens(e, env)
    ensures L.RestoreAll(rows, cash, env, dry).None?
  {
  }

  lemma OneMoreEvent(cash: seq<L.CashEvent>, k: nat, env: L.Env)
    requires k < |cash| && (forall e :: e in cash[..k] ==> L.Opens(e, env)) && L.Opens(cash[k], env)
    ensures (forall e :: e in cash[..k + 1] ==> L.Opens(e, env)) && cash[k].lines.Some?
    ensures L.Entries(cash[..k + 1], env) == L.Entries(cash[..k], env) + L.EntriesOf(cash[k], cash[k].lines.value, env)
  {
    assert cash[..k + 1] == cash[..k] + [cash[k]] && cash[..k + 1][..k] == cash[..k];
  }

  lemma OpensMeans(e: L.CashEvent, env: L.Env)
    requires L.Opens(e, env)
    ensures e.lines.Some? && e.at.Some?
  {
  }

  lemma NothingRestored(rows: seq<L.Movement>, env: L.Env, dry: bool)
    ensures L.Restore(rows, L.Entries([], env), env, dry) == Some(L.Restored(rows, 0))
  {
  }

  lemma MissingIsInsertable(rows: seq<L.Movement>, x: L.Entry, env: L.Env)
    ensures L.Examine(rows, x, env).Missing? ==> L.Insertable(x.line, env)
  {
  }

  lemma LinesFailOn(rows: seq<L.Movement>, done: seq<L.Entry>, e: L.CashEvent, j: nat, env: L.Env, dry: bool)
    requires L.Opens(e, env) && j <= |e.lines.value|
    requires L.Restore(rows, done + L.EntriesOf(e, e.lines.value[..j], env), env, dry).None?
    ensures L.Restore(rows, done + L.EntriesOf(e, e.lines.value, env), env, dry).None?
  {
    hide L.Restore, L.EntriesOf;
    var all := L.EntriesOf(e, e.lines.value, env);
    EntriesOfPrefix(e, e.lines.value, j, env);
    L.RestoreFailsOn(rows, done + all[..j], all[j..], env, dry);
    assert done + all == done + all[..j] + all[j..];
  }

  lemma {:induction false} EntriesOfPrefix(e: L.CashEvent, lines: seq<L.Line>, j: nat, env: L.Env)
    requires L.Opens(e, env) && j <= |lines|
    ensures L.EntriesOf(e, lines, env)[..j] == L.EntriesOf(e, lines[..j], env)
  {
    if j < |lines| {
      EntriesOfPrefix(e, lines[..|lines| - 1], j, env);
      assert lines[..|lines| - 1][..j] == lines[..j];
    } else {
      assert lines[..j] == lines;
    }
  }

  lemma EventsFailOn(rows: seq<L.Movement>, cash: seq<L.CashEvent>, k: nat, env: L.Env, dry: bool)
    requires k <= |cash| && (forall e :: e in cash[..k] ==> L.Opens(e, env))
    requires L.Restore(rows, L.Entries(cash[..k], env), env, dry).None?
    ensures L.RestoreAll(rows, cash, env, dry).None?
  {
    if forall e :: e in cash ==> L.Opens(e, env) {
      assert cash == cash[..k] + cash[k..];
      L.EntriesConcat(cash[..k], cash[k..], env);
      L.RestoreFailsOn(rows, L.Entries(cash[..k], env), L.Entries(cash[k..], env), env, dry);
    }
  }

  lemma WriteOnlyAt(rows: Rows, key: nat, t: Treatment, dry: bool)
    ensures forall k :: k != key ==> Lookup(Write(rows, key, t, dry), k) == Lookup(rows, k)
  {
  }

  lemma FoldOneMore(start: Rows, keys: seq<nat>, m: nat, events: seq<BetEvent>, env: Env, w: Interval, dry: bool)
    requires m < |keys| && Fold(start, keys[..m], events, env, w, dry).Some? && History(events, keys[m]) != []
    ensures var before := Fold(start, keys[..m], events, env, w, dry).value;
            var history := History(events, keys[m]);
            var t := Treat(history, Lookup(before.rows, keys[m]), env, w);
            if t.Some? && (dry || !Writes(t.value) || TableTakes(before.rows, keys[m], t.value.row.data, env))
            then Fold(start, keys[..m + 1], events, env, w, dry)
                 == Some(Folding(Write(before.rows, keys[m], t.value, dry), Count(before.counters, t.value, |history|)))
            else Fold(start, keys, events, env, w, dry).None?
  {
    assert keys[..m + 1][..m] == keys[..m];
    hide Treat, TableTakes;
    if Fold(start, keys[..m + 1], events, env, w, dry).None? {
      FoldFailsOn(start, keys, m + 1, events, env, w, dry);
    }
  }

  lemma FoldOfNothing(rows: Rows, events: seq<BetEvent>, env: Env, w: Interval, dry: bool)
    ensures Fold(rows, [], events, env, w, dry) == Some(Folding(rows, NOTHING))
  {
  }
}
