/**
 The cash ledger of a replay: movements restored from their immutable events, then the whole
 ledger verified against the events. Movement ids are unique only together with their instant,
 so a lookup by id can find several rows, and then it raises.
 */
module Ledger {
  import opened Wrappers
  import opened Ordering

  datatype AccountRef = NoAccount | Account(id: int) | BadAccount

  /** One item of `lancamentos`; Malformed is an item without an integer movement id. */
  datatype Line = Malformed | Line(movementId: int, kind: string, value: Option<int>, account: AccountRef)

  /** A MOVIMENTO_REGISTRADO event. `lines` is None when the payload holds no list, `at` when it holds no instant. */
  datatype CashEvent = CashEvent(id: int, lines: Option<seq<Line>>, at: Option<int>, isTransfer: bool, transfer: Option<string>)

  datatype Movement = Movement(id: int, at: int, kind: string, value: int, account: Option<int>, transfer: Option<string>)

  /**
   Accounts of the user, the canonical text of a UUID, the keys (id and instant) of other users'
   movements, and what else the table asks of a row: a partition for its instant, column types and
   widths, its description among them.
   */
  datatype Env = Env(
    accounts: set<int>, uuid: string -> Option<string>, foreign: set<(int, int)>, storable: Movement -> bool)

  const TRANSFER := "TRANSFERENCIA"
  const KINDS := {"DEPOSITO", "SAQUE", TRANSFER, "BONUS", "AJUSTE"}

  /** A line with what restoring it takes from its event. */
  datatype Entry = Entry(line: Line, at: int, transfer: Option<string>)

  // ---------------------------------------------------------------- restoring

  /** The checks `_restaurar_ledger` makes on an event before its lines. */
  predicate Opens(e: CashEvent, env: Env) {
    e.lines.Some? && e.at.Some? && (e.transfer.Some? ==> env.uuid(e.transfer.value).Some?)
  }

  function EntriesOf(e: CashEvent, lines: seq<Line>, env: Env): (r: seq<Entry>)
    requires Opens(e, env)
    ensures |r| == |lines|
    ensures forall i :: 0 <= i < |lines| ==> r[i].line == lines[i] && r[i].at == e.at.value
  {
    if lines == [] then
      []
    else
      var n := |lines| - 1;
      EntriesOf(e, lines[..n], env)
      + [Entry(lines[n], e.at.value, if e.transfer.None? then None else env.uuid(e.transfer.value))]
  }

  function Entries(events: seq<CashEvent>, env: Env): seq<Entry>
    requires forall e :: e in events ==> Opens(e, env)
  {
    if events == [] then
      []
    else
      var last := events[|events| - 1];
      assert Opens(last, env);
      Entries(events[..|events| - 1], env) + EntriesOf(last, last.lines.value, env)
  }

  function RowsWith(rows: seq<Movement>, id: int): seq<Movement> {
    if rows == [] then
      []
    else
      var n := |rows| - 1;
      RowsWith(rows[..n], id) + if rows[n].id == id then [rows[n]] else []
  }

  predicate Insertable(l: Line, env: Env) {
    && l.Line? && !l.account.BadAccount? && (l.account.Account? ==> l.account.id in env.accounts)
    && l.kind in KINDS && l.value.Some?
  }

  function AccountOf(a: AccountRef): Option<int> {
    if a.Account? then Some(a.id) else None
  }

  function RowFor(x: Entry, env: Env): Movement
    requires Insertable(x.line, env)
  {
    Movement(x.line.movementId, x.at, x.line.kind, x.line.value.value, AccountOf(x.line.account), x.transfer)
  }

  /** The table accepts the row: a nonzero value, a free key, and whatever else it asks. */
  predicate TableTakes(row: Movement, env: Env) {
    row.value != 0 && (row.id, row.at) !in env.foreign && env.storable(row)
  }

  /** What restoring one line finds; NotRestorable is every way in which it raises. */
  datatype Found = NotRestorable | Present | Missing

  function Examine(rows: seq<Movement>, x: Entry, env: Env): Found {
    if x.line.Malformed? then
      NotRestorable
    else
      var found := RowsWith(rows, x.line.movementId);
      if |found| > 1 then NotRestorable
      else if |found| == 1 then (if found[0].at != x.at then NotRestorable else Present)
      else if Insertable(x.line, env) then Missing
      else NotRestorable
  }

  datatype Restored = Restored(rows: seq<Movement>, count: nat)

  /**
   Lines in event order. A dry run counts what it would insert, and inserts nothing; live, an insert
   that the table rejects raises.
   */
  function Restore(rows: seq<Movement>, entries: seq<Entry>, env: Env, dry: bool): Option<Restored> {
    if entries == [] then
      Some(Restored(rows, 0))
    else
      var n := |entries| - 1;
      var before := Restore(rows, entries[..n], env, dry);
      if before.None? then
        None
      else
        match Examine(before.value.rows, entries[n], env)
        case NotRestorable => None
        case Present => before
        case Missing =>
          var row := RowFor(entries[n], env);
          if dry then Some(Restored(before.value.rows, before.value.count + 1))
          else if !TableTakes(row, env) then None
          else Some(Restored(before.value.rows + [row], before.value.count + 1))
  }

  /** `_restaurar_ledger` on all the events of a user. */
  function RestoreAll(rows: seq<Movement>, events: seq<CashEvent>, env: Env, dry: bool): Option<Restored> {
    if forall e :: e in events ==> Opens(e, env) then Restore(rows, Entries(events, env), env, dry) else None
  }

  // ---------------------------------------------------------------- verifying

  predicate Truthy(transfer: Option<string>) {
    transfer.Some? && transfer.value != ""
  }

  function TextOf(transfer: Option<string>): string {
    if transfer.None? then "" else transfer.value
  }

  /** The line and its single row agree in every field. */
  predicate Agrees(row: Movement, l: Line, e: CashEvent) {
    && l.Line? && row.kind == l.kind && l.value == Some(row.value)
    && !l.account.BadAccount? && row.account == AccountOf(l.account)
    && TextOf(row.transfer) == TextOf(e.transfer)
    && (Truthy(e.transfer) ==> row.kind == TRANSFER)
    && e.at == Some(row.at)
  }

  predicate LineHolds(rows: seq<Movement>, l: Line, e: CashEvent) {
    && l.Line? && |RowsWith(rows, l.movementId)| == 1
    && Agrees(RowsWith(rows, l.movementId)[0], l, e)
  }

  function LineSum(lines: seq<Line>): int {
    if lines == [] then
      0
    else
      var last := lines[|lines| - 1];
      LineSum(lines[..|lines| - 1]) + if last.Line? && last.value.Some? then last.value.value else 0
  }

  predicate EventHolds(rows: seq<Movement>, e: CashEvent) {
    && e.lines.Some? && e.lines.value != []
    && (e.isTransfer ==> |e.lines.value| == 2)
    && (e.isTransfer <==> Truthy(e.transfer))
    && (forall l :: l in e.lines.value ==> LineHolds(rows, l, e))
    && (e.isTransfer ==> LineSum(e.lines.value) == 0)
  }

  /** The movement ids of all the lines, in event order. */
  function LineIds(events: seq<CashEvent>): seq<int> {
    if events == [] then
      []
    else
      var last := events[|events| - 1];
      LineIds(events[..|events| - 1]) + if last.lines.Some? then IdsOf(last.lines.value) else []
  }

  function IdsOf(lines: seq<Line>): seq<int> {
    if lines == [] then
      []
    else
      var last := lines[|lines| - 1];
      IdsOf(lines[..|lines| - 1]) + if last.Line? then [last.movementId] else []
  }

  datatype Verified = Verified(movements: nat, withoutEvent: nat)

  /** `_conferir_ledger`: every event against its rows, then the counts. */
  function Verify(rows: seq<Movement>, events: seq<CashEvent>): Option<Verified> {
    var ids := LineIds(events);
    var distinct := set id | id in ids;
    if (forall e :: e in events ==> EventHolds(rows, e)) && |ids| == |distinct| <= |rows| then
      Some(Verified(|rows|, |rows| - |distinct|))
    else
      None
  }

  /** One item of a stored response; BadReply is an item without an integer id. */
  datatype ReplyLine =
    | BadReply
    | ReplyLine(id: int, kind: string, value: Option<int>, account: AccountRef, at: Option<int>, transfer: Option<string>)

  /** The stored response of an idempotent request; `lines` is None when it holds no list of movements. */
  datatype Request = Request(id: int, lines: Option<seq<ReplyLine>>)

  predicate ReplyAgrees(row: Movement, r: ReplyLine) {
    && r.ReplyLine? && row.kind == r.kind && r.value == Some(row.value)
    && !r.account.BadAccount? && row.account == AccountOf(r.account)
    && r.at == Some(row.at) && TextOf(row.transfer) == TextOf(r.transfer)
  }

  /** The response names a movement that an event names too, and agrees with its single row. */
  predicate ReplyHolds(rows: seq<Movement>, events: seq<CashEvent>, r: ReplyLine) {
    && r.ReplyLine? && r.id in LineIds(events)
    && |RowsWith(rows, r.id)| == 1 && ReplyAgrees(RowsWith(rows, r.id)[0], r)
  }

  predicate RequestHolds(rows: seq<Movement>, events: seq<CashEvent>, q: Request) {
    q.lines.Some? && forall r :: r in q.lines.value ==> ReplyHolds(rows, events, r)
  }

  /** All of `_conferir_ledger`: the events and counts, then every stored response. */
  function Confirm(rows: seq<Movement>, events: seq<CashEvent>, requests: seq<Request>): Option<Verified> {
    if forall q :: q in requests ==> RequestHolds(rows, events, q) then Verify(rows, events) else None
  }

  // ---------------------------------------------------------------- basic facts

  lemma {:induction false} RowsWithConcat(a: seq<Movement>, b: seq<Movement>, id: int)
    ensures RowsWith(a + b, id) == RowsWith(a, id) + RowsWith(b, id)
  {
    if b == [] {
      assert a + b == a;
    } else {
      var n := |b| - 1;
      RowsWithConcat(a, b[..n], id);
      assert (a + b)[..|a + b| - 1] == a + b[..n];
    }
  }

  /** Rows whose movement no event line names. */
  function Legacy(rows: seq<Movement>, ids: set<int>): seq<Movement> {
    if rows == [] then
      []
    else
      var n := |rows| - 1;
      Legacy(rows[..n], ids) + if rows[n].id in ids then [] else [rows[n]]
  }

  function Total(rows: seq<Movement>): int {
    if rows == [] then 0 else Total(rows[..|rows| - 1]) + rows[|rows| - 1].value
  }

  function ValueAt(rows: seq<Movement>, id: int): int {
    var found := RowsWith(rows, id);
    if |found| == 1 then found[0].value else 0
  }

  function ValuesAt(rows: seq<Movement>, ids: seq<int>): int {
    if ids == [] then 0 else ValuesAt(rows, ids[..|ids| - 1]) + ValueAt(rows, ids[|ids| - 1])
  }

  /** Naming one more id takes its rows out of the legacy. */
  lemma {:induction false} LegacyCount(rows: seq<Movement>, ids: set<int>, id: int)
    requires id !in ids
    ensures |Legacy(rows, ids)| == |Legacy(rows, ids + {id})| + |RowsWith(rows, id)|
  {
    if rows != [] {
      LegacyCount(rows[..|rows| - 1], ids, id);
    }
  }

  lemma {:induction false} LegacyTotal(rows: seq<Movement>, ids: set<int>, id: int)
    requires id !in ids
    ensures Total(Legacy(rows, ids)) == Total(Legacy(rows, ids + {id})) + Total(RowsWith(rows, id))
  {
    if rows != [] {
      var n := |rows| - 1;
      var last := rows[n];
      var before, after, found := Legacy(rows[..n], ids), Legacy(rows[..n], ids + {id}), RowsWith(rows[..n], id);
      LegacyTotal(rows[..n], ids, id);
      TotalAppend(before, last);
      TotalAppend(after, last);
      TotalAppend(found, last);
      hide Total;
      assert Legacy(rows, ids) == if last.id in ids then before else before + [last];
      assert Legacy(rows, ids + {id}) == if last.id in ids || last.id == id then after else after + [last];
      assert RowsWith(rows, id) == if last.id == id then found + [last] else found;
    }
  }

  lemma OneRowTotal(rows: seq<Movement>, id: int)
    requires |RowsWith(rows, id)| == 1
    ensures Total(RowsWith(rows, id)) == ValueAt(rows, id)
  {
  }

  lemma TotalAppend(rows: seq<Movement>, r: Movement)
    ensures Total(rows + [r]) == Total(rows) + r.value
  {
  }

  lemma {:induction false} LegacyAll(rows: seq<Movement>)
    ensures Legacy(rows, {}) == rows
  {
    if rows != [] {
      LegacyAll(rows[..|rows| - 1]);
    }
  }

  /** Distinct ids with one row each account for themselves; the rest is the legacy. */
  lemma {:induction false} SplitByIds(rows: seq<Movement>, ids: seq<int>)
    requires Distinct(ids) && forall id :: id in ids ==> |RowsWith(rows, id)| == 1
    ensures var named := set id | id in ids;
            && |rows| == |Legacy(rows, named)| + |ids|
            && Total(rows) == Total(Legacy(rows, named)) + ValuesAt(rows, ids)
  {
    if ids == [] {
      LegacyAll(rows);
      assert (set id | id in ids) == {};
    } else {
      var n := |ids| - 1;
      SplitByIds(rows, ids[..n]);
      var named := set id | id in ids[..n];
      assert ids[n] in ids && ids[n] !in ids[..n];
      LegacyCount(rows, named, ids[n]);
      LegacyTotal(rows, named, ids[n]);
      OneRowTotal(rows, ids[n]);
      assert (set id | id in ids) == named + {ids[n]};
    }
  }

  lemma {:induction false} DistinctFromSize<T(!new)>(s: seq<T>)
    requires |set x | x in s| == |s|
    ensures Distinct(s)
  {
    if s != [] {
      var n := |s| - 1;
      var rest := set x | x in s[..n];
      assert s == s[..n] + [s[n]];
      assert (set x | x in s) == rest + {s[n]};
      SetNoLarger(s[..n]);
      assert s[n] !in rest;
      DistinctFromSize(s[..n]);
    }
  }

  lemma {:induction false} SetNoLarger<T(!new)>(s: seq<T>)
    ensures |set x | x in s| <= |s|
  {
    if s != [] {
      var n := |s| - 1;
      SetNoLarger(s[..n]);
      assert s == s[..n] + [s[n]];
      assert (set x | x in s) == (set x | x in s[..n]) + {s[n]};
    }
  }

  // ---------------------------------------------------------------- what a verified ledger means

  /** Sum of the lines of every event that is not a transfer. */
  function NonTransferSum(events: seq<CashEvent>): int {
    if events == [] then
      0
    else
      var last := events[|events| - 1];
      NonTransferSum(events[..|events| - 1])
      + if last.isTransfer || last.lines.None? then 0 else LineSum(last.lines.value)
  }

  lemma {:induction false} ValuesConcat(rows: seq<Movement>, a: seq<int>, b: seq<int>)
    ensures ValuesAt(rows, a + b) == ValuesAt(rows, a) + ValuesAt(rows, b)
  {
    if b == [] {
      assert a + b == a;
    } else {
      ValuesConcat(rows, a, b[..|b| - 1]);
      assert (a + b)[..|a + b| - 1] == a + b[..|b| - 1];
    }
  }

  lemma {:induction false} LinesHold(rows: seq<Movement>, lines: seq<Line>, e: CashEvent)
    requires forall l :: l in lines ==> LineHolds(rows, l, e)
    ensures |IdsOf(lines)| == |lines|
    ensures forall i :: 0 <= i < |lines| ==> lines[i].Line? && IdsOf(lines)[i] == lines[i].movementId
    ensures ValuesAt(rows, IdsOf(lines)) == LineSum(lines)
  {
    if lines != [] {
      hide LineHolds, ValueAt;
      var n := |lines| - 1;
      LinesHold(rows, lines[..n], e);
      HeldLine(rows, lines[n], e);
      assert IdsOf(lines) == IdsOf(lines[..n]) + [lines[n].movementId];
    }
  }

  lemma HeldLine(rows: seq<Movement>, l: Line, e: CashEvent)
    requires LineHolds(rows, l, e)
    ensures l.Line? && l.value == Some(ValueAt(rows, l.movementId))
  {
  }

  lemma {:induction false} EventsHold(rows: seq<Movement>, events: seq<CashEvent>)
    requires forall e :: e in events ==> EventHolds(rows, e)
    ensures forall id :: id in LineIds(events) ==> |RowsWith(rows, id)| == 1
    ensures ValuesAt(rows, LineIds(events)) == NonTransferSum(events)
  {
    if events != [] {
      var last := events[|events| - 1];
      EventsHold(rows, events[..|events| - 1]);
      assert EventHolds(rows, last);
      var ids := IdsOf(last.lines.value);
      LinesHold(rows, last.lines.value, last);
      ValuesConcat(rows, LineIds(events[..|events| - 1]), ids);
      forall id | id in ids ensures |RowsWith(rows, id)| == 1 {
        var i :| 0 <= i < |ids| && ids[i] == id;
        assert LineHolds(rows, last.lines.value[i], last);
      }
    }
  }

  function IdSet(events: seq<CashEvent>): set<int> {
    set id | id in LineIds(events)
  }

  /**
   Conservation: in a verified ledger, the movements without an event are exactly the legacy rows,
   and all the money is the non-transfer event lines plus those rows, because transfers close.
   */
  lemma VerifiedConserves(rows: seq<Movement>, events: seq<CashEvent>)
    requires Verify(rows, events).Some?
    ensures Verify(rows, events).value.withoutEvent == |Legacy(rows, IdSet(events))|
    ensures Total(rows) == NonTransferSum(events) + Total(Legacy(rows, IdSet(events)))
  {
    DistinctFromSize(LineIds(events));
    EventsHold(rows, events);
    SplitByIds(rows, LineIds(events));
  }

  /**
   Bijection: in a verified ledger every line has exactly one row and agrees with it in every
   field, no two lines share a row, and every row that is not legacy is the row of some line.
   */
  lemma VerifiedIsBijection(rows: seq<Movement>, events: seq<CashEvent>)
    requires Verify(rows, events).Some?
    ensures Distinct(LineIds(events))
    ensures forall e, l :: e in events && l in e.lines.value ==> e.lines.Some? && LineHolds(rows, l, e)
    ensures forall r :: r in rows ==> (r in Legacy(rows, IdSet(events)) <==> r.id !in LineIds(events))
    ensures forall id :: id in LineIds(events) ==> |RowsWith(rows, id)| == 1
  {
    DistinctFromSize(LineIds(events));
    EventsHold(rows, events);
    LegacyMembers(rows, IdSet(events));
    assert forall e :: e in events ==> EventHolds(rows, e);
  }

  lemma {:induction false} LegacyMembers(rows: seq<Movement>, ids: set<int>)
    ensures forall r :: r in Legacy(rows, ids) <==> r in rows && r.id !in ids
  {
    if rows != [] {
      var n := |rows| - 1;
      LegacyMembers(rows[..n], ids);
      assert rows == rows[..n] + [rows[n]];
    }
  }

  // ---------------------------------------------------------------- what restoring does

  function EntryIds(entries: seq<Entry>): seq<int> {
    if entries == [] then
      []
    else
      var last := entries[|entries| - 1].line;
      EntryIds(entries[..|entries| - 1]) + if last.Line? then [last.movementId] else []
  }

  /** Restoring only appends rows, one per counted line, each named by a line. */
  lemma {:induction false} RestoreAppends(rows: seq<Movement>, entries: seq<Entry>, env: Env, dry: bool)
    requires Restore(rows, entries, env, dry).Some?
    ensures var r := Restore(rows, entries, env, dry).value;
            && rows <= r.rows && (if dry then r.rows == rows else |r.rows| == |rows| + r.count)
            && (forall k :: |rows| <= k < |r.rows| ==> r.rows[k].id in EntryIds(entries))
  {
    if entries != [] {
      RestoreAppends(rows, entries[..|entries| - 1], env, dry);
    }
  }

  lemma {:induction false} NoRowsWith(rows: seq<Movement>, id: int)
    requires forall r :: r in rows ==> r.id != id
    ensures RowsWith(rows, id) == []
  {
    if rows != [] {
      NoRowsWith(rows[..|rows| - 1], id);
    }
  }

  /** A live run looks at the rows it started from plus the ones it appended. */
  lemma RowsSeenLive(rows: seq<Movement>, entries: seq<Entry>, env: Env, id: int)
    requires Restore(rows, entries, env, false).Some?
    ensures var seen := Restore(rows, entries, env, false).value.rows;
            && rows <= seen
            && RowsWith(seen, id) == RowsWith(rows, id) + RowsWith(seen[|rows|..], id)
            && (id !in EntryIds(entries) ==> RowsWith(seen[|rows|..], id) == [])
  {
    hide Restore;
    RestoreAppends(rows, entries, env, false);
    var seen := Restore(rows, entries, env, false).value.rows;
    assert seen == rows + seen[|rows|..];
    RowsWithConcat(rows, seen[|rows|..], id);
    if id !in EntryIds(entries) {
      NoRowsWith(seen[|rows|..], id);
    }
  }

  lemma ExamineDependsOnRows(a: seq<Movement>, b: seq<Movement>, x: Entry, env: Env)
    requires x.line.Line? ==> RowsWith(a, x.line.movementId) == RowsWith(b, x.line.movementId)
    ensures Examine(a, x, env) == Examine(b, x, env)
  {
  }

  /** With distinct movement ids, a live run that succeeds is counted exactly by the dry run. */
  lemma {:induction false} DryCountsLive(rows: seq<Movement>, entries: seq<Entry>, env: Env)
    requires Restore(rows, entries, env, false).Some? && Distinct(EntryIds(entries))
    ensures Restore(rows, entries, env, true)
            == Some(Restored(rows, Restore(rows, entries, env, false).value.count))
  {
    if entries != [] {
      hide Examine, EntryIds;
      var n := |entries| - 1;
      LastIdIsNew(entries);
      DryCountsLive(rows, entries[..n], env);
      SameVerdict(rows, entries[..n], entries[n], env);
    }
  }

  lemma LastIdIsNew(entries: seq<Entry>)
    requires entries != [] && Distinct(EntryIds(entries))
    ensures var n := |entries| - 1; var ids := EntryIds(entries[..n]);
            Distinct(ids) && (entries[n].line.Line? ==> entries[n].line.movementId !in ids)
  {
    var ids := EntryIds(entries[..|entries| - 1]);
    assert ids == EntryIds(entries)[..|ids|];
    var last := entries[|entries| - 1].line;
    if last.Line? {
      assert EntryIds(entries)[|ids|] == last.movementId;
    }
  }

  /** An entry whose movement no earlier line named is judged alike by the live run and the dry one. */
  lemma SameVerdict(rows: seq<Movement>, before: seq<Entry>, x: Entry, env: Env)
    requires Restore(rows, before, env, false).Some?
    requires x.line.Line? ==> x.line.movementId !in EntryIds(before)
    ensures Examine(rows, x, env) == Examine(Restore(rows, before, env, false).value.rows, x, env)
  {
    hide Restore, EntryIds, Examine;
    if x.line.Line? {
      RowsSeenLive(rows, before, env, x.line.movementId);
      assert RowsWith(rows, x.line.movementId) + [] == RowsWith(rows, x.line.movementId);
    }
    ExamineDependsOnRows(rows, Restore(rows, before, env, false).value.rows, x, env);
  }

  lemma {:induction false} EntryIdsConcat(a: seq<Entry>, b: seq<Entry>)
    ensures EntryIds(a + b) == EntryIds(a) + EntryIds(b)
  {
    if b == [] {
      assert a + b == a;
    } else {
      EntryIdsConcat(a, b[..|b| - 1]);
      assert (a + b)[..|a + b| - 1] == a + b[..|b| - 1];
    }
  }

  lemma {:induction false} EventEntryIds(e: CashEvent, lines: seq<Line>, env: Env)
    requires Opens(e, env)
    ensures EntryIds(EntriesOf(e, lines, env)) == IdsOf(lines)
  {
    if lines != [] {
      EventEntryIds(e, lines[..|lines| - 1], env);
      assert EntriesOf(e, lines, env)[..|lines| - 1] == EntriesOf(e, lines[..|lines| - 1], env);
    }
  }

  lemma {:induction false} EntryIdsAreLineIds(events: seq<CashEvent>, env: Env)
    requires forall e :: e in events ==> Opens(e, env)
    ensures EntryIds(Entries(events, env)) == LineIds(events)
  {
    if events != [] {
      var last := events[|events| - 1];
      assert Opens(last, env);
      EntryIdsAreLineIds(events[..|events| - 1], env);
      EventEntryIds(last, last.lines.value, env);
      EntryIdsConcat(Entries(events[..|events| - 1], env), EntriesOf(last, last.lines.value, env));
    }
  }

  /** Whenever a live restore and its verification commit, a dry run succeeds with the same count. */
  lemma LedgerDryPredictsLive(rows: seq<Movement>, events: seq<CashEvent>, env: Env)
    requires RestoreAll(rows, events, env, false).Some?
    requires Verify(RestoreAll(rows, events, env, false).value.rows, events).Some?
    ensures var live := RestoreAll(rows, events, env, false).value;
            && RestoreAll(rows, events, env, true) == Some(Restored(rows, live.count))
            && rows <= live.rows && |live.rows| == |rows| + live.count
            && (live.count == 0 ==> live.rows == rows)
  {
    var live := RestoreAll(rows, events, env, false).value;
    DistinctFromSize(LineIds(events));
    EntryIdsAreLineIds(events, env);
    hide Entries, Restore;
    DryCountsLive(rows, Entries(events, env), env);
    RestoreAppends(rows, Entries(events, env), env, false);
  }

  // ---------------------------------------------------------------- when a dry run predicts a live one

  /** Two lines name the same movement, and that movement has no row. */
  predicate RepeatsMissing(rows: seq<Movement>, entries: seq<Entry>) {
    exists i, j :: 0 <= i < j < |entries| && SameMissing(rows, entries[i].line, entries[j].line)
  }

  /** The entry names a movement that has no row. */
  predicate Missed(rows: seq<Movement>, x: Entry) {
    x.line.Line? && RowsWith(rows, x.line.movementId) == []
  }

  /** If the movement is missing, the table takes the row that restoring would insert. */
  predicate Taken(rows: seq<Movement>, x: Entry, env: Env) {
    Missed(rows, x) && Insertable(x.line, env) ==> TableTakes(RowFor(x, env), env)
  }

  predicate MissingTaken(rows: seq<Movement>, entries: seq<Entry>, env: Env) {
    forall i :: 0 <= i < |entries| ==> Taken(rows, entries[i], env)
  }

  predicate SameMissing(rows: seq<Movement>, a: Line, b: Line) {
    a.Line? && b.Line? && a.movementId == b.movementId && RowsWith(rows, a.movementId) == []
  }

  lemma {:induction false} AppendedAreMissing(rows: seq<Movement>, entries: seq<Entry>, env: Env, id: int)
    requires Restore(rows, entries, env, false).Some?
    requires RowsWith(rows, id) == []
    ensures RowsWith(Restore(rows, entries, env, false).value.rows, id) == [] <==> id !in EntryIds(entries)
  {
    if entries != [] {
      hide Examine, RowFor, RowsWith;
      var n := |entries| - 1;
      AppendedAreMissing(rows, entries[..n], env, id);
      ExaminedFor(Restore(rows, entries[..n], env, false).value.rows, entries[n], env, id);
    }
  }

  /** Afterwards `id` is missing exactly when it was missing and this entry does not name it. */
  lemma ExaminedFor(before: seq<Movement>, x: Entry, env: Env, id: int)
    requires !Examine(before, x, env).NotRestorable?
    ensures x.line.Line?
    ensures Examine(before, x, env).Present? && x.line.movementId == id ==> RowsWith(before, id) != []
    ensures Examine(before, x, env).Missing? ==>
              (RowsWith(before + [RowFor(x, env)], id) == [] <==> RowsWith(before, id) == [] && x.line.movementId != id)
  {
  }

  lemma {:induction false} EntryIdAt(entries: seq<Entry>, id: int)
    ensures id in EntryIds(entries)
            <==> exists i :: 0 <= i < |entries| && entries[i].line.Line? && entries[i].line.movementId == id
  {
    if entries != [] {
      var n := |entries| - 1;
      EntryIdAt(entries[..n], id);
      if i :| 0 <= i < n && entries[..n][i].line.Line? && entries[..n][i].line.movementId == id {
        assert entries[i].line.Line?;
      }
    }
  }

  /**
   A successful dry run predicts the live count exactly when the table takes every row that is
   missing and no two lines name the same missing movement; otherwise the live run restores fewer
   rows, or raises.
   */
  lemma {:induction false} DryPredictsExactly(rows: seq<Movement>, entries: seq<Entry>, env: Env)
    requires Restore(rows, entries, env, true).Some?
    ensures var dry, live := Restore(rows, entries, env, true), Restore(rows, entries, env, false);
            && (live.Some? ==> live.value.count <= dry.value.count)
            && (live.Some? && live.value.count == dry.value.count
                <==> !RepeatsMissing(rows, entries) && MissingTaken(rows, entries, env))
  {
    if entries != [] {
      hide Examine, RepeatsMissing, MissingTaken, TableTakes, RowFor, RowsWith;
      var n := |entries| - 1;
      var x, earlier := entries[n], entries[..n];
      DryPredictsExactly(rows, earlier, env);
      RestoreAppends(rows, earlier, env, true);
      RepeatsGrow(rows, entries);
      TakenGrow(rows, entries, env);
      if Restore(rows, earlier, env, false).Some? {
        LastVerdict(rows, earlier, x, env);
      }
    }
  }

  /** How the live run judges an entry that the dry run judged on the given rows alone. */
  lemma LastVerdict(rows: seq<Movement>, earlier: seq<Entry>, x: Entry, env: Env)
    requires Restore(rows, earlier, env, false).Some?
    ensures var seen := Restore(rows, earlier, env, false).value.rows;
            && (Missed(rows, x) && x.line.movementId in EntryIds(earlier) ==> !Examine(seen, x, env).Missing?)
            && (!(Missed(rows, x) && x.line.movementId in EntryIds(earlier)) ==> Examine(seen, x, env) == Examine(rows, x, env))
    ensures Examine(rows, x, env).Missing? ==> Missed(rows, x)
    ensures Examine(rows, x, env).Present? ==> !Missed(rows, x)
  {
    hide Restore;
    if x.line.Line? {
      var id := x.line.movementId;
      if RowsWith(rows, id) == [] {
        AppendedAreMissing(rows, earlier, env, id);
      } else {
        PresentStays(rows, earlier, env, id);
      }
    }
  }

  lemma TakenGrow(rows: seq<Movement>, entries: seq<Entry>, env: Env)
    requires entries != []
    ensures var n := |entries| - 1;
            MissingTaken(rows, entries, env)
            <==> MissingTaken(rows, entries[..n], env) && Taken(rows, entries[n], env)
  {
    var n := |entries| - 1;
    assert forall i :: 0 <= i < n ==> entries[..n][i] == entries[i];
  }

  lemma {:induction false} PresentStays(rows: seq<Movement>, entries: seq<Entry>, env: Env, id: int)
    requires Restore(rows, entries, env, false).Some? && RowsWith(rows, id) != []
    ensures RowsWith(Restore(rows, entries, env, false).value.rows, id) == RowsWith(rows, id)
  {
    if entries != [] {
      var n := |entries| - 1;
      PresentStays(rows, entries[..n], env, id);
      var before := Restore(rows, entries[..n], env, false).value.rows;
      if Examine(before, entries[n], env).Missing? {
        RowsWithConcat(before, [RowFor(entries[n], env)], id);
        assert [RowFor(entries[n], env)][..0] == [];
      }
    }
  }

  lemma RepeatsGrow(rows: seq<Movement>, entries: seq<Entry>)
    requires entries != []
    ensures var n := |entries| - 1; var last := entries[n].line;
            RepeatsMissing(rows, entries) <==>
              RepeatsMissing(rows, entries[..n])
              || (last.Line? && RowsWith(rows, last.movementId) == [] && last.movementId in EntryIds(entries[..n]))
  {
    var n := |entries| - 1;
    var last, earlier := entries[n].line, entries[..n];
    if last.Line? {
      EntryIdAt(earlier, last.movementId);
    }
    if RepeatsMissing(rows, entries) {
      var i, j :| 0 <= i < j < |entries| && SameMissing(rows, entries[i].line, entries[j].line);
      if j < n {
        assert SameMissing(rows, earlier[i].line, earlier[j].line);
      } else {
        assert earlier[i].line.Line? && earlier[i].line.movementId == last.movementId;
      }
    }
    if RepeatsMissing(rows, earlier) {
      var i, j :| 0 <= i < j < n && SameMissing(rows, earlier[i].line, earlier[j].line);
      assert SameMissing(rows, entries[i].line, entries[j].line);
    }
    if last.Line? && RowsWith(rows, last.movementId) == [] && last.movementId in EntryIds(earlier) {
      var i :| 0 <= i < n && earlier[i].line.Line? && earlier[i].line.movementId == last.movementId;
      assert SameMissing(rows, entries[i].line, entries[n].line);
    }
  }

  const DEPOSIT_7 := Line(7, "DEPOSITO", Some(100), NoAccount)
  const DOUBLE_EVENT := CashEvent(1, Some([DEPOSIT_7, DEPOSIT_7]), Some(0), false, None)

  lemma DoubleEntries(env: Env)
    ensures Opens(DOUBLE_EVENT, env)
    ensures Entries([DOUBLE_EVENT], env) == [Entry(DEPOSIT_7, 0, None), Entry(DEPOSIT_7, 0, None)]
  {
    var l := DEPOSIT_7;
    assert [l, l][..1] == [l] && [l][..0] == [] && [DOUBLE_EVENT][..0] == [];
    assert EntriesOf(DOUBLE_EVENT, [l], env) == [Entry(l, 0, None)];
  }

  lemma DoubleRestore(env: Env)
    requires (7, 0) !in env.foreign && forall row :: env.storable(row)
    ensures var x := Entry(DEPOSIT_7, 0, None);
            && Restore([], [x, x], env, true).Some? && Restore([], [x, x], env, false).Some?
  {
    var x := Entry(DEPOSIT_7, 0, None);
    var row := RowFor(x, env);
    assert [x, x][..1] == [x] && [x][..0] == [] && [row][..0] == [];
    assert RowsWith([row], 7) == [row];
    assert Restore([], [x], env, true) == Some(Restored([], 1));
    assert Restore([], [x], env, false) == Some(Restored([row], 1));
  }

  lemma DoubleIds()
    ensures LineIds([DOUBLE_EVENT]) == [7, 7]
  {
    var l := DEPOSIT_7;
    assert [l, l][..1] == [l] && [l][..0] == [] && [DOUBLE_EVENT][..0] == [];
    assert IdsOf([l]) == [7];
  }

  /** The prediction fails for a repeated id: the dry run accepts what no live run can commit. */
  lemma RepeatedIdFoolsDryRun(env: Env)
    requires (7, 0) !in env.foreign && forall row :: env.storable(row)
    ensures var events := [DOUBLE_EVENT];
            && RestoreAll([], events, env, true).Some?
            && RestoreAll([], events, env, false).Some?
            && Verify(RestoreAll([], events, env, false).value.rows, events).None?
  {
    DoubleEntries(env);
    DoubleRestore(env);
    DoubleIds();
    assert (set id | id in [7, 7]) == {7};
    hide Restore, Entries, LineIds, EventHolds;
  }

  // ---------------------------------------------------------------- when a restored ledger verifies

  function TransferOf(e: CashEvent, env: Env): Option<string>
    requires Opens(e, env)
  {
    if e.transfer.None? then None else env.uuid(e.transfer.value)
  }

  /** What verification asks of an event on its own. */
  predicate WellFormed(e: CashEvent) {
    && e.lines.Some? && e.lines.value != []
    && (e.isTransfer ==> |e.lines.value| == 2 && LineSum(e.lines.value) == 0)
    && (e.isTransfer <==> Truthy(e.transfer))
  }

  /**
   A line that has a row must agree with it already; a line without one must come from an event that
   writes its transfer id canonically, and be a transfer if there is such an id.
   */
  predicate Settles(rows: seq<Movement>, l: Line, e: CashEvent, env: Env)
    requires Opens(e, env)
  {
    && l.Line?
    && if RowsWith(rows, l.movementId) == []
       then TextOf(TransferOf(e, env)) == TextOf(e.transfer) && (Truthy(e.transfer) ==> l.kind == TRANSFER)
       else LineHolds(rows, l, e)
  }

  ghost predicate Verifiable(rows: seq<Movement>, events: seq<CashEvent>, env: Env) {
    && Distinct(LineIds(events))
    && forall e :: e in events ==>
         Opens(e, env) && WellFormed(e) && forall l :: l in e.lines.value ==> Settles(rows, l, e, env)
  }

  /** With distinct ids, a movement that had no row gets the row of its only line, and others keep theirs. */
  lemma {:induction false} RowsAfterRestore(rows: seq<Movement>, entries: seq<Entry>, env: Env, x: Entry)
    requires Restore(rows, entries, env, false).Some? && Distinct(EntryIds(entries)) && x in entries
    ensures x.line.Line?
    ensures var now := RowsWith(Restore(rows, entries, env, false).value.rows, x.line.movementId);
            if RowsWith(rows, x.line.movementId) == []
            then Insertable(x.line, env) && now == [RowFor(x, env)]
            else now == RowsWith(rows, x.line.movementId)
  {
    hide RowsWith, Examine, EntryIds, TableTakes;
    var n := |entries| - 1;
    var earlier, last := entries[..n], entries[n];
    var before := Restore(rows, earlier, env, false).value.rows;
    LastIdIsNew(entries);
    assert entries == earlier + [last];
    if x in earlier {
      RowsAfterRestore(rows, earlier, env, x);
      IdListed(earlier, x);
      OneMoreRow(before, last, env, x.line.movementId);
    } else {
      RestoredLast(rows, earlier, x, env);
    }
  }

  lemma {:induction false} IdListed(entries: seq<Entry>, x: Entry)
    requires x in entries && x.line.Line?
    ensures x.line.movementId in EntryIds(entries)
  {
    if x in entries[..|entries| - 1] {
      IdListed(entries[..|entries| - 1], x);
    }
  }

  lemma OneMoreRow(before: seq<Movement>, x: Entry, env: Env, id: int)
    ensures Examine(before, x, env).Missing? ==>
              && Insertable(x.line, env)
              && RowsWith(before + [RowFor(x, env)], id)
                 == RowsWith(before, id) + if x.line.movementId == id then [RowFor(x, env)] else []
    ensures !Examine(before, x, env).NotRestorable? ==> x.line.Line?
  {
    if Examine(before, x, env).Missing? {
      assert (before + [RowFor(x, env)])[..|before|] == before;
    }
  }

  lemma RestoredLast(rows: seq<Movement>, earlier: seq<Entry>, x: Entry, env: Env)
    requires Restore(rows, earlier + [x], env, false).Some?
    requires x.line.Line? ==> x.line.movementId !in EntryIds(earlier)
    ensures x.line.Line?
    ensures var now := RowsWith(Restore(rows, earlier + [x], env, false).value.rows, x.line.movementId);
            if RowsWith(rows, x.line.movementId) == []
            then Insertable(x.line, env) && now == [RowFor(x, env)]
            else now == RowsWith(rows, x.line.movementId)
  {
    hide RowsWith, EntryIds, TableTakes;
    assert (earlier + [x])[..|earlier|] == earlier;
    var before := Restore(rows, earlier, env, false).value.rows;
    OneMoreRow(before, x, env, x.line.movementId);
    RowsSeenLive(rows, earlier, env, x.line.movementId);
    assert RowsWith(before, x.line.movementId) == RowsWith(rows, x.line.movementId);
    ExaminedPresent(before, x, env);
  }

  lemma ExaminedPresent(rows: seq<Movement>, x: Entry, env: Env)
    ensures Examine(rows, x, env).Present? ==> RowsWith(rows, x.line.movementId) != []
    ensures Examine(rows, x, env).Missing? ==> RowsWith(rows, x.line.movementId) == []
  {
  }

  lemma {:induction false} LineListed(e: CashEvent, lines: seq<Line>, env: Env, l: Line)
    requires Opens(e, env) && l in lines
    ensures Entry(l, e.at.value, TransferOf(e, env)) in EntriesOf(e, lines, env)
  {
    if l in lines[..|lines| - 1] {
      LineListed(e, lines[..|lines| - 1], env, l);
    }
  }

  lemma {:induction false} EntryListed(events: seq<CashEvent>, env: Env, e: CashEvent, l: Line)
    requires (forall o :: o in events ==> Opens(o, env)) && e in events && Opens(e, env) && l in e.lines.value
    ensures Entry(l, e.at.value, TransferOf(e, env)) in Entries(events, env)
  {
    var last := events[|events| - 1];
    assert Opens(last, env);
    if e in events[..|events| - 1] {
      EntryListed(events[..|events| - 1], env, e, l);
    } else {
      LineListed(e, e.lines.value, env, l);
    }
  }

  /** After a restore with distinct ids, a line holds exactly when it settled before. */
  lemma LineHoldsAfter(rows: seq<Movement>, events: seq<CashEvent>, env: Env, e: CashEvent, l: Line)
    requires RestoreAll(rows, events, env, false).Some? && Distinct(LineIds(events))
    requires e in events && Opens(e, env) && l in e.lines.value
    ensures LineHolds(RestoreAll(rows, events, env, false).value.rows, l, e) <==> Settles(rows, l, e, env)
  {
    hide Restore, Entries, LineIds, RowsWith;
    EntryIdsAreLineIds(events, env);
    EntryListed(events, env, e, l);
    RowsAfterRestore(rows, Entries(events, env), env, Entry(l, e.at.value, TransferOf(e, env)));
  }

  /**
   When a live restore succeeds, the verification that follows accepts its rows exactly under a
   condition on the rows and events it was given: no movement is named twice, every event is well
   formed, and every line settles.
   */
  lemma RestoredLedgerVerifiesExactly(rows: seq<Movement>, events: seq<CashEvent>, env: Env)
    requires RestoreAll(rows, events, env, false).Some?
    ensures Verify(RestoreAll(rows, events, env, false).value.rows, events).Some? <==> Verifiable(rows, events, env)
  {
    hide Restore, Entries, LineIds, Settles, LineHolds;
    var after := RestoreAll(rows, events, env, false).value.rows;
    if Verify(after, events).Some? {
      DistinctFromSize(LineIds(events));
    }
    if Distinct(LineIds(events)) {
      forall e, l | e in events && e.lines.Some? && l in e.lines.value
        ensures LineHolds(after, l, e) <==> Settles(rows, l, e, env)
      {
        LineHoldsAfter(rows, events, env, e, l);
      }
    }
    if Verifiable(rows, events, env) {
      forall e | e in events ensures EventHolds(after, e) {
        assert WellFormed(e);
      }
      CountsFit(after, events);
    } else if Verify(after, events).Some? {
      forall e | e in events ensures WellFormed(e) && forall l :: l in e.lines.value ==> Settles(rows, l, e, env) {
        assert EventHolds(after, e);
      }
    }
  }

  /** What verification finds of a response after the restore, said of the given rows and entries. */
  ghost predicate ReplySettles(rows: seq<Movement>, entries: seq<Entry>, r: ReplyLine, env: Env) {
    && r.ReplyLine?
    && if RowsWith(rows, r.id) == []
       then exists x :: x in entries && RestoresReply(x, r, env)
       else r.id in EntryIds(entries) && |RowsWith(rows, r.id)| == 1 && ReplyAgrees(RowsWith(rows, r.id)[0], r)
  }

  /** The entry restores the movement that the response names, and as the response says. */
  predicate RestoresReply(x: Entry, r: ReplyLine, env: Env)
    requires r.ReplyLine?
  {
    x.line.Line? && x.line.movementId == r.id && Insertable(x.line, env) && ReplyAgrees(RowFor(x, env), r)
  }

  ghost predicate RequestsSettle(rows: seq<Movement>, entries: seq<Entry>, requests: seq<Request>, env: Env) {
    forall q :: q in requests ==>
      q.lines.Some? && forall r :: r in q.lines.value ==> ReplySettles(rows, entries, r, env)
  }

  lemma ReplyHoldsAfter(rows: seq<Movement>, events: seq<CashEvent>, env: Env, r: ReplyLine)
    requires RestoreAll(rows, events, env, false).Some? && Distinct(LineIds(events))
    ensures ReplyHolds(RestoreAll(rows, events, env, false).value.rows, events, r)
            <==> ReplySettles(rows, Entries(events, env), r, env)
  {
    hide Restore, Entries, LineIds, EntryIds, RowsWith, ReplyAgrees, RowFor;
    EntryIdsAreLineIds(events, env);
    var entries := Entries(events, env);
    if r.ReplyLine? {
      EntryIdAt(entries, r.id);
      forall x | x in entries && x.line.Line? && x.line.movementId == r.id
        ensures r.id in EntryIds(entries)
        ensures var now := RowsWith(RestoreAll(rows, events, env, false).value.rows, r.id);
                if RowsWith(rows, r.id) == []
                then Insertable(x.line, env) && now == [RowFor(x, env)] else now == RowsWith(rows, r.id)
      {
        IdListed(entries, x);
        RowsAfterRestore(rows, entries, env, x);
      }
    }
  }

  /** The whole verification after a live restore, exactly, said of what the restore was given. */
  lemma RestoredLedgerConfirmsExactly(rows: seq<Movement>, events: seq<CashEvent>, requests: seq<Request>, env: Env)
    requires RestoreAll(rows, events, env, false).Some?
    ensures Confirm(RestoreAll(rows, events, env, false).value.rows, events, requests).Some?
            <==> Verifiable(rows, events, env) && RequestsSettle(rows, Entries(events, env), requests, env)
  {
    hide Verify, Verifiable, ReplyHolds, ReplySettles, Entries, Restore;
    RestoredLedgerVerifiesExactly(rows, events, env);
    if Verifiable(rows, events, env) {
      VerifiableIds(rows, events, env);
      forall r ensures ReplyHolds(RestoreAll(rows, events, env, false).value.rows, events, r)
                       <==> ReplySettles(rows, Entries(events, env), r, env)
      {
        ReplyHoldsAfter(rows, events, env, r);
      }
    }
  }

  lemma CountsFit(rows: seq<Movement>, events: seq<CashEvent>)
    requires Distinct(LineIds(events)) && forall e :: e in events ==> EventHolds(rows, e)
    ensures Verify(rows, events).Some?
  {
    var ids := LineIds(events);
    EventsHold(rows, events);
    SplitByIds(rows, ids);
    DistinctLength(ids);
  }

  lemma {:induction false} DistinctRepeatsNothing(rows: seq<Movement>, entries: seq<Entry>)
    requires Distinct(EntryIds(entries))
    ensures !RepeatsMissing(rows, entries)
  {
    if entries != [] {
      hide RepeatsMissing, EntryIds, RowsWith;
      LastIdIsNew(entries);
      DistinctRepeatsNothing(rows, entries[..|entries| - 1]);
      RepeatsGrow(rows, entries);
    } else {
      assert !RepeatsMissing(rows, []);
    }
  }

  /**
   After a dry restore that succeeds, the live one and its verification go through exactly when the
   table takes every missing row, the ledger is verifiable and every stored response settles.
   */
  lemma LedgerDryPredictsExactly(rows: seq<Movement>, events: seq<CashEvent>, requests: seq<Request>, env: Env)
    requires RestoreAll(rows, events, env, true).Some?
    ensures var live := RestoreAll(rows, events, env, false); var entries := Entries(events, env);
            live.Some? && Confirm(live.value.rows, events, requests).Some?
            <==> && MissingTaken(rows, entries, env) && Verifiable(rows, events, env)
                 && RequestsSettle(rows, entries, requests, env)
  {
    hide Restore, Entries, Verify, Verifiable, MissingTaken, RepeatsMissing, RequestsSettle, RequestHolds;
    var live := RestoreAll(rows, events, env, false);
    DryPredictsExactly(rows, Entries(events, env), env);
    if live.Some? {
      RestoredLedgerConfirmsExactly(rows, events, requests, env);
      if Confirm(live.value.rows, events, requests).Some? {
        LedgerDryPredictsLive(rows, events, env);
      }
    }
    if Verifiable(rows, events, env) {
      VerifiableIds(rows, events, env);
      DistinctRepeatsNothing(rows, Entries(events, env));
    }
  }

  lemma VerifiableIds(rows: seq<Movement>, events: seq<CashEvent>, env: Env)
    requires Verifiable(rows, events, env)
    ensures (forall e :: e in events ==> Opens(e, env)) && Distinct(LineIds(events)) && Distinct(EntryIds(Entries(events, env)))
  {
    assert forall e :: e in events ==> Opens(e, env);
    EntryIdsAreLineIds(events, env);
  }

  /** The movements of the two lines of an event, both new. */
  lemma TwoInserted(e: CashEvent, a: Line, b: Line, env: Env)
    requires e.lines == Some([a, b]) && Opens(e, env) && Insertable(a, env) && Insertable(b, env)
    requires a.movementId != b.movementId
    requires var t := TransferOf(e, env);
             TableTakes(RowFor(Entry(a, e.at.value, t), env), env) && TableTakes(RowFor(Entry(b, e.at.value, t), env), env)
    ensures RestoreAll([], [e], env, false).Some?
  {
    hide TableTakes, Restore;
    var t := TransferOf(e, env);
    var x, y := Entry(a, e.at.value, t), Entry(b, e.at.value, t);
    assert [a, b][..1] == [a] && [a][..0] == [] && [e][..0] == [];
    assert EntriesOf(e, [a], env) == [x];
    assert Entries([e], env) == [x, y];
    InsertNew([], x, env);
    InsertNew([x], y, env);
    assert [] + [x] == [x] && [x] + [y] == [x, y];
  }

  /** A new movement that the table takes is restored after any entries that do not name it. */
  lemma InsertNew(earlier: seq<Entry>, x: Entry, env: Env)
    requires earlier == [] || Restore([], earlier, env, false).Some?
    requires Insertable(x.line, env) && TableTakes(RowFor(x, env), env) && x.line.movementId !in EntryIds(earlier)
    ensures Restore([], earlier + [x], env, false).Some?
  {
    hide TableTakes, EntryIds, RowsWith;
    assert (earlier + [x])[..|earlier|] == earlier;
    NoRowsWith([], x.line.movementId);
    AppendedAreMissing([], earlier, env, x.line.movementId);
  }

  const OUT_5 := (kind: string) => Line(1, kind, Some(-5), NoAccount)
  const IN_5 := (kind: string) => Line(2, kind, Some(5), NoAccount)

  /**
   Two events that restore and then fail their own verification: a transfer whose id is written in
   another spelling than the canonical one, and deposits that carry a transfer id.
   */
  lemma SpellingFailsVerification(env: Env, text: string, canonical: string)
    requires env.uuid(text) == Some(canonical) && text != "" && canonical != text
    requires (1, 0) !in env.foreign && (2, 0) !in env.foreign && forall row :: env.storable(row)
    ensures var transfer := CashEvent(1, Some([OUT_5(TRANSFER), IN_5(TRANSFER)]), Some(0), true, Some(text));
            && WellFormed(transfer) && RestoreAll([], [transfer], env, false).Some?
            && Verify(RestoreAll([], [transfer], env, false).value.rows, [transfer]).None?
    ensures var deposits := CashEvent(1, Some([OUT_5("DEPOSITO"), IN_5("DEPOSITO")]), Some(0), false, Some(text));
            && RestoreAll([], [deposits], env, false).Some?
            && Verify(RestoreAll([], [deposits], env, false).value.rows, [deposits]).None?
  {
    SpelledTransfer(env, text, canonical);
    var deposits := CashEvent(1, Some([OUT_5("DEPOSITO"), IN_5("DEPOSITO")]), Some(0), false, Some(text));
    TwoInserted(deposits, OUT_5("DEPOSITO"), IN_5("DEPOSITO"), env);
    hide RestoreAll, Verify;
    RestoredLedgerVerifiesExactly([], [deposits], env);
    assert deposits in [deposits] && !WellFormed(deposits);
  }

  lemma SpelledTransfer(env: Env, text: string, canonical: string)
    requires env.uuid(text) == Some(canonical) && text != "" && canonical != text
    requires (1, 0) !in env.foreign && (2, 0) !in env.foreign && forall row :: env.storable(row)
    ensures var transfer := CashEvent(1, Some([OUT_5(TRANSFER), IN_5(TRANSFER)]), Some(0), true, Some(text));
            && WellFormed(transfer) && RestoreAll([], [transfer], env, false).Some?
            && Verify(RestoreAll([], [transfer], env, false).value.rows, [transfer]).None?
  {
    var a, b := OUT_5(TRANSFER), IN_5(TRANSFER);
    var transfer := CashEvent(1, Some([a, b]), Some(0), true, Some(text));
    assert [a, b][..1] == [a] && [a][..0] == [] && LineSum([a]) == -5;
    TwoInserted(transfer, a, b, env);
    hide RestoreAll, Verify;
    RestoredLedgerVerifiesExactly([], [transfer], env);
    assert transfer in [transfer] && a in transfer.lines.value && !Settles([], a, transfer, env);
  }

  /** A response that gives movement 7 another value than its only event. */
  const STALE := Request(1, Some([ReplyLine(7, "DEPOSITO", Some(50), NoAccount, Some(0), None)]))
  const DEPOSIT_EVENT := CashEvent(1, Some([DEPOSIT_7]), Some(0), false, None)

  /** A restoring dry run never looks at the responses: with a stale one, no live run gets past them. */
  lemma StaleResponseFoolsDryRun(env: Env)
    requires (7, 0) !in env.foreign && forall row :: env.storable(row)
    ensures RestoreAll([], [DEPOSIT_EVENT], env, true) == Some(Restored([], 1))
    ensures MissingTaken([], Entries([DEPOSIT_EVENT], env), env) && Verifiable([], [DEPOSIT_EVENT], env)
    ensures var live := RestoreAll([], [DEPOSIT_EVENT], env, false);
            live.Some? && Confirm(live.value.rows, [DEPOSIT_EVENT], [STALE]).None?
  {
    var x := Entry(DEPOSIT_7, 0, None);
    OneDeposit(env);
    hide Entries, Restore, LineIds;
    DryPredictsExactly([], [x], env);
    assert !RepeatsMissing([], [x]) && MissingTaken([], [x], env);
    RestoredLedgerConfirmsExactly([], [DEPOSIT_EVENT], [STALE], env);
    var r := STALE.lines.value[0];
    assert STALE in [STALE] && r in STALE.lines.value;
    assert !ReplySettles([], [x], r, env);
  }

  lemma DepositIds()
    ensures LineIds([DEPOSIT_EVENT]) == [7]
  {
    assert [DEPOSIT_7][..0] == [] && [DEPOSIT_EVENT][..0] == [];
    assert IdsOf([DEPOSIT_7]) == [7];
  }

  lemma OneDeposit(env: Env)
    ensures Opens(DEPOSIT_EVENT, env) && Entries([DEPOSIT_EVENT], env) == [Entry(DEPOSIT_7, 0, None)]
    ensures Restore([], [Entry(DEPOSIT_7, 0, None)], env, true) == Some(Restored([], 1))
    ensures Verifiable([], [DEPOSIT_EVENT], env)
  {
    var x := Entry(DEPOSIT_7, 0, None);
    assert [DEPOSIT_7][..0] == [] && [DEPOSIT_EVENT][..0] == [] && [x][..0] == [];
    assert EntriesOf(DEPOSIT_EVENT, [DEPOSIT_7], env) == [x];
    assert Restore([], [], env, true) == Some(Restored([], 0)) && Examine([], x, env).Missing?;
    DepositIds();
  }

  const ZERO_7 := Line(7, "DEPOSITO", Some(0), NoAccount)
  const ZERO_EVENT := CashEvent(1, Some([ZERO_7]), Some(0), false, None)

  /** A line without money: the dry run counts it, and no live run gets past the table's check. */
  lemma ZeroValueFoolsDryRun(env: Env)
    ensures RestoreAll([], [ZERO_EVENT], env, true) == Some(Restored([], 1))
    ensures RestoreAll([], [ZERO_EVENT], env, false).None?
    ensures !RepeatsMissing([], [Entry(ZERO_7, 0, None)])
  {
    var x := Entry(ZERO_7, 0, None);
    assert [ZERO_7][..0] == [] && [ZERO_EVENT][..0] == [] && [x][..0] == [];
    assert EntriesOf(ZERO_EVENT, [ZERO_7], env) == [x];
    assert Entries([ZERO_EVENT], env) == [x];
    assert Restore([], [], env, true) == Restore([], [], env, false) == Some(Restored([], 0));
    assert Examine([], x, env).Missing?;
  }

  // ---------------------------------------------------------------- a second replay

  lemma {:induction false} AllPresent(rows: seq<Movement>, entries: seq<Entry>, env: Env, dry: bool)
    requires forall x :: x in entries ==> Examine(rows, x, env).Present?
    ensures Restore(rows, entries, env, dry) == Some(Restored(rows, 0))
  {
    if entries != [] {
      AllPresent(rows, entries[..|entries| - 1], env, dry);
    }
  }

  lemma {:induction false} EntryOrigin(events: seq<CashEvent>, env: Env, x: Entry) returns (e: CashEvent)
    requires (forall e :: e in events ==> Opens(e, env)) && x in Entries(events, env)
    ensures e in events && Opens(e, env) && x.line in e.lines.value && x.at == e.at.value
  {
    var last := events[|events| - 1];
    assert Opens(last, env);
    if x in Entries(events[..|events| - 1], env) {
      e := EntryOrigin(events[..|events| - 1], env, x);
    } else {
      e := last;
    }
  }

  /** On a verified ledger, replaying again restores nothing. */
  lemma RestoreIsIdempotent(rows: seq<Movement>, events: seq<CashEvent>, env: Env, dry: bool)
    requires (forall e :: e in events ==> Opens(e, env)) && Verify(rows, events).Some?
    ensures RestoreAll(rows, events, env, dry) == Some(Restored(rows, 0))
  {
    forall x | x in Entries(events, env) ensures Examine(rows, x, env).Present? {
      var e := EntryOrigin(events, env, x);
      assert EventHolds(rows, e);
      assert LineHolds(rows, x.line, e);
    }
    AllPresent(rows, Entries(events, env), env, dry);
  }

  // ---------------------------------------------------------------- for the loops

  lemma {:induction false} RestoreFailsOn(rows: seq<Movement>, a: seq<Entry>, b: seq<Entry>, env: Env, dry: bool)
    requires Restore(rows, a, env, dry).None?
    ensures Restore(rows, a + b, env, dry).None?
  {
    if b == [] {
      assert a + b == a;
    } else {
      RestoreFailsOn(rows, a, b[..|b| - 1], env, dry);
      assert (a + b)[..|a + b| - 1] == a + b[..|b| - 1];
    }
  }

  lemma {:induction false} EntriesConcat(a: seq<CashEvent>, b: seq<CashEvent>, env: Env)
    requires forall e :: e in a + b ==> Opens(e, env)
    ensures (forall e :: e in a ==> Opens(e, env)) && (forall e :: e in b ==> Opens(e, env))
    ensures Entries(a + b, env) == Entries(a, env) + Entries(b, env)
  {
    assert forall e :: e in a ==> e in a + b;
    assert forall e :: e in b ==> e in a + b;
    if b == [] {
      assert a + b == a;
    } else {
      assert (a + b)[..|a + b| - 1] == a + b[..|b| - 1];
      assert forall e :: e in a + b[..|b| - 1] ==> e in a + b;
      EntriesConcat(a, b[..|b| - 1], env);
    }
  }
}
