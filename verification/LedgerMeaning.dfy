/**
 What restoring and verifying the cash ledger mean, told by the columns of movements, lines and
 responses alone, with nothing that the replay itself computes with.
 */
module LedgerMeaning {
  import opened Wrappers
  import opened Ordering
  import opened Ledger

  // ---------------------------------------------------------------- lines and rows

  /** The row is on the account that the line names: none for none, and never for a reference that is no id. */
  ghost predicate OnAccount(account: Option<int>, a: AccountRef) {
    (a == NoAccount && account == None) || (exists id :: a == Account(id) && account == Some(id))
  }

  /** Transfer texts agree; a missing one reads as the empty text. */
  ghost predicate SameText(a: Option<string>, b: Option<string>) {
    a == b || (a in {None, Some("")} && b in {None, Some("")})
  }

  /** The row is what the line and its event say. */
  ghost predicate Tells(row: Movement, l: Line, e: CashEvent) {
    && l.Line? && row.id == l.movementId && row.kind == l.kind && Some(row.value) == l.value
    && OnAccount(row.account, l.account) && Some(row.at) == e.at && SameText(row.transfer, e.transfer)
    && (e.transfer !in {None, Some("")} ==> row.kind == "TRANSFERENCIA")
  }

  /** Row `k` is the only one of its id. */
  ghost predicate OnlyRow(rows: seq<Movement>, k: int, id: int) {
    0 <= k < |rows| && rows[k].id == id && forall j :: 0 <= j < |rows| && j != k ==> rows[j].id != id
  }

  ghost predicate LineStands(rows: seq<Movement>, l: Line, e: CashEvent) {
    l.Line? && exists k :: OnlyRow(rows, k, l.movementId) && Tells(rows[k], l, e)
  }

  ghost predicate EventStands(rows: seq<Movement>, e: CashEvent) {
    && e.lines != None && e.lines.value != []
    && (e.isTransfer <==> e.transfer != None && e.transfer != Some(""))
    && (forall l :: l in e.lines.value ==> LineStands(rows, l, e))
    && (e.isTransfer ==>
          && |e.lines.value| == 2 && e.lines.value[0].Line? && e.lines.value[1].Line?
          && exists x, y :: e.lines.value[0].value == Some(x) && e.lines.value[1].value == Some(y) && x + y == 0)
  }

  lemma {:induction false} UniqueRow(rows: seq<Movement>, id: int)
    ensures RowsWith(rows, id) == [] <==> forall j :: 0 <= j < |rows| ==> rows[j].id != id
    ensures |RowsWith(rows, id)| == 1 <==> exists k :: OnlyRow(rows, k, id)
    ensures forall k :: OnlyRow(rows, k, id) ==> RowsWith(rows, id) == [rows[k]]
  {
    if rows != [] {
      var n := |rows| - 1;
      UniqueRow(rows[..n], id);
      if rows[n].id != id {
        if k :| OnlyRow(rows[..n], k, id) {
          assert OnlyRow(rows, k, id);
        }
        forall k | OnlyRow(rows, k, id) ensures OnlyRow(rows[..n], k, id) {
        }
      } else if RowsWith(rows[..n], id) == [] {
        assert OnlyRow(rows, n, id);
      } else {
        var j :| 0 <= j < n && rows[..n][j].id == id;
        assert rows[j].id == id;
      }
    }
  }

  lemma AgreesExactly(row: Movement, l: Line, e: CashEvent)
    requires l.Line? && row.id == l.movementId
    ensures Agrees(row, l, e) <==> Tells(row, l, e)
  {
  }

  lemma LineExactly(rows: seq<Movement>, l: Line, e: CashEvent)
    ensures LineHolds(rows, l, e) <==> LineStands(rows, l, e)
  {
    hide Agrees, Tells;
    if l.Line? {
      UniqueRow(rows, l.movementId);
      if LineHolds(rows, l, e) {
        var k :| OnlyRow(rows, k, l.movementId);
        AgreesExactly(rows[k], l, e);
      }
      if k :| OnlyRow(rows, k, l.movementId) && Tells(rows[k], l, e) {
        AgreesExactly(rows[k], l, e);
      }
    }
  }

  lemma EventExactly(rows: seq<Movement>, e: CashEvent)
    ensures EventHolds(rows, e) <==> EventStands(rows, e)
  {
    hide LineHolds, LineStands;
    forall l ensures LineHolds(rows, l, e) <==> LineStands(rows, l, e) {
      LineExactly(rows, l, e);
    }
    if e.lines.Some? && |e.lines.value| == 2 && forall l :: l in e.lines.value ==> LineHolds(rows, l, e) {
      var a, b := e.lines.value[0], e.lines.value[1];
      assert a in e.lines.value && b in e.lines.value;
      HeldValue(rows, a, e);
      HeldValue(rows, b, e);
      TwoLines(e.lines.value);
    }
  }

  lemma HeldValue(rows: seq<Movement>, l: Line, e: CashEvent)
    requires LineHolds(rows, l, e)
    ensures l.Line? && l.value != None && l.value == Some(l.value.value)
  {
  }

  lemma TwoLines(lines: seq<Line>)
    requires |lines| == 2 && lines[0].Line? && lines[1].Line? && lines[0].value.Some? && lines[1].value.Some?
    ensures LineSum(lines) == lines[0].value.value + lines[1].value.value
  {
    assert lines[..1] == [lines[0]] && lines[..1][..0] == [];
    assert LineSum([]) == 0 && LineSum(lines[..1]) == lines[0].value.value;
  }

  // ---------------------------------------------------------------- distinct ids

  /** Line `a` of event `i` names the movement. */
  ghost predicate Names(events: seq<CashEvent>, i: int, a: int, id: int) {
    && 0 <= i < |events| && events[i].lines != None && 0 <= a < |events[i].lines.value|
    && events[i].lines.value[a].Line? && events[i].lines.value[a].movementId == id
  }

  /** No movement is named twice. */
  ghost predicate NamedOnce(events: seq<CashEvent>) {
    forall i, a, j, b, id :: Names(events, i, a, id) && Names(events, j, b, id) ==> i == j && a == b
  }

  ghost predicate HasId(lines: seq<Line>, a: int, id: int) {
    0 <= a < |lines| && lines[a].Line? && lines[a].movementId == id
  }

  ghost predicate IdsOnce(lines: seq<Line>) {
    forall a, b, id :: HasId(lines, a, id) && HasId(lines, b, id) ==> a == b
  }

  lemma DistinctSplit<T(!new)>(a: seq<T>, b: seq<T>)
    ensures Distinct(a + b) <==> Distinct(a) && Distinct(b) && forall x :: x in a ==> x !in b
  {
    var s := a + b;
    if Distinct(s) {
      forall i, j | 0 <= i < j < |a| ensures a[i] != a[j] { assert s[i] != s[j]; }
      forall i, j | 0 <= i < j < |b| ensures b[i] != b[j] { assert s[|a| + i] != s[|a| + j]; }
      forall x | x in a ensures x !in b {
        var i :| 0 <= i < |a| && a[i] == x;
        forall j | 0 <= j < |b| ensures b[j] != x { assert s[i] != s[|a| + j]; }
      }
    } else {
      var i, j :| 0 <= i < j < |s| && s[i] == s[j];
      if i < |a| <= j {
        assert a[i] in a && b[j - |a|] in b;
      } else if j < |a| {
        assert a[i] == a[j];
      } else {
        assert b[i - |a|] == b[j - |a|];
      }
    }
  }

  lemma {:induction false} LineIdsOnce(lines: seq<Line>)
    ensures forall id :: id in IdsOf(lines) <==> exists a :: HasId(lines, a, id)
    ensures Distinct(IdsOf(lines)) <==> IdsOnce(lines)
  {
    if lines != [] {
      var n := |lines| - 1;
      var rest := lines[..n];
      LineIdsOnce(rest);
      OnceGrows(lines);
      assert forall a, id :: HasId(lines, a, id) <==> HasId(rest, a, id) || (a == n && HasId(lines, n, id));
      hide IdsOnce;
      if lines[n].Line? {
        var id := lines[n].movementId;
        assert HasId(lines, n, id);
        assert IdsOf(lines) == IdsOf(rest) + [id];
        DistinctSplit(IdsOf(rest), [id]);
        assert Distinct([id]);
        assert (exists a :: HasId(rest, a, id)) <==> id in IdsOf(rest);
      } else {
        assert IdsOf(lines) == IdsOf(rest);
      }
    }
  }

  lemma OnceGrows(lines: seq<Line>)
    requires lines != []
    ensures var n := |lines| - 1;
            IdsOnce(lines) <==> IdsOnce(lines[..n]) && forall a, id :: HasId(lines[..n], a, id) ==> !HasId(lines, n, id)
  {
    var n := |lines| - 1;
    var rest := lines[..n];
    assert forall a, id :: HasId(lines, a, id) <==> HasId(rest, a, id) || (a == n && HasId(lines, n, id));
    assert forall a, id :: HasId(rest, a, id) ==> a < n;
  }

  lemma {:induction false} EventIdsOnce(events: seq<CashEvent>)
    ensures forall id :: id in LineIds(events) <==> exists i, a :: Names(events, i, a, id)
    ensures Distinct(LineIds(events)) <==> NamedOnce(events)
  {
    hide IdsOf, IdsOnce, HasId, Names;
    if events == [] {
      NothingNamed();
    } else {
      var n := |events| - 1;
      var rest, last := events[..n], if events[n].lines.Some? then events[n].lines.value else [];
      EventIdsOnce(rest);
      LineIdsOnce(last);
      NamesSplit(events, rest, last);
      NothingInNone();
      var early, late := LineIds(rest), IdsOf(last);
      DistinctSplit(early, late);
      assert LineIds(events) == early + late;
      forall id ensures id in LineIds(events) <==> exists i, a :: Names(events, i, a, id) {
        NamedSplit(events, rest, last, id);
      }
      NamedOnceGrows(events, rest, last);
      hide NamedOnce, IdsOnce;
      if Distinct(early) && Distinct(late) {
        ApartExactly(rest, last);
      }
    }
  }

  lemma NothingInNone()
    ensures IdsOf([]) == []
  {
  }

  lemma NothingNamed()
    ensures forall i, a, id :: !Names([], i, a, id)
  {
  }

  lemma NamesSplit(events: seq<CashEvent>, rest: seq<CashEvent>, last: seq<Line>)
    requires events != [] && rest == events[..|events| - 1]
    requires last == if events[|events| - 1].lines.Some? then events[|events| - 1].lines.value else []
    ensures var n := |events| - 1;
            forall i, a, id :: Names(events, i, a, id) <==> Names(rest, i, a, id) || (i == n && HasId(last, a, id))
    ensures forall i, a, id :: Names(rest, i, a, id) ==> i < |events| - 1
  {
  }

  lemma NamedSplit(events: seq<CashEvent>, rest: seq<CashEvent>, last: seq<Line>, id: int)
    requires events != [] && rest == events[..|events| - 1]
    requires last == if events[|events| - 1].lines.Some? then events[|events| - 1].lines.value else []
    ensures (exists i, a :: Names(events, i, a, id))
            <==> (exists i, a :: Names(rest, i, a, id)) || exists a :: HasId(last, a, id)
  {
    hide Names, HasId;
    NamesSplit(events, rest, last);
    var n := |events| - 1;
    if i, a :| Names(rest, i, a, id) {
      assert Names(events, i, a, id);
    }
    if a :| HasId(last, a, id) {
      assert Names(events, n, a, id);
    }
  }

  lemma NamedOnceGrows(events: seq<CashEvent>, rest: seq<CashEvent>, last: seq<Line>)
    requires events != [] && rest == events[..|events| - 1]
    requires last == if events[|events| - 1].lines.Some? then events[|events| - 1].lines.value else []
    ensures NamedOnce(events) <==>
            && NamedOnce(rest) && IdsOnce(last)
            && forall i, a, b, id :: Names(rest, i, a, id) ==> !HasId(last, b, id)
  {
    hide Names, HasId;
    NamesSplit(events, rest, last);
    var n := |events| - 1;
    if NamedOnce(events) {
      forall a, b, id | HasId(last, a, id) && HasId(last, b, id) ensures a == b {
        assert Names(events, n, a, id) && Names(events, n, b, id);
      }
      forall i, a, b, id | Names(rest, i, a, id) ensures !HasId(last, b, id) {
        assert Names(events, i, a, id);
        assert HasId(last, b, id) ==> Names(events, n, b, id);
      }
    }
  }

  lemma ApartExactly(rest: seq<CashEvent>, last: seq<Line>)
    requires forall id :: id in LineIds(rest) <==> exists i, a :: Names(rest, i, a, id)
    requires forall id :: id in IdsOf(last) <==> exists a :: HasId(last, a, id)
    ensures (forall id :: id in LineIds(rest) ==> id !in IdsOf(last))
            <==> forall i, a, b, id :: Names(rest, i, a, id) ==> !HasId(last, b, id)
  {
    hide Names, HasId, LineIds, IdsOf;
    if forall id :: id in LineIds(rest) ==> id !in IdsOf(last) {
      forall i, a, b, id | Names(rest, i, a, id) ensures !HasId(last, b, id) {
        assert id in LineIds(rest);
        assert HasId(last, b, id) ==> id in IdsOf(last);
      }
    }
    if forall i, a, b, id :: Names(rest, i, a, id) ==> !HasId(last, b, id) {
      forall id | id in LineIds(rest) ensures id !in IdsOf(last) {
        var i, a :| Names(rest, i, a, id);
        assert forall b :: !HasId(last, b, id);
      }
    }
  }

  // ---------------------------------------------------------------- verification

  /** A ledger that stands: every event does, and no movement is named twice. */
  ghost predicate LedgerStands(rows: seq<Movement>, events: seq<CashEvent>) {
    (forall e :: e in events ==> EventStands(rows, e)) && NamedOnce(events)
  }

  /** The verification of the events accepts exactly the ledgers that stand. */
  lemma VerifyExactly(rows: seq<Movement>, events: seq<CashEvent>)
    ensures Verify(rows, events) != None <==> LedgerStands(rows, events)
  {
    hide EventHolds, EventStands, LineIds, NamedOnce;
    forall e ensures EventHolds(rows, e) <==> EventStands(rows, e) {
      EventExactly(rows, e);
    }
    EventIdsOnce(events);
    if Verify(rows, events) != None {
      DistinctFromSize(LineIds(events));
    }
    if LedgerStands(rows, events) {
      CountsFit(rows, events);
    }
  }

  /** The stored response is true of the ledger: an event names its movement, and its only row says the same. */
  ghost predicate ReplyStands(rows: seq<Movement>, events: seq<CashEvent>, r: ReplyLine) {
    && r.ReplyLine? && (exists i, a :: Names(events, i, a, r.id))
    && exists k :: OnlyRow(rows, k, r.id) && ReplyTells(rows[k], r)
  }

  ghost predicate ReplyTells(row: Movement, r: ReplyLine)
    requires r.ReplyLine?
  {
    && row.kind == r.kind && Some(row.value) == r.value && OnAccount(row.account, r.account)
    && Some(row.at) == r.at && SameText(row.transfer, r.transfer)
  }

  lemma ReplyExactly(rows: seq<Movement>, events: seq<CashEvent>, r: ReplyLine)
    ensures ReplyHolds(rows, events, r) <==> ReplyStands(rows, events, r)
  {
    hide ReplyAgrees, ReplyTells, LineIds, Names;
    if r.ReplyLine? {
      UniqueRow(rows, r.id);
      EventIdsOnce(events);
      if ReplyHolds(rows, events, r) {
        var k :| OnlyRow(rows, k, r.id);
        ReplyRow(rows[k], r);
      }
      if k :| OnlyRow(rows, k, r.id) && ReplyTells(rows[k], r) {
        ReplyRow(rows[k], r);
      }
    }
  }

  lemma ReplyRow(row: Movement, r: ReplyLine)
    requires r.ReplyLine?
    ensures ReplyAgrees(row, r) <==> ReplyTells(row, r)
  {
  }

  /** The whole verification: the ledger stands, and so does every stored response. */
  lemma ConfirmExactly(rows: seq<Movement>, events: seq<CashEvent>, requests: seq<Request>)
    ensures Confirm(rows, events, requests) != None <==>
            && LedgerStands(rows, events)
            && forall q :: q in requests ==>
                 q.lines != None && forall r :: r in q.lines.value ==> ReplyStands(rows, events, r)
    ensures Confirm(rows, events, requests) != None ==>
              && Confirm(rows, events, requests).value.movements == |rows|
              && Confirm(rows, events, requests).value.withoutEvent == |Legacy(rows, IdSet(events))|
  {
    hide ReplyHolds, ReplyStands, LedgerStands, Verify;
    VerifyExactly(rows, events);
    forall r ensures ReplyHolds(rows, events, r) <==> ReplyStands(rows, events, r) {
      ReplyExactly(rows, events, r);
    }
    if Confirm(rows, events, requests) != None {
      VerifiedConserves(rows, events);
      CountsRows(rows, events);
    }
  }

  lemma CountsRows(rows: seq<Movement>, events: seq<CashEvent>)
    ensures Verify(rows, events).Some? ==> Verify(rows, events).value.movements == |rows|
  {
  }

  // ---------------------------------------------------------------- restoring

  /** The row that a line and its event ask for, on an account of the user or none. */
  ghost predicate Asks(row: Movement, l: Line, e: CashEvent, env: Env) {
    && l.Line? && row.id == l.movementId && row.kind == l.kind && Some(row.value) == l.value && Some(row.at) == e.at
    && OnAccount(row.account, l.account) && (row.account != None ==> row.account.value in env.accounts)
    && (row.kind == "DEPOSITO" || row.kind == "SAQUE" || row.kind == "TRANSFERENCIA" || row.kind == "BONUS" || row.kind == "AJUSTE")
    && (match e.transfer case None => row.transfer == None case Some(text) => row.transfer == env.uuid(text))
  }

  lemma {:induction false} EntryFrom(events: seq<CashEvent>, env: Env, x: Entry)
    requires forall e :: e in events ==> Opens(e, env)
    requires x in Entries(events, env)
    ensures exists e :: e in events && FromEvent(x, e, env)
  {
    var n := |events| - 1;
    var last := events[n];
    if x in Entries(events[..n], env) {
      EntryFrom(events[..n], env, x);
      var e :| e in events[..n] && FromEvent(x, e, env);
      assert e in events;
    } else {
      assert last in events && Opens(last, env);
      EntryOfLast(last, last.lines.value, env, x);
    }
  }

  ghost predicate FromEvent(x: Entry, e: CashEvent, env: Env) {
    && e.lines != None && x.line in e.lines.value && Some(x.at) == e.at
    && (match e.transfer case None => x.transfer == None case Some(text) => x.transfer == env.uuid(text))
  }

  lemma {:induction false} EntryOfLast(e: CashEvent, lines: seq<Line>, env: Env, x: Entry)
    requires Opens(e, env) && x in EntriesOf(e, lines, env) && forall l :: l in lines ==> l in e.lines.value
    ensures FromEvent(x, e, env)
  {
    var n := |lines| - 1;
    if x in EntriesOf(e, lines[..n], env) {
      EntryOfLast(e, lines[..n], env, x);
    }
  }

  lemma RowAsked(x: Entry, e: CashEvent, env: Env)
    requires Insertable(x.line, env) && FromEvent(x, e, env)
    ensures Asks(RowFor(x, env), x.line, e, env)
  {
  }

  /** What a live pass appends: rows made for entries, each of a movement that had none, and taken by the table. */
  lemma {:induction false} AppendedFor(rows: seq<Movement>, entries: seq<Entry>, env: Env, k: nat)
    requires Restore(rows, entries, env, false).Some?
    requires |rows| <= k < |Restore(rows, entries, env, false).value.rows|
    ensures rows <= Restore(rows, entries, env, false).value.rows
    ensures var row := Restore(rows, entries, env, false).value.rows[k];
            && TableTakes(row, env)
            && (exists x :: x in entries && Insertable(x.line, env) && row == RowFor(x, env))
            && RowsWith(Restore(rows, entries, env, false).value.rows[..k], row.id) == []
  {
    hide TableTakes, RowFor, RowsWith, Insertable;
    var n := |entries| - 1;
    var before := Restore(rows, entries[..n], env, false).value.rows;
    var after := Restore(rows, entries, env, false).value.rows;
    RestoreAppends(rows, entries[..n], env, false);
    RestoreAppends(rows, entries, env, false);
    if k < |before| {
      AppendedFor(rows, entries[..n], env, k);
      assert after[..k] == before[..k];
      var x :| x in entries[..n] && Insertable(x.line, env) && after[k] == RowFor(x, env);
      assert x in entries;
    } else {
      assert after[..k] == before;
      assert entries[n] in entries;
      RowKeepsId(entries[n], env);
    }
  }

  lemma RowKeepsId(x: Entry, env: Env)
    ensures Insertable(x.line, env) ==> RowFor(x, env).id == x.line.movementId
  {
  }

  /**
   A live restore keeps all rows and appends, for movements that had none, rows that say exactly what
   a line and its event say; no movement gets two.
   */
  lemma RestoredRowsExactly(rows: seq<Movement>, events: seq<CashEvent>, env: Env, k: nat)
    requires RestoreAll(rows, events, env, false).Some?
    requires |rows| <= k < |RestoreAll(rows, events, env, false).value.rows|
    ensures var r := RestoreAll(rows, events, env, false).value;
            && rows <= r.rows && |r.rows| == |rows| + r.count
            && r.rows[k].value != 0
            && (forall j :: 0 <= j < k ==> r.rows[j].id != r.rows[k].id)
            && exists e, l :: e in events && e.lines != None && l in e.lines.value && Asks(r.rows[k], l, e, env)
  {
    hide Restore, Entries, RowFor, Asks, Insertable, FromEvent;
    var entries := Entries(events, env);
    var r := RestoreAll(rows, events, env, false).value;
    RestoreAppends(rows, entries, env, false);
    AppendedFor(rows, entries, env, k);
    UniqueRow(r.rows[..k], r.rows[k].id);
    assert forall j :: 0 <= j < k ==> r.rows[..k][j] == r.rows[j];
    var x :| x in entries && Insertable(x.line, env) && r.rows[k] == RowFor(x, env);
    EntryFrom(events, env, x);
    var e :| e in events && FromEvent(x, e, env);
    RowAsked(x, e, env);
    FromLines(x, e, env);
  }

  lemma FromLines(x: Entry, e: CashEvent, env: Env)
    requires FromEvent(x, e, env)
    ensures e.lines != None && x.line in e.lines.value
  {
  }

  /** After a live restore every line has exactly one row, at the instant of its event. */
  lemma EveryLineHasRow(rows: seq<Movement>, events: seq<CashEvent>, env: Env, e: CashEvent, l: Line)
    requires RestoreAll(rows, events, env, false).Some? && e in events
    ensures e.lines != None && e.at != None
    ensures l in e.lines.value ==>
              && l.Line?
              && exists k :: OnlyRow(RestoreAll(rows, events, env, false).value.rows, k, l.movementId)
                             && Some(RestoreAll(rows, events, env, false).value.rows[k].at) == e.at
  {
    hide Restore, Entries, OnlyRow, RowsWith;
    assert Opens(e, env);
    var after := RestoreAll(rows, events, env, false).value.rows;
    if l in e.lines.value {
      EntryListed(events, env, e, l);
      var x := Entry(l, e.at.value, TransferOf(e, env));
      RowPresent(rows, Entries(events, env), env, x);
      UniqueRow(after, l.movementId);
      var k :| OnlyRow(after, k, l.movementId);
    }
  }

  lemma {:induction false} RowPresent(rows: seq<Movement>, entries: seq<Entry>, env: Env, x: Entry)
    requires Restore(rows, entries, env, false).Some? && x in entries
    ensures x.line.Line?
    ensures var found := RowsWith(Restore(rows, entries, env, false).value.rows, x.line.movementId);
            |found| == 1 && found[0].at == x.at
  {
    hide RowsWith;
    var n := |entries| - 1;
    var before := Restore(rows, entries[..n], env, false).value.rows;
    assert entries == entries[..n] + [entries[n]];
    if x in entries[..n] {
      RowPresent(rows, entries[..n], env, x);
      OneMoreRow(before, entries[n], env, x.line.movementId);
    } else {
      OneMoreRow(before, x, env, if x.line.Line? then x.line.movementId else 0);
    }
  }

  /** The line can become a row: a kind of movement, a value, and an account of the user or none. */
  ghost predicate Restorable(l: Line, env: Env) {
    && l.Line? && l.value != None && l.account != BadAccount
    && (forall a :: l.account == Account(a) ==> a in env.accounts)
    && (l.kind == "DEPOSITO" || l.kind == "SAQUE" || l.kind == "TRANSFERENCIA" || l.kind == "BONUS" || l.kind == "AJUSTE")
  }

  /** The line has its one row already, at the right instant, or it has none and can be restored. */
  ghost predicate Placed(rows: seq<Movement>, l: Line, e: CashEvent, env: Env) {
    && l.Line?
    && ((exists k :: OnlyRow(rows, k, l.movementId) && Some(rows[k].at) == e.at)
        || ((forall j :: 0 <= j < |rows| ==> rows[j].id != l.movementId) && Restorable(l, env)))
  }

  /** A dry restore goes through exactly when every event is complete and every line is placed. */
  lemma DryExactly(rows: seq<Movement>, events: seq<CashEvent>, env: Env)
    ensures RestoreAll(rows, events, env, true) != None <==>
            forall e :: e in events ==>
              && e.lines != None && e.at != None
              && (forall text :: e.transfer == Some(text) ==> env.uuid(text) != None)
              && forall l :: l in e.lines.value ==> Placed(rows, l, e, env)
    ensures RestoreAll(rows, events, env, true) != None ==> RestoreAll(rows, events, env, true).value.rows == rows
  {
    hide Entries, Placed, Examine, Restore;
    if forall e :: e in events ==> Opens(e, env) {
      var entries := Entries(events, env);
      DryEntries(rows, entries, env);
      forall e, l | e in events && e.lines != None && l in e.lines.value
        ensures exists x :: x in entries && (Examine(rows, x, env).NotRestorable? <==> !Placed(rows, l, e, env))
      {
        EntryListed(events, env, e, l);
        var x := Entry(l, e.at.value, TransferOf(e, env));
        ExaminePlaced(rows, x, e, env);
      }
      forall x | x in entries
        ensures exists e :: e in events && e.lines != None && x.line in e.lines.value
                            && (Examine(rows, x, env).NotRestorable? <==> !Placed(rows, x.line, e, env))
      {
        EntryFrom(events, env, x);
        var e :| e in events && FromEvent(x, e, env);
        ExaminePlaced(rows, x, e, env);
      }
    }
  }

  lemma ExaminePlaced(rows: seq<Movement>, x: Entry, e: CashEvent, env: Env)
    requires Some(x.at) == e.at
    ensures Examine(rows, x, env).NotRestorable? <==> !Placed(rows, x.line, e, env)
  {
    hide RowsWith, OnlyRow;
    if x.line.Line? {
      UniqueRow(rows, x.line.movementId);
      RestorableExactly(x.line, env);
    }
  }

  lemma RestorableExactly(l: Line, env: Env)
    ensures Insertable(l, env) <==> Restorable(l, env)
  {
  }

  lemma {:induction false} DryEntries(rows: seq<Movement>, entries: seq<Entry>, env: Env)
    ensures Restore(rows, entries, env, true) != None <==> forall x :: x in entries ==> !Examine(rows, x, env).NotRestorable?
    ensures Restore(rows, entries, env, true) != None ==> Restore(rows, entries, env, true).value.rows == rows
  {
    hide Examine;
    if entries != [] {
      var n := |entries| - 1;
      DryEntries(rows, entries[..n], env);
      assert entries == entries[..n] + [entries[n]];
    }
  }
}
