/** Keyset paging: rows above a cursor, in key order, a page at a time. */
module Paging {
  ghost predicate Increasing<T(!new)>(rows: seq<T>, key: T -> int) {
    forall i, j :: 0 <= i < j < |rows| ==> key(rows[i]) < key(rows[j])
  }

  function Above<T(!new)>(rows: seq<T>, key: T -> int, after: int): seq<T> {
    if rows == [] then
      []
    else
      var n := |rows| - 1;
      Above(rows[..n], key, after) + if key(rows[n]) > after then [rows[n]] else []
  }

  function Limit<T(!new)>(rows: seq<T>, size: nat): seq<T> {
    if |rows| <= size then rows else rows[..size]
  }

  /** One page: the first `size` rows above the cursor. */
  function Page<T(!new)>(rows: seq<T>, key: T -> int, after: int, size: nat): seq<T> {
    Limit(Above(rows, key, after), size)
  }

  /** The cursor after the first `m` rows, `start` before any. */
  function Cursor<T(!new)>(rows: seq<T>, key: T -> int, start: int, m: nat): int
    requires m <= |rows|
  {
    if m == 0 then start else key(rows[m - 1])
  }

  lemma {:induction false} AboveCursor<T(!new)>(rows: seq<T>, key: T -> int, start: int, m: nat)
    requires Increasing(rows, key) && m <= |rows| && forall r :: r in rows ==> key(r) > start
    ensures Above(rows, key, Cursor(rows, key, start, m)) == rows[m..]
  {
    if rows != [] {
      var n := |rows| - 1;
      if m <= n {
        AboveCursor(rows[..n], key, start, m);
        assert Cursor(rows[..n], key, start, m) == Cursor(rows, key, start, m);
        assert rows[..n][m..] + [rows[n]] == rows[m..];
      } else {
        NoneAbove(rows, key, key(rows[n]));
      }
    }
  }

  lemma {:induction false} NoneAbove<T(!new)>(rows: seq<T>, key: T -> int, after: int)
    requires forall r :: r in rows ==> key(r) <= after
    ensures Above(rows, key, after) == []
  {
    if rows != [] {
      NoneAbove(rows[..|rows| - 1], key, after);
    }
  }

  /** The page at the cursor after `m` rows is the next stretch of rows, whatever the page size. */
  lemma PageIsNextStretch<T(!new)>(rows: seq<T>, key: T -> int, start: int, m: nat, size: nat)
    requires Increasing(rows, key) && m <= |rows| && forall r :: r in rows ==> key(r) > start
    ensures var page := Page(rows, key, Cursor(rows, key, start, m), size);
            && |page| == (if |rows| - m <= size then |rows| - m else size)
            && page == rows[m..m + |page|]
  {
    AboveCursor(rows, key, start, m);
  }
}
