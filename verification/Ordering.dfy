/**
 Sorting by a pair of integers, the only order the modelled programs sort by:
 (occurrence, bet id) inside a search group, (house id, tip id) in a report.
 Python's list.sort is represented by what it promises: an ordered permutation.
 */
module Ordering {
  predicate Before(a: (int, int), b: (int, int)) {
    a.0 < b.0 || (a.0 == b.0 && a.1 <= b.1)
  }

  ghost predicate SortedBy<T(!new)>(s: seq<T>, key: T -> (int, int)) {
    forall i, j :: 0 <= i < j < |s| ==> Before(key(s[i]), key(s[j]))
  }

  ghost predicate Distinct<T(!new)>(s: seq<T>) {
    forall i, j :: 0 <= i < j < |s| ==> s[i] != s[j]
  }

  function Insert<T(!new)>(x: T, s: seq<T>, key: T -> (int, int)): (r: seq<T>)
    ensures |r| == |s| + 1
    ensures forall y :: y in r <==> y == x || y in s
    ensures SortedBy(s, key) ==> SortedBy(r, key)
    ensures Distinct(s) && x !in s ==> Distinct(r)
  {
    if s == [] || Before(key(x), key(s[0])) then
      [x] + s
    else
      var rest := Insert(x, s[1..], key);
      assert forall y :: y in s <==> y == s[0] || y in s[1..];
      assert forall k :: 0 <= k < |rest| ==> rest[k] == x || rest[k] in s[1..];
      assert SortedBy(s, key) ==> forall y :: y in s[1..] ==> Before(key(s[0]), key(y));
      assert SortedBy(s, key) ==> SortedBy(s[1..], key);
      [s[0]] + rest
  }

  function SortBy<T(!new)>(s: seq<T>, key: T -> (int, int)): (r: seq<T>)
    ensures |r| == |s|
    ensures SortedBy(r, key)
    ensures forall y :: y in r <==> y in s
    ensures Distinct(s) ==> Distinct(r)
  {
    if s == [] then
      []
    else
      assert forall y :: y in s <==> y == s[0] || y in s[1..];
      Insert(s[0], SortBy(s[1..], key), key)
  }

  lemma {:induction false} InsertKeepsMultiset<T(!new)>(x: T, s: seq<T>, key: T -> (int, int))
    ensures multiset(Insert(x, s, key)) == multiset(s) + multiset{x}
  {
    if s == [] || Before(key(x), key(s[0])) {
    } else {
      InsertKeepsMultiset(x, s[1..], key);
      assert s == [s[0]] + s[1..];
    }
  }

  lemma {:induction false} SortKeepsMultiset<T(!new)>(s: seq<T>, key: T -> (int, int))
    ensures multiset(SortBy(s, key)) == multiset(s)
  {
    if s == [] {
    } else {
      SortKeepsMultiset(s[1..], key);
      InsertKeepsMultiset(s[0], SortBy(s[1..], key), key);
      assert s == [s[0]] + s[1..];
    }
  }

  /** A duplicate-free sequence has as many elements as its set. */
  lemma {:induction false} DistinctLength<T(!new)>(s: seq<T>)
    requires Distinct(s)
    ensures |set x | x in s| == |s|
  {
    if s == [] {
    } else {
      DistinctLength(s[1..]);
      var rest := set x | x in s[1..];
      assert s[0] !in s[1..];
      assert (set x | x in s) == rest + {s[0]};
    }
  }
}
