/** Finite sums over sets, independent of the order in which they are taken. */
module Sums {
  ghost function SumOver<K(!new)>(keys: set<K>, f: K -> int): int
    decreases |keys|
  {
    if keys == {} then
      0
    else
      var k :| k in keys;
      f(k) + SumOver(keys - {k}, f)
  }

  lemma {:induction false} SumRemove<K(!new)>(keys: set<K>, f: K -> int, k: K)
    requires k in keys
    ensures SumOver(keys, f) == f(k) + SumOver(keys - {k}, f)
    decreases |keys|
  {
    var first :| first in keys && SumOver(keys, f) == f(first) + SumOver(keys - {first}, f);
    if first != k {
      SumRemove(keys - {first}, f, k);
      SumRemove(keys - {k}, f, first);
      assert keys - {first} - {k} == keys - {k} - {first};
    }
  }

  lemma {:induction false} SumSame<K(!new)>(keys: set<K>, f: K -> int, g: K -> int)
    requires forall k :: k in keys ==> f(k) == g(k)
    ensures SumOver(keys, f) == SumOver(keys, g)
    decreases |keys|
  {
    if keys != {} {
      var k :| k in keys;
      SumRemove(keys, f, k);
      SumRemove(keys, g, k);
      SumSame(keys - {k}, f, g);
    }
  }

  /** Changing the function at one key changes the sum by that difference. */
  lemma SumAt<K(!new)>(keys: set<K>, f: K -> int, g: K -> int, k: K)
    requires k in keys && forall x :: x in keys && x != k ==> f(x) == g(x)
    ensures SumOver(keys, g) == SumOver(keys, f) - f(k) + g(k)
  {
    SumRemove(keys, f, k);
    SumRemove(keys, g, k);
    SumSame(keys - {k}, f, g);
  }
}
