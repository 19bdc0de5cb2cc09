/** Keeping the first item of each key. */
module Deduplication {
  predicate KeyIn<T, K(==)>(key: T -> K, items: seq<T>, k: K) {
    exists i | 0 <= i < |items| :: key(items[i]) == k
  }

  /** The items whose key occurs nowhere before them. */
  function Distinct<T, K(==)>(key: T -> K, items: seq<T>): seq<T> {
    if items == [] then []
    else
      var init, last := items[..|items| - 1], items[|items| - 1];
      if KeyIn(key, init, key(last)) then Distinct(key, init) else Distinct(key, init) + [last]
  }

  lemma DistinctNext<T, K>(key: T -> K, items: seq<T>, item: T)
    ensures Distinct(key, items + [item]) ==
      if KeyIn(key, items, key(item)) then Distinct(key, items) else Distinct(key, items) + [item]
    ensures forall k :: KeyIn(key, items + [item], k) <==> KeyIn(key, items, k) || k == key(item)
  {
    var more := items + [item];
    assert more[..|items|] == items;
    forall k ensures KeyIn(key, more, k) <==> KeyIn(key, items, k) || k == key(item) {
      if KeyIn(key, items, k) {
        var i :| 0 <= i < |items| && key(items[i]) == k;
        assert key(more[i]) == k;
      }
      assert key(more[|items|]) == key(item);
    }
  }

  lemma KeyInConcat<T, K>(key: T -> K, a: seq<T>, b: seq<T>, k: K)
    ensures KeyIn(key, a + b, k) <==> KeyIn(key, a, k) || KeyIn(key, b, k)
  {
    var ab := a + b;
    if KeyIn(key, a, k) {
      var i :| 0 <= i < |a| && key(a[i]) == k;
      assert key(ab[i]) == k;
    }
    if KeyIn(key, b, k) {
      var i :| 0 <= i < |b| && key(b[i]) == k;
      assert key(ab[|a| + i]) == k;
    }
  }

  /** No two items share a key, no key is lost, and every prefix has said its last word about the order. */
  lemma {:induction false} DistinctMeaning<T, K>(key: T -> K, items: seq<T>)
    ensures var d := Distinct(key, items);
      && (forall i, j | 0 <= i < j < |d| :: key(d[i]) != key(d[j]))
      && (forall k :: KeyIn(key, d, k) <==> KeyIn(key, items, k))
      && (forall n | 0 <= n <= |items| :: Distinct(key, items[..n]) <= d)
  {
    if items == [] {
    } else {
      var init, last := items[..|items| - 1], items[|items| - 1];
      assert items == init + [last];
      DistinctMeaning(key, init);
      DistinctNext(key, init, last);
      var d, e := Distinct(key, items), Distinct(key, init);
      assert d == if KeyIn(key, init, key(last)) then e else e + [last];
      forall k ensures KeyIn(key, d, k) <==> KeyIn(key, items, k) {
        KeyInConcat(key, e, [last], k);
        assert KeyIn(key, [last], k) <==> key([last][0]) == k;
      }
      if !KeyIn(key, init, key(last)) {
        assert forall i | 0 <= i < |e| :: KeyIn(key, e, key(e[i]));
      }
      hide Distinct, KeyIn;
      forall n | 0 <= n <= |items| ensures Distinct(key, items[..n]) <= d {
        assert n < |items| ==> items[..n] == init[..n];
        assert n == |items| ==> items[..n] == items;
      }
    }
  }

  /** Items whose keys have all come before can be put in anywhere. */
  lemma {:induction false} DistinctSkips<T, K>(key: T -> K, a: seq<T>, b: seq<T>, c: seq<T>)
    requires forall i | 0 <= i < |b| :: KeyIn(key, a, key(b[i]))
    ensures Distinct(key, a + b + c) == Distinct(key, a + c)
    decreases |b| + |c|
  {
    if c != [] {
      var init, last := c[..|c| - 1], c[|c| - 1];
      DistinctSkips(key, a, b, init);
      assert a + b + c == (a + b + init) + [last] && a + c == (a + init) + [last];
      DistinctNext(key, a + b + init, last);
      DistinctNext(key, a + init, last);
      var k := key(last);
      KeyInConcat(key, a + b, init, k);
      KeyInConcat(key, a, b, k);
      KeyInConcat(key, a, init, k);
    } else if b != [] {
      var init, last := b[..|b| - 1], b[|b| - 1];
      DistinctSkips(key, a, init, []);
      assert a + b + [] == (a + init + []) + [last];
      DistinctNext(key, a + init + [], last);
      KeyInConcat(key, a, init + [], key(last));
      assert a + init + [] == a + (init + []);
    } else {
      assert a + b + c == a + c;
    }
  }
}
