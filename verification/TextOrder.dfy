/** The order Python gives texts, and lists of texts of one length. */
module TextOrder {
  predicate AtMost(a: string, b: string) {
    a == "" || (b != "" && (a[0] < b[0] || (a[0] == b[0] && AtMost(a[1..], b[1..]))))
  }

  lemma {:induction false} TextsCompare(a: string, b: string)
    ensures AtMost(a, a) && (AtMost(a, b) || AtMost(b, a))
    ensures AtMost(a, b) && AtMost(b, a) ==> a == b
    decreases |a| + |b|
  {
    if a != "" {
      TextsCompare(a[1..], if b == "" then "" else b[1..]);
      assert a == [a[0]] + a[1..];
      assert b != "" ==> b == [b[0]] + b[1..];
    }
  }

  lemma {:induction false} TextsChain(a: string, b: string, c: string)
    requires AtMost(a, b) && AtMost(b, c)
    ensures AtMost(a, c)
  {
    if a != "" && a[0] == b[0] == c[0] {
      TextsChain(a[1..], b[1..], c[1..]);
    }
  }

  predicate ListAtMost(a: seq<string>, b: seq<string>) {
    a == [] || (b != [] && if a[0] == b[0] then ListAtMost(a[1..], b[1..]) else AtMost(a[0], b[0]))
  }

  lemma {:induction false} ListsCompare(a: seq<string>, b: seq<string>)
    ensures ListAtMost(a, a) && (ListAtMost(a, b) || ListAtMost(b, a))
    decreases |a| + |b|
  {
    if a != [] {
      ListsCompare(a[1..], if b == [] then [] else b[1..]);
      if b != [] {
        TextsCompare(a[0], b[0]);
      }
    }
  }

  lemma {:induction false} ListsChain(a: seq<string>, b: seq<string>, c: seq<string>)
    requires ListAtMost(a, b) && ListAtMost(b, c)
    ensures ListAtMost(a, c)
  {
    if a != [] {
      if a[0] == b[0] == c[0] {
        ListsChain(a[1..], b[1..], c[1..]);
      } else {
        TextsCompare(a[0], b[0]);
        TextsCompare(b[0], c[0]);
        if a[0] != b[0] && b[0] != c[0] {
          TextsChain(a[0], b[0], c[0]);
        }
      }
    }
  }
}
