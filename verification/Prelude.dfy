/** Option and Result, and the set of elements of a sequence. */
module Prelude {
  datatype Option<+T> = None | Some(value: T)

  datatype Result<+T, +E> = Ok(value: T) | Err(error: E)

  function Members<T>(s: seq<T>): set<T> {
    set x | x in s
  }

  lemma MembersConcat<T>(s: seq<T>, t: seq<T>)
    ensures Members(s + t) == Members(s) + Members(t)
  {
  }

  lemma MembersLast<T>(s: seq<T>)
    requires s != []
    ensures Members(s) == Members(s[..|s| - 1]) + {s[|s| - 1]}
  {
    assert s == s[..|s| - 1] + [s[|s| - 1]];
  }

  predicate NoDuplicates<T(==)>(s: seq<T>) {
    forall i, j | 0 <= i < j < |s| :: s[i] != s[j]
  }

  /** `len(set(s)) == len(s)` says that nothing in `s` occurs twice. */
  lemma {:induction false} SizeTellsDuplicates<T>(s: seq<T>)
    ensures |Members(s)| <= |s|
    ensures |Members(s)| == |s| <==> NoDuplicates(s)
  {
    if s != [] {
      var init, last := s[..|s| - 1], s[|s| - 1];
      SizeTellsDuplicates(init);
      MembersLast(s);
      if last in init {
        assert Members(s) == Members(init);
      }
    }
  }
}
