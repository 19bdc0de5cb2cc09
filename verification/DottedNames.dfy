/** Dotted names as the analyser splits, joins and shortens them. */
module DottedNames {
  import opened Prelude

  /** `text.split(".")`: always at least one part. */
  function Split(text: string): (parts: seq<string>)
    ensures parts != []
  {
    if text == "" then [""]
    else
      var rest := Split(text[1..]);
      if text[0] == '.' then [""] + rest else [[text[0]] + rest[0]] + rest[1..]
  }

  /** `".".join(parts)` */
  function Join(parts: seq<string>): string {
    if parts == [] then ""
    else if |parts| == 1 then parts[0]
    else parts[0] + "." + Join(parts[1..])
  }

  /** Splitting and joining are inverse. */
  lemma {:induction false} JoinSplit(text: string)
    ensures Join(Split(text)) == text
  {
    if text != "" {
      JoinSplit(text[1..]);
      var rest := Split(text[1..]);
      assert text == [text[0]] + text[1..];
      if text[0] == '.' {
        assert ([""] + rest)[1..] == rest;
      } else {
        assert ([[text[0]] + rest[0]] + rest[1..])[1..] == rest[1..];
      }
    }
  }

  lemma {:induction false} SplitFirst(part: string, rest: string)
    requires '.' !in part
    ensures Split(part) == [part]
    ensures Split(part + "." + rest) == [part] + Split(rest)
  {
    var text := part + "." + rest;
    if part == "" {
      assert text[1..] == rest;
    } else {
      assert text[1..] == part[1..] + "." + rest;
      SplitFirst(part[1..], rest);
      assert [part[0]] + part[1..] == part;
      assert ([part[1..]] + Split(rest))[1..] == Split(rest);
    }
  }

  lemma {:induction false} SplitJoin(parts: seq<string>)
    requires parts != [] && forall p | p in parts :: '.' !in p
    ensures Split(Join(parts)) == parts
  {
    if |parts| > 1 {
      SplitJoin(parts[1..]);
      SplitFirst(parts[0], Join(parts[1..]));
    } else {
      SplitFirst(parts[0], "");
    }
  }

  /** The position of the last dot, or -1. */
  function LastDot(text: string): (d: int)
    ensures -1 <= d < |text|
    ensures d >= 0 ==> text[d] == '.'
    ensures forall i | d < i < |text| :: text[i] != '.'
  {
    if text == "" then -1
    else if text[|text| - 1] == '.' then |text| - 1
    else LastDot(text[..|text| - 1])
  }

  /** `candidate.rpartition(".")[0]` */
  function Parent(text: string): string {
    var d := LastDot(text);
    if d < 0 then "" else text[..d]
  }

  /** `prefix` names `name` itself or a package that encloses it. */
  predicate Encloses(prefix: string, name: string) {
    prefix == name || (|prefix| < |name| && prefix <= name && name[|prefix|] == '.')
  }

  lemma ParentEncloses(prefix: string, name: string)
    requires prefix != "" && name != "" && prefix != name
    ensures Encloses(prefix, name) <==> Encloses(prefix, Parent(name))
  {
    var d := LastDot(name);
    var parent := Parent(name);
    if Encloses(prefix, name) {
      assert |prefix| <= d;
      if |prefix| < d {
        assert name[|prefix|] == parent[|prefix|];
      }
    }
  }
}
