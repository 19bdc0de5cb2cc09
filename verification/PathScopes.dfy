/** When two tasks may not run together, in terms of the paths they may touch. */
module PathScopes {
  import opened TaskGraph
  import opened TaskStore

  /** The path is `root` itself or lies below it. */
  ghost predicate Under(path: string, root: string) {
    path == root || (|root| < |path| && path[..|root|] == root && path[|root|] == '/')
  }

  /** The scope lets a task touch the path: an empty scope and the wildcard let it touch any. */
  ghost predicate Covers(scope: seq<string>, path: string) {
    scope == [] || exists root | root in scope :: root == "*" || Under(path, root)
  }

  lemma UnderIsWithin(path: string, root: string)
    ensures Under(path, root) <==> Within(path, root)
  {
    if |root| < |path| {
      assert path[..|root| + 1] == path[..|root|] + [path[|root|]];
    }
  }

  lemma RootsNest(path: string, a: string, b: string)
    requires Under(path, a) && Under(path, b) && |a| <= |b|
    ensures Under(b, a)
  {
    assert path[..|a|] == a && path[..|b|] == b;
    assert b[..|a|] == a;
    if |a| < |b| {
      assert b[|a|] == path[|a|];
    }
  }

  lemma SharedRoot(a: string, b: string, path: string)
    requires (a == "*" || Under(path, a)) && (b == "*" || Under(path, b))
    ensures a == "*" || b == "*" || Within(a, b) || Within(b, a)
  {
    if a != "*" && b != "*" {
      UnderIsWithin(a, b);
      UnderIsWithin(b, a);
      if |a| <= |b| {
        RootsNest(path, a, b);
      } else {
        RootsNest(path, b, a);
      }
    }
  }

  lemma CoversOwn(scope: seq<string>, root: string)
    requires root in scope
    ensures Covers(scope, root)
  {
    assert Under(root, root);
  }

  lemma CoversBelow(scope: seq<string>, root: string, path: string)
    requires root in scope && (root == "*" || Under(path, root))
    ensures Covers(scope, path)
  {
  }

  /** Two scopes conflict if and only if some path is covered by both. */
  lemma ConflictExactlyWhenShared(left: seq<string>, right: seq<string>)
    ensures Conflict(left, right) <==> exists path :: Covers(left, path) && Covers(right, path)
  {
    hide Within, Under;
    if path :| Covers(left, path) && Covers(right, path) {
      if left != [] && right != [] {
        var a :| a in left && (a == "*" || Under(path, a));
        var b :| b in right && (b == "*" || Under(path, b));
        SharedRoot(a, b, path);
      }
    }
    if left == [] {
      var path := if right == [] then "" else right[0];
      if right != [] {
        CoversOwn(right, path);
      }
      assert Covers(left, path) && Covers(right, path);
    } else if right == [] {
      CoversOwn(left, left[0]);
      assert Covers(left, left[0]) && Covers(right, left[0]);
    } else if Conflict(left, right) {
      var a, b :| a in left && b in right && (a == "*" || b == "*" || Within(a, b) || Within(b, a));
      UnderIsWithin(a, b);
      UnderIsWithin(b, a);
      var path := if a == "*" || Within(b, a) then b else a;
      CoversOwn(left, a);
      CoversOwn(right, b);
      if path == b {
        CoversBelow(left, a, b);
      } else {
        CoversBelow(right, b, a);
      }
      assert Covers(left, path) && Covers(right, path);
    }
  }

  /** So the tasks of a batch never share a path. */
  lemma BatchSharesNothing(specs: seq<Spec>, status: Statuses, limit: nat, batch: seq<nat>, i: nat, j: nat, path: string)
    requires IsBatch(specs, status, limit, batch) && i < j < |batch|
    ensures !(Covers(specs[batch[i]].paths, path) && Covers(specs[batch[j]].paths, path))
  {
    ConflictExactlyWhenShared(specs[batch[j]].paths, specs[batch[i]].paths);
    assert !Conflict(specs[batch[j]].paths, specs[batch[i]].paths);
    hide Conflict, Covers;
  }
}
