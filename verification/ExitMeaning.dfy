/** What the analyser takes for an exit, and so what it reports, in terms of runs alone. */
module ExitMeaning {
  import opened Syntax
  import opened Semantics
  import opened UnreachableFindings
  import opened DeadCodeSoundness

  /** A statement that holds no statement lists. */
  predicate Simple(n: Node) {
    n.Act? || n.Return? || n.Raise? || n.Break? || n.Continue?
  }

  /** Whatever the environment answers, the statement does not let control pass to the one behind it. */
  ghost predicate NeverPasses(n: Node) {
    forall env: Env<nat>, state, trace, fuel :: !RunNode(env, n, state, trace, fuel).outcome.Normal?
  }

  /** A simple statement that always leaves its list. */
  ghost predicate Leaves(n: Node) {
    Simple(n) && NeverPasses(n)
  }

  lemma SimplePasses(n: Node)
    ensures Leaves(n) <==> n.IsExit()
  {
    if n.Act? {
      var env: Env<nat> := (q: Query, s: nat) => Value(s, 0);
      assert RunNode(env, n, 0, [], 0).outcome.Normal?;
    }
  }

  /** The statement behind a simple one is reported exactly if the simple one never lets control pass. */
  lemma SimpleIsExitExactlyWhen(n: Node, next: Node)
    requires Simple(n)
    ensures FirstFound([n, next]) == if NeverPasses(n) then [next.id] else []
  {
    SimplePasses(n);
    assert [n, next][1..] == [next];
  }

  /** `i` is the statement directly behind the first simple statement of the list that always leaves it. */
  ghost predicate BehindFirst(block: seq<Node>, x: nat, i: Id) {
    x + 1 < |block| && block[x + 1].id == i && Leaves(block[x]) && forall k | 0 <= k < x :: !Leaves(block[k])
  }

  lemma BehindIsDead(block: seq<Node>, x: nat, i: Id)
    ensures BehindFirst(block, x, i) <==> FirstDead(block, x, i)
  {
    forall k | 0 <= k < |block| ensures Leaves(block[k]) <==> block[k].IsExit() {
      SimplePasses(block[k]);
    }
    hide Leaves;
  }

  /** The analyser finds a statement if and only if, in some statement list at any depth, it stands directly
      behind the first simple statement that no run ever gets past. */
  lemma FoundExactlyWhenBehind(tree: Node, i: Id)
    ensures i in WalkFound([tree]) <==> exists block: seq<Node>, x: nat :: HasBlock(tree, block) && BehindFirst(block, x, i)
  {
    WalkFindsReported([tree]);
    assert AllReported([tree]) == Reported(tree) + AllReported([]);
    assert i in WalkFound([tree]) <==> i in multiset(WalkFound([tree]));
    ReportMeaning(tree, i);
    hide *;
    BehindEverywhere(tree, i);
  }

  lemma BehindEverywhere(tree: Node, i: Id)
    ensures ReportedFor(tree, i) <==> exists block: seq<Node>, x: nat :: HasBlock(tree, block) && BehindFirst(block, x, i)
  {
    hide HasBlock, BehindFirst, FirstDead;
    forall block: seq<Node>, x: nat ensures BehindFirst(block, x, i) <==> FirstDead(block, x, i) {
      BehindIsDead(block, x, i);
    }
  }
}
