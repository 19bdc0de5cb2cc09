/** What can be reached in a graph, and the worklist of src/llm_harness/language_audit.py:430-439. */
module Reachability {
  import opened Prelude

  /** `graph.get(n, ())` */
  function Succ<N>(graph: map<N, set<N>>, n: N): set<N> {
    if n in graph then graph[n] else {}
  }

  /** A walk along edges, starting at a root. */
  ghost predicate Walk<N(!new)>(graph: map<N, set<N>>, roots: set<N>, walk: seq<N>) {
    && walk != [] && walk[0] in roots
    && forall i | 0 < i < |walk| :: walk[i] in Succ(graph, walk[i - 1])
  }

  /** `n` is in the reflexive-transitive closure of the roots. */
  ghost predicate Reaches<N(!new)>(graph: map<N, set<N>>, roots: set<N>, n: N) {
    exists walk :: Walk(graph, roots, walk) && walk[|walk| - 1] == n
  }

  lemma RootReaches<N(!new)>(graph: map<N, set<N>>, roots: set<N>, n: N)
    requires n in roots
    ensures Reaches(graph, roots, n)
  {
    assert Walk(graph, roots, [n]);
  }

  lemma StepReaches<N(!new)>(graph: map<N, set<N>>, roots: set<N>, n: N, m: N)
    requires Reaches(graph, roots, n) && m in Succ(graph, n)
    ensures Reaches(graph, roots, m)
  {
    var walk :| Walk(graph, roots, walk) && walk[|walk| - 1] == n;
    assert Walk(graph, roots, walk + [m]);
    assert (walk + [m])[|walk + [m]| - 1] == m;
  }

  /** A set that holds the roots and is closed under edges holds everything reachable. */
  lemma {:induction false} ClosedSetHoldsWalks<N(!new)>(graph: map<N, set<N>>, roots: set<N>, closed: set<N>, walk: seq<N>)
    requires roots <= closed && forall n | n in closed :: Succ(graph, n) <= closed
    requires Walk(graph, roots, walk)
    ensures walk[|walk| - 1] in closed
  {
    if |walk| > 1 {
      ClosedSetHoldsWalks(graph, roots, closed, walk[..|walk| - 1]);
    }
  }

  /** Some enumeration of a set, in no particular order. */
  method Enumerate<N(==)>(s: set<N>) returns (listed: seq<N>)
    ensures forall n :: n in listed <==> n in s
  {
    listed := [];
    var rest := s;
    while rest != {}
      invariant forall n :: n in s <==> n in listed || n in rest
      decreases rest
    {
      var n :| n in rest;
      listed, rest := listed + [n], rest - {n};
    }
  }

  /** Everything the worklist can ever hold. */
  ghost function Universe<N(!new)>(graph: map<N, set<N>>, roots: set<N>): (all: set<N>)
    ensures roots <= all && forall n :: Succ(graph, n) <= all
  {
    roots + set n, m | n in graph && m in graph[n] :: m
  }

  /** `visited` has been expanded, `todo` is still to be. */
  ghost predicate Progress<N(!new)>(graph: map<N, set<N>>, roots: set<N>, visited: set<N>, todo: set<N>) {
    && roots <= visited + todo <= Universe(graph, roots)
    && (forall n | n in visited :: Succ(graph, n) <= visited + todo)
    && forall n | n in visited + todo :: Reaches(graph, roots, n)
  }

  lemma Started<N(!new)>(graph: map<N, set<N>>, roots: set<N>)
    ensures Progress(graph, roots, {}, roots)
  {
    assert {} + roots == roots;
    forall n | n in roots ensures Reaches(graph, roots, n) {
      RootReaches(graph, roots, n);
    }
  }

  lemma Expand<N(!new)>(graph: map<N, set<N>>, roots: set<N>, visited: set<N>, todo: set<N>, n: N)
    requires Progress(graph, roots, visited, todo + {n})
    ensures Progress(graph, roots, visited + {n}, todo + Succ(graph, n))
    ensures n !in visited ==> Universe(graph, roots) - (visited + {n}) < Universe(graph, roots) - visited
  {
    forall m | m in Succ(graph, n) ensures Reaches(graph, roots, m) {
      StepReaches(graph, roots, n, m);
    }
    assert visited + (todo + {n}) <= (visited + {n}) + (todo + Succ(graph, n));
    assert n in visited + (todo + {n});
  }

  lemma Skip<N(!new)>(graph: map<N, set<N>>, roots: set<N>, visited: set<N>, todo: set<N>, n: N)
    requires Progress(graph, roots, visited, todo + {n}) && n in visited
    ensures Progress(graph, roots, visited, todo)
  {
    assert visited + (todo + {n}) == visited + todo;
  }

  lemma Finished<N(!new)>(graph: map<N, set<N>>, roots: set<N>, visited: set<N>, n: N)
    requires Progress(graph, roots, visited, {})
    ensures n in visited <==> Reaches(graph, roots, n)
  {
    assert visited + {} == visited;
    if Reaches(graph, roots, n) {
      var walk :| Walk(graph, roots, walk) && walk[|walk| - 1] == n;
      ClosedSetHoldsWalks(graph, roots, visited, walk);
    }
  }

  /** The worklist loop. `pending` may grow with duplicates; it still terminates, because every
      node is expanded once. */
  method Reachable<N(==, !new)>(graph: map<N, set<N>>, roots: set<N>) returns (visited: set<N>)
    ensures forall n :: n in visited <==> Reaches(graph, roots, n)
  {
    visited := {};
    var pending := Enumerate(roots);
    Started(graph, roots);
    assert Members(pending) == roots;
    ghost var all := Universe(graph, roots);
    while pending != []
      invariant Progress(graph, roots, visited, Members(pending))
      decreases all - visited, |pending|
    {
      var current := pending[|pending| - 1];
      ghost var before := pending;
      pending := pending[..|pending| - 1];
      MembersLast(before);
      if current in visited {
        Skip(graph, roots, visited, Members(pending), current);
      } else {
        var next := Enumerate(Succ(graph, current));
        Expand(graph, roots, visited, Members(pending), current);
        MembersConcat(pending, next);
        assert Members(next) == Succ(graph, current);
        visited, pending := visited + {current}, pending + next;
      }
    }
    forall n ensures n in visited <==> Reaches(graph, roots, n) {
      Finished(graph, roots, visited, n);
    }
  }
}
