// The plan check of src/llm_harness/lifecycle.py: known, duplicate-free and acyclic dependencies.

module TaskGraph {
  import opened Prelude

  type Id = string

  datatype Task = Task(id: Id, dependsOn: seq<Id>)

  type Graph = map<Id, seq<Id>>

  datatype PlanError =
    | DuplicateIds
    | UnknownDependencies(task: Id, unknown: seq<Id>)
    | DuplicateDependencies(task: Id)
    | DependencyCycle(walk: seq<Id>)

  function Ids(tasks: seq<Task>): (ids: seq<Id>)
    ensures |ids| == |tasks| && forall i | 0 <= i < |ids| :: ids[i] == tasks[i].id
  {
    seq(|tasks|, i requires 0 <= i < |tasks| => tasks[i].id)
  }

  /** The dependency map of a plan; should an id occur twice, its later task counts. */
  function Dependencies(tasks: seq<Task>): Graph {
    if tasks == [] then map[]
    else
      var last := tasks[|tasks| - 1];
      Dependencies(tasks[..|tasks| - 1])[last.id := last.dependsOn]
  }

  /** The dependencies in `dependsOn` that are no task of the plan, in order. */
  function Unknown(dependsOn: seq<Id>, ids: set<Id>): seq<Id> {
    if dependsOn == [] then []
    else
      var n := |dependsOn| - 1;
      Unknown(dependsOn[..n], ids) + if dependsOn[n] in ids then [] else [dependsOn[n]]
  }

  lemma {:induction false} UnknownMembers(dependsOn: seq<Id>, ids: set<Id>)
    ensures forall d :: d in Unknown(dependsOn, ids) <==> d in dependsOn && d !in ids
  {
    if dependsOn != [] {
      var n := |dependsOn| - 1;
      UnknownMembers(dependsOn[..n], ids);
      assert dependsOn == dependsOn[..n] + [dependsOn[n]];
    }
  }

  predicate LocallySound(task: Task, ids: set<Id>) {
    Unknown(task.dependsOn, ids) == [] && NoDuplicates(task.dependsOn)
  }

  /** Every dependency is a task of the plan and no task names one twice. */
  ghost predicate WellFormed(tasks: seq<Task>) {
    && NoDuplicates(Ids(tasks))
    && forall i | 0 <= i < |tasks| :: LocallySound(tasks[i], Members(Ids(tasks)))
  }

  ghost predicate Closed(graph: Graph) {
    forall id, d | id in graph && d in graph[id] :: d in graph
  }

  predicate DependsOn(graph: Graph, a: Id, b: Id) {
    a in graph && b in graph[a]
  }

  /** Each task of `walk` depends on the next. */
  ghost predicate Chain(graph: Graph, walk: seq<Id>) {
    forall i, j | 0 <= i < j < |walk| && j == i + 1 :: DependsOn(graph, walk[i], walk[j])
  }

  /** A closed walk of at least one step. */
  ghost predicate Cycle(graph: Graph, walk: seq<Id>) {
    |walk| >= 2 && Chain(graph, walk) && walk[0] == walk[|walk| - 1]
  }

  ghost predicate Acyclic(graph: Graph) {
    forall walk :: !Cycle(graph, walk)
  }

  /** Every task of `order` comes after all its dependencies. */
  ghost predicate Ordered(graph: Graph, order: seq<Id>) {
    forall k | 0 <= k < |order| :: order[k] in graph && forall d | d in graph[order[k]] :: d in order[..k]
  }

  lemma {:induction false} ChainDescends(graph: Graph, order: seq<Id>, walk: seq<Id>, k: nat)
    requires Ordered(graph, order) && Chain(graph, walk) && walk != []
    requires k < |order| && order[k] == walk[0]
    ensures |walk| > 1 ==> walk[|walk| - 1] in order[..k]
    decreases walk
  {
    if |walk| > 1 {
      assert DependsOn(graph, walk[0], walk[1]);
      var j :| 0 <= j < k && order[j] == walk[1];
      var rest := walk[1..];
      ChainDescends(graph, order, rest, j);
      if |rest| > 1 {
        assert walk[|walk| - 1] in order[..j];
        assert order[..j] <= order[..k];
      }
    }
  }

  /** A graph whose tasks can be listed after their dependencies, each once, has no cycle. */
  lemma OrderedIsAcyclic(graph: Graph, order: seq<Id>)
    requires Ordered(graph, order) && NoDuplicates(order) && forall id | id in graph :: id in order
    ensures Acyclic(graph)
  {
    forall walk ensures !Cycle(graph, walk) {
      if Cycle(graph, walk) {
        assert DependsOn(graph, walk[0], walk[1]);
        var k :| 0 <= k < |order| && order[k] == walk[0];
        ChainDescends(graph, order, walk, k);
      }
    }
  }

  /** The recursive visit of the check, with the two collections it updates. */
  class Visitor {
    const graph: Graph
    var visiting: seq<Id>
    var visited: set<Id>
    ghost var order: seq<Id>  // the tasks of `visited`, in the order they entered it

    ghost predicate Valid()
      reads this
    {
      && Closed(graph)
      && Chain(graph, visiting) && NoDuplicates(visiting)
      && (forall id | id in visiting :: id in graph && id !in visited)
      && Ordered(graph, order) && NoDuplicates(order) && Members(order) == visited
    }

    constructor (graph: Graph)
      requires Closed(graph)
      ensures Valid() && this.graph == graph && visiting == [] && visited == {} && order == []
    {
      this.graph := graph;
      visiting, visited, order := [], {}, [];
    }

    /** `visit`: `None` once the task and everything it depends on is visited, or a cycle. */
    method Visit(taskId: Id) returns (cycle: Option<seq<Id>>)
      requires Valid() && taskId in graph
      requires Chain(graph, visiting + [taskId])
      modifies this
      ensures cycle.None? ==> Valid() && visiting == old(visiting) && taskId in visited
      ensures cycle.None? ==> old(order) <= order
      ensures cycle.Some? ==> Cycle(graph, cycle.value)
      decreases graph.Keys - Members(visiting)
    {
      if taskId in visited {
        return None;
      }
      if taskId in visiting {
        var at :| 0 <= at < |visiting| && visiting[at] == taskId;
        SuffixChain(graph, visiting + [taskId], at);
        assert visiting[at..] + [taskId] == (visiting + [taskId])[at..];
        return Some(visiting[at..] + [taskId]);
      }
      ghost var before := visiting;
      visiting := visiting + [taskId];
      MembersConcat(before, [taskId]);
      assert taskId in graph.Keys - Members(before);
      var dependencies := graph[taskId];
      for k := 0 to |dependencies|
        invariant Valid() && visiting == before + [taskId] && old(order) <= order
        invariant forall j | 0 <= j < k :: dependencies[j] in visited
      {
        assert DependsOn(graph, taskId, dependencies[k]);
        var failed := Visit(dependencies[k]);
        if failed.Some? {
          return failed;
        }
      }
      assert taskId in visiting;
      visiting := visiting[..|visiting| - 1];
      OrderedAppend(graph, order, taskId);
      visited := visited + {taskId};
      order := order + [taskId];
      return None;
    }
  }

  lemma OrderedAppend(graph: Graph, order: seq<Id>, id: Id)
    requires Ordered(graph, order) && NoDuplicates(order) && id !in order
    requires id in graph && forall d | d in graph[id] :: d in order
    ensures Ordered(graph, order + [id]) && NoDuplicates(order + [id])
    ensures Members(order + [id]) == Members(order) + {id}
  {
    var longer := order + [id];
    forall k | 0 <= k < |longer| ensures longer[k] in graph && forall d | d in graph[longer[k]] :: d in longer[..k] {
      assert longer[..k] == order[..k];
      if k == |order| {
        assert order[..k] == order;
      }
    }
  }

  lemma SuffixChain(graph: Graph, walk: seq<Id>, at: nat)
    requires Chain(graph, walk) && at < |walk|
    ensures Chain(graph, walk[at..])
  {
  }

  lemma {:induction false} DependenciesAt(tasks: seq<Task>)
    ensures forall id :: id in Dependencies(tasks) <==> id in Ids(tasks)
    ensures NoDuplicates(Ids(tasks)) ==>
            forall i | 0 <= i < |tasks| :: Dependencies(tasks)[tasks[i].id] == tasks[i].dependsOn
  {
    if tasks != [] {
      var init, last := tasks[..|tasks| - 1], tasks[|tasks| - 1];
      DependenciesAt(init);
      assert Ids(tasks) == Ids(init) + [last.id];
      if NoDuplicates(Ids(tasks)) {
        assert forall i | 0 <= i < |init| :: Ids(tasks)[i] == Ids(init)[i] && Ids(tasks)[i] != last.id;
      }
    }
  }

  lemma WellFormedIsClosed(tasks: seq<Task>)
    requires WellFormed(tasks)
    ensures Closed(Dependencies(tasks))
  {
    var graph := Dependencies(tasks);
    DependenciesAt(tasks);
    forall id, d | id in graph && d in graph[id] ensures d in graph {
      var i :| 0 <= i < |tasks| && Ids(tasks)[i] == id;
      UnknownMembers(tasks[i].dependsOn, Members(Ids(tasks)));
      assert d in tasks[i].dependsOn;
    }
  }

  /** The first loop of the check: unknown and repeated dependencies, task by task. */
  method CheckEach(tasks: seq<Task>, ids: set<Id>) returns (error: Option<PlanError>)
    ensures error.None? <==> forall i | 0 <= i < |tasks| :: LocallySound(tasks[i], ids)
    ensures error.Some? ==> exists i :: FirstFailing(tasks, ids, i) && error.value == LocalError(tasks[i], ids)
  {
    for k := 0 to |tasks|
      invariant forall i | 0 <= i < k :: LocallySound(tasks[i], ids)
    {
      var unknown := Unknown(tasks[k].dependsOn, ids);
      SizeTellsDuplicates(tasks[k].dependsOn);
      if unknown != [] {
        assert FirstFailing(tasks, ids, k);
        return Some(UnknownDependencies(tasks[k].id, unknown));
      }
      if |Members(tasks[k].dependsOn)| != |tasks[k].dependsOn| {
        assert FirstFailing(tasks, ids, k);
        return Some(DuplicateDependencies(tasks[k].id));
      }
    }
    return None;
  }

  ghost predicate FirstFailing(tasks: seq<Task>, ids: set<Id>, i: int) {
    0 <= i < |tasks| && !LocallySound(tasks[i], ids) && forall j | 0 <= j < i :: LocallySound(tasks[j], ids)
  }

  /** An unknown dependency is reported before a repeated one. */
  function LocalError(task: Task, ids: set<Id>): PlanError {
    var unknown := Unknown(task.dependsOn, ids);
    if unknown != [] then UnknownDependencies(task.id, unknown) else DuplicateDependencies(task.id)
  }

  /** The whole check. A plan is accepted exactly when its ids are unique, its dependencies known and
      distinct, and no task depends on itself through others; a reported cycle is one. */
  method CheckPlan(tasks: seq<Task>) returns (error: Option<PlanError>, ghost order: seq<Id>)
    ensures error.None? <==> WellFormed(tasks) && Acyclic(Dependencies(tasks))
    ensures error.None? ==> Ordered(Dependencies(tasks), order) && NoDuplicates(order)
    ensures error.None? ==> Members(order) == Members(Ids(tasks))
    ensures error == Some(DuplicateIds) <==> !NoDuplicates(Ids(tasks))
    ensures error.Some? && error.value.DependencyCycle? ==>
            WellFormed(tasks) && Cycle(Dependencies(tasks), error.value.walk)
    ensures NoDuplicates(Ids(tasks)) && !WellFormed(tasks) ==>
            exists i :: FirstFailing(tasks, Members(Ids(tasks)), i) &&
                        error == Some(LocalError(tasks[i], Members(Ids(tasks))))
  {
    order := [];
    var ids := Members(Ids(tasks));
    SizeTellsDuplicates(Ids(tasks));
    if |ids| != |tasks| {
      return Some(DuplicateIds), [];
    }
    error := CheckEach(tasks, ids);
    if error.Some? {
      return;
    }
    var graph := Dependencies(tasks);
    WellFormedIsClosed(tasks);
    DependenciesAt(tasks);
    var cycle;
    cycle, order := VisitAll(graph, Ids(tasks));
    if cycle.Some? {
      return Some(DependencyCycle(cycle.value)), [];
    }
    OrderedIsAcyclic(graph, order);
    forall id | id in graph ensures id in Members(order) {
      assert id in Ids(tasks);
    }
    assert Members(order) == ids;
    return None, order;
  }

  /** The second loop of the check: visit every task. */
  method VisitAll(graph: Graph, ids: seq<Id>) returns (cycle: Option<seq<Id>>, ghost order: seq<Id>)
    requires Closed(graph) && forall id :: id in graph <==> id in ids
    ensures cycle.Some? ==> Cycle(graph, cycle.value)
    ensures cycle.None? ==> Ordered(graph, order) && NoDuplicates(order)
    ensures cycle.None? ==> forall id :: id in order <==> id in graph
  {
    var visitor := new Visitor(graph);
    for k := 0 to |ids|
      invariant visitor.graph == graph && visitor.Valid() && visitor.visiting == []
      invariant forall i | 0 <= i < k :: ids[i] in visitor.order
    {
      cycle := visitor.Visit(ids[k]);
      if cycle.Some? {
        return cycle, [];
      }
      assert ids[k] in Members(visitor.order);
    }
    return None, visitor.order;
  }
}
