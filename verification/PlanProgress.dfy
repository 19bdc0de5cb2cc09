/** Why an accepted plan cannot stall. */
module PlanProgress {
  import opened Prelude
  import opened TaskGraph
  import opened TaskStore

  /** Queued, and every dependency done. */
  ghost predicate Runnable(graph: Graph, status: Statuses, id: Id) {
    id in graph && id in status && status[id] == Queued && DependenciesDone(graph[id], status)
  }

  ghost predicate IsQueued(status: Statuses, id: Id) {
    id in status && status[id] == Queued
  }

  /** Neither queued nor done (running, failed, under review, rolled back, or not in the store). */
  ghost predicate Stuck(status: Statuses, id: Id) {
    !IsQueued(status, id) && !(id in status && status[id] == Done)
  }

  ghost predicate SomeRunnable(graph: Graph, status: Statuses) {
    exists id :: Runnable(graph, status, id)
  }

  /** Queued tasks exist but none can run: what the loop reports as `dependency_blocked`. */
  ghost predicate Stalled(graph: Graph, status: Statuses) {
    (exists id :: id in graph && IsQueued(status, id)) && !SomeRunnable(graph, status)
  }

  /** A chain of dependencies from `id` through queued tasks to a stuck one. */
  ghost predicate LeadsToStuck(graph: Graph, status: Statuses, walk: seq<Id>) {
    && |walk| >= 2 && Chain(graph, walk)
    && (forall i | 0 <= i < |walk| - 1 :: IsQueued(status, walk[i]))
    && Stuck(status, walk[|walk| - 1])
  }

  ghost predicate WaitsForStuck(graph: Graph, status: Statuses, id: Id) {
    exists walk :: LeadsToStuck(graph, status, walk) && walk[0] == id
  }

  lemma {:induction false} StalledTaskWaits(graph: Graph, order: seq<Id>, status: Statuses, k: nat)
    requires Closed(graph) && Ordered(graph, order)
    requires forall id :: !Runnable(graph, status, id)
    requires k < |order| && IsQueued(status, order[k])
    ensures WaitsForStuck(graph, status, order[k])
    decreases k
  {
    var id := order[k];
    assert !Runnable(graph, status, id);
    var d :| d in graph[id] && !(d in status && status[d] == Done);
    assert DependsOn(graph, id, d);
    if Stuck(status, d) {
      assert LeadsToStuck(graph, status, [id, d]);
    } else {
      var j :| 0 <= j < k && order[j] == d;
      StalledTaskWaits(graph, order, status, j);
      var walk :| LeadsToStuck(graph, status, walk) && walk[0] == d;
      assert LeadsToStuck(graph, status, [id] + walk);
    }
  }

  /** The plan is stalled exactly when every queued task waits, through queued tasks, for one that
      is neither queued nor done. */
  lemma StalledExactlyWhenAllWait(graph: Graph, order: seq<Id>, status: Statuses)
    requires Closed(graph) && Ordered(graph, order) && forall id | id in graph :: id in order
    ensures Stalled(graph, status) <==>
            (exists id :: id in graph && IsQueued(status, id)) &&
            forall id | id in graph && IsQueued(status, id) :: WaitsForStuck(graph, status, id)
  {
    if Stalled(graph, status) {
      forall id | id in graph && IsQueued(status, id) ensures WaitsForStuck(graph, status, id) {
        var k :| 0 <= k < |order| && order[k] == id;
        StalledTaskWaits(graph, order, status, k);
      }
    }
    if forall id | id in graph && IsQueued(status, id) :: WaitsForStuck(graph, status, id) {
      forall id ensures !Runnable(graph, status, id) {
        if id in graph && IsQueued(status, id) {
          var walk :| LeadsToStuck(graph, status, walk) && walk[0] == id;
          assert DependsOn(graph, walk[0], walk[1]);
        }
      }
    }
  }

  /** A queued task of an accepted plan implies a runnable one, unless some task of the plan is
      neither queued nor done: `dependency_blocked` always has such a task behind it. */
  lemma AcceptedPlanProgresses(plan: seq<Task>, order: seq<Id>, status: Statuses, queued: Id)
    requires WellFormed(plan) && Ordered(Dependencies(plan), order) && Members(order) == Members(Ids(plan))
    requires queued in Ids(plan) && IsQueued(status, queued)
    ensures SomeRunnable(Dependencies(plan), status) ||
            (exists id :: id in Ids(plan) && Stuck(status, id))
  {
    var graph := Dependencies(plan);
    WellFormedIsClosed(plan);
    DependenciesAt(plan);
    forall id | id in graph ensures id in order {
      assert id in Members(order);
    }
    if !SomeRunnable(graph, status) {
      assert queued in graph;
      StalledExactlyWhenAllWait(graph, order, status);
      var walk :| LeadsToStuck(graph, status, walk) && walk[0] == queued;
      var n := |walk| - 1;
      assert DependsOn(graph, walk[n - 1], walk[n]);
      var end := walk[n];
      assert end in Ids(plan) && Stuck(status, end);
    }
  }

  /** The queue holds the tasks of the plan, and no others. */
  ghost predicate Carries(specs: seq<Spec>, plan: seq<Task>) {
    && (forall t | t in plan :: CarriesTask(specs, t))
    && forall i | 0 <= i < |specs| :: specs[i].id in Ids(plan)
  }

  ghost predicate CarriesTask(specs: seq<Spec>, t: Task) {
    exists i | 0 <= i < |specs| :: specs[i].id == t.id && specs[i].dependsOn == t.dependsOn
  }

  /** What an accepted plan is known to have: its tasks listed after their dependencies. */
  ghost predicate Accepted(plan: seq<Task>, order: seq<Id>) {
    WellFormed(plan) && Ordered(Dependencies(plan), order) && Members(order) == Members(Ids(plan))
  }

  /** Whatever accepted plan the queue carries, some task of it is neither queued nor done, and each queued
      task waits, through queued tasks, for such a one. */
  ghost predicate SomethingStuck(specs: seq<Spec>, status: Statuses) {
    forall plan, order | Accepted(plan, order) && Carries(specs, plan) :: PlanStuck(plan, status)
  }

  ghost predicate PlanStuck(plan: seq<Task>, status: Statuses) {
    && (exists id :: id in Ids(plan) && Stuck(status, id))
    && forall id | id in Ids(plan) && IsQueued(status, id) :: WaitsForStuck(Dependencies(plan), status, id)
  }

  /** The scheduler's `dependency_blocked`: tasks are queued and none is ready. If the queue carries an
      accepted plan, some task of the plan is neither queued nor done, and all queued ones wait for such. */
  lemma BlockedQueueHasStuckTask(specs: seq<Spec>, status: Statuses)
    requires QueuedIds(status) != {} && NothingReady(specs, status)
    requires forall id | id in status :: exists i :: 0 <= i < |specs| && specs[i].id == id
    ensures SomethingStuck(specs, status)
  {
    forall plan, order | Accepted(plan, order) && Carries(specs, plan) ensures PlanStuck(plan, status) {
      var queued :| queued in QueuedIds(status);
      var i :| 0 <= i < |specs| && specs[i].id == queued;
      AcceptedPlanProgresses(plan, order, status, queued);
      NoneRunnable(specs, plan, status);
      AllWait(plan, order, status, queued);
    }
  }

  lemma AllWait(plan: seq<Task>, order: seq<Id>, status: Statuses, queued: Id)
    requires Accepted(plan, order) && queued in Ids(plan) && IsQueued(status, queued)
    requires !SomeRunnable(Dependencies(plan), status)
    ensures forall id | id in Ids(plan) && IsQueued(status, id) :: WaitsForStuck(Dependencies(plan), status, id)
  {
    var graph := Dependencies(plan);
    WellFormedIsClosed(plan);
    DependenciesAt(plan);
    forall id | id in graph ensures id in order {
      assert id in Members(order);
    }
    assert queued in graph;
    StalledExactlyWhenAllWait(graph, order, status);
  }

  lemma NoneRunnable(specs: seq<Spec>, plan: seq<Task>, status: Statuses)
    requires WellFormed(plan) && Carries(specs, plan) && NothingReady(specs, status)
    ensures !SomeRunnable(Dependencies(plan), status)
  {
    DependenciesAt(plan);
    forall id ensures !Runnable(Dependencies(plan), status, id) {
      if id in Dependencies(plan) {
        var k :| 0 <= k < |plan| && Ids(plan)[k] == id;
        assert plan[k] in plan && CarriesTask(specs, plan[k]);
        var i :| 0 <= i < |specs| && specs[i].id == plan[k].id && specs[i].dependsOn == plan[k].dependsOn;
        assert !Ready(specs[i], status);
      }
    }
  }
}
