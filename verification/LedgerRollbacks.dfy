/** What a rollback that the ledger completes does to a run and to the tasks that wait for the rolled-back one. */
module LedgerRollbacks {
  import opened Prelude
  import opened TaskGraph
  import opened TaskStore
  import opened TaskRuns
  import opened Accounts
  import opened PlanProgress
  import opened RunLoop

  /** The queue after a reconciliation that found the rollback of the task. */
  function AfterRollback(book: Book, id: Id): Book {
    Reconcile(book, [Rollback(id)]).book
  }

  /** A rollback whose commit stands and whose record is missing is completed by the next reconciliation: the
      done task is rolled back, nothing is claimed and nothing is settled. */
  lemma RollbackIsCompleted(book: Book, id: Id)
    requires IsDone(book, id)
    ensures Reconcile(book, [Rollback(id)]).ok
    ensures AfterRollback(book, id) == Book(book.status[id := RolledBack], book.settled + [RollbackCompleted(id)])
    ensures RunBooked(book, AfterRollback(book, id), [], [], {}, true, [])
    ensures forall x :: Times(News(book, AfterRollback(book, id)), x) == 0
  {
    var found := [Rollback(id)];
    var next := Completed(book, found[0]);
    assert found[1..] == [];
    assert Reconcile(next, []) == Tried(next, true);
    assert Reconcile(book, found) == Tried(next, true);
    OneCompleted(book, found[0]);
    ReconciledBooked(book, next, true);
    CountsOfOne(RollbackCompleted(id));
  }

  /** That takes the direct dependents of the task, and no others, from the tasks that could run. The plan is
      stalled by it if and only if tasks are queued and every one that could run depends on the task. */
  lemma RollbackStallsExactlyWhen(graph: Graph, book: Book, id: Id)
    requires IsDone(book, id)
    ensures var status := AfterRollback(book, id).status;
      && Stuck(status, id)
      && (forall x :: Runnable(graph, status, x) <==> Runnable(graph, book.status, x) && id !in graph[x])
      && (Stalled(graph, status) <==>
            && (exists x :: x in graph && IsQueued(book.status, x))
            && forall x | Runnable(graph, book.status, x) :: id in graph[x])
  {
    RollbackIsCompleted(book, id);
    var status := AfterRollback(book, id).status;
    hide AfterRollback;
    forall x ensures IsQueued(status, x) <==> IsQueued(book.status, x) {
    }
    forall x ensures Runnable(graph, status, x) <==> Runnable(graph, book.status, x) && id !in graph[x] {
      assert x in graph && DependenciesDone(graph[x], book.status) && id !in graph[x] ==> DependenciesDone(graph[x], status);
    }
  }

  /** Every queued task with a chain of queued tasks down to the rolled-back one now waits for a stuck task. */
  lemma RollbackStrands(graph: Graph, book: Book, id: Id, walk: seq<Id>)
    requires IsDone(book, id) && |walk| >= 2 && Chain(graph, walk) && walk[|walk| - 1] == id
    requires forall i | 0 <= i < |walk| - 1 :: IsQueued(book.status, walk[i])
    ensures WaitsForStuck(graph, AfterRollback(book, id).status, walk[0])
  {
    RollbackIsCompleted(book, id);
    assert LeadsToStuck(graph, AfterRollback(book, id).status, walk);
  }

  /** Over a whole run: a task whose rollback the ledger completed ends as rolled back, or as failed if it was
      claimed in the run; the run is not handed off, and what is still queued and depends on the task waits
      for a stuck one. */
  lemma RolledBackRunIsNotHandedOff(graph: Graph, begin: Book, end: Book, claims: seq<Id>, ran: seq<Outcome>, escalated: set<Id>,
                                    returned: bool, all: seq<Outcome>, id: Id)
    requires RunBooked(begin, end, claims, ran, escalated, returned, all) && Rollbacks(News(begin, end), id) > 0
    ensures id in end.status && end.status[id] in (if id in claims then {RolledBack, Failed} else {RolledBack})
    ensures forall around :: FinalHandoff(end.status, around) != Handed
    ensures forall x | IsQueued(end.status, x) && DependsOn(graph, x, id) :: WaitsForStuck(graph, end.status, x)
  {
    hide Rollbacks, Reconciliations, News, OwnIds, OwnSettled, Ended, FinalHandoff;
    assert ReconciledProperly(begin, end, News(begin, end), id, claims);
    if id !in claims {
      assert Untouched(begin, end, News(begin, end), id, escalated);
    }
    forall around ensures FinalHandoff(end.status, around) != Handed {
      UndoneBlocksHandoff(end.status, around, id);
    }
    forall x | IsQueued(end.status, x) && DependsOn(graph, x, id) ensures WaitsForStuck(graph, end.status, x) {
      assert LeadsToStuck(graph, end.status, [x, id]);
    }
  }
}
