/** In which status a turn leaves its task when it records the worker's result, and what it returns then. */
module TurnResults {
  import opened Prelude
  import opened TaskGraph
  import opened TaskStore
  import opened TaskRuns
  import opened Accounts

  /** The critic came to this decision and it was applied. */
  predicate CriticSaid(run: WorkerRun, verdict: Verdict)
    requires run.Finished?
  {
    run.closed && (run.review == Criticised(verdict) || run.review == ResolvedThenRaised(verdict))
  }

  /** The turn adds the worker's result to the settlements. */
  ghost predicate Records(before: Book, after: Book, id: Id, ok: bool) {
    before.settled <= after.settled && ResultRecorded(id, ok) in News(before, after)
  }

  /** The status of the task after its worker's result, decided by the worker, the need for a review, whether the
      operation could be closed, and the critic. */
  ghost predicate LeftIn(status: Status, run: WorkerRun, threeHead: bool)
    requires run.Finished?
  {
    var reviewed := run.ok && threeHead;
    && (status == Done <==> run.ok && (!threeHead || CriticSaid(run, Approve)))
    && (status == ReworkRequired <==> reviewed && CriticSaid(run, Reject))
    && (status == Escalated <==> reviewed && CriticSaid(run, Escalate))
    && (status == ReviewPending <==> reviewed && (!run.closed || run.review.AwaitsCritic? || run.review == SetupRaised(true)))
    && (status == Failed <==> !run.ok || (threeHead && run.closed && run.review == SetupRaised(false)))
  }

  /** The dictionary returned with it. */
  ghost predicate Returns(outcome: Option<Outcome>, id: Id, run: WorkerRun, threeHead: bool, status: Status)
    requires run.Finished?
  {
    var reviewed := run.ok && threeHead;
    && (outcome.None? <==> !run.closed || (reviewed && run.review.ResolvedThenRaised?))
    && (outcome.Some? ==>
          && outcome.value.task == Some(id) && outcome.value.result == Some(run.ok)
          && outcome.value.lifecycle == TaskIn(status)
          && (outcome.value.raised <==> reviewed && run.review.SetupRaised?)
          && (outcome.value.bundle <==> reviewed && (run.review.AwaitsCritic? || run.review.Criticised?))
          && outcome.value.critic == (if reviewed && run.review.Criticised? then Some(status) else None)
          && (outcome.value.Continues() <==> status == Done)
          && (outcome.value.Blocked() <==> !run.ok || (reviewed && run.review.SetupRaised?)))
  }

  lemma NoResultReconciled(a: Book, found: seq<Operation>)
    ensures a.settled <= Reconcile(a, found).book.settled
    ensures forall s | s in News(a, Reconcile(a, found).book) :: s.ByLedger()
  {
    ReconcileOnlyReconciles(a, found);
    assert OwnIds(News(a, Reconcile(a, found).book)) == [];
    hide *;
    LedgerOnly(News(a, Reconcile(a, found).book));
  }

  lemma {:induction false} LedgerOnly(settled: seq<Settlement>)
    requires OwnIds(settled) == []
    ensures forall s | s in settled :: s.ByLedger()
  {
    if settled != [] {
      LedgerOnly(settled[..|settled| - 1]);
      assert settled == settled[..|settled| - 1] + [settled[|settled| - 1]];
    }
  }

  /** A turn records its worker's result if and only if the worker finished, the reconciliation before the patch
      left nothing unresolved and did not raise, and the task is still running. The task is then left in the
      status that worker and critic call for, and the scheduler returns what tells so. */
  lemma ResultDecidesStatus(book: Book, id: Id, attempt: Attempt, threeHead: bool, batched: bool)
    requires id in book.status && attempt.run.Finished?
    ensures var turn, guarded := TaskTurn(book, id, attempt, threeHead, batched), Reconcile(book, attempt.guard.found);
      && (Records(book, turn.book, id, attempt.run.ok) <==>
            guarded.ok && !attempt.guard.unresolved && IsRunning(guarded.book, id))
      && (Records(book, turn.book, id, attempt.run.ok) ==>
            && id in turn.book.status && LeftIn(turn.book.status[id], attempt.run, threeHead)
            && Returns(turn.outcome, id, attempt.run, threeHead, turn.book.status[id]))
  {
    var turn, guarded := TaskTurn(book, id, attempt, threeHead, batched), Reconcile(book, attempt.guard.found);
    NoResultReconciled(book, attempt.guard.found);
    if !guarded.ok || attempt.guard.unresolved {
      NoResultAfterException(book, guarded.book, id, attempt.after, attempt.run.ok);
      assert turn == AfterException(guarded.book, id, attempt.after);
    } else if !IsRunning(guarded.book, id) {
      assert turn.book == guarded.book;
      assert !ResultRecorded(id, attempt.run.ok).ByLedger();
    } else {
      assert turn == AfterResult(guarded.book, id, attempt.run, threeHead);
      hide Reconcile;
      ResultLeaves(guarded.book, id, attempt.run, threeHead);
      assert turn.book.settled == guarded.book.settled + [ResultRecorded(id, attempt.run.ok)];
      assert ResultRecorded(id, attempt.run.ok) == News(book, turn.book)[|News(book, turn.book)| - 1];
    }
  }

  lemma NoResultAfterException(a: Book, b: Book, id: Id, report: Report, ok: bool)
    requires a.settled <= b.settled && forall s | s in News(a, b) :: s.ByLedger()
    ensures !Records(a, AfterException(b, id, report).book, id, ok)
  {
    var c := Reconcile(b, report.found).book;
    NoResultReconciled(b, report.found);
    assert News(a, c) == News(a, b) + News(b, c);
    var end := AfterException(b, id, report).book;
    assert end.settled == c.settled || end.settled == c.settled + [FailureRecorded(id)];
    assert News(a, end) == News(a, c) || News(a, end) == News(a, c) + [FailureRecorded(id)];
    assert !ResultRecorded(id, ok).ByLedger();
  }

  lemma ResultLeaves(book: Book, id: Id, run: WorkerRun, threeHead: bool)
    requires IsRunning(book, id) && run.Finished?
    ensures var turn := AfterResult(book, id, run, threeHead);
      && id in turn.book.status && LeftIn(turn.book.status[id], run, threeHead)
      && Returns(turn.outcome, id, run, threeHead, turn.book.status[id])
      && turn.book.settled == book.settled + [ResultRecorded(id, run.ok)]
  {
  }

  /** A result that the ledger records puts its task under review if and only if its run wants that; otherwise
      the task is done, unless the same reconciliation completes a rollback of it. */
  lemma {:induction false} LedgerResultDecidesStatus(book: Book, found: seq<Operation>, id: Id, review: bool)
    requires Reconcile(book, found).ok && TaskCommit(id, review) in found
    ensures var after := Reconcile(book, found).book;
      && id in after.status
      && after.status[id] == if review then ReviewPending else if Rollback(id) in found then RolledBack else Done
    decreases |found|
  {
    var op, rest := found[0], found[1..];
    assert found == [op] + rest;
    var next := Completed(book, op);
    if op.id == id {
      StaysEnded(next, rest, id);
    } else {
      LedgerResultDecidesStatus(next, rest, id, review);
    }
  }

  /** What the ledger makes of a task that does not run: nothing, or it rolls back a done one. */
  lemma {:induction false} StaysEnded(book: Book, found: seq<Operation>, id: Id)
    requires Reconcile(book, found).ok && id in book.status && book.status[id] != Running
    ensures forall review :: TaskCommit(id, review) !in found
    ensures id in Reconcile(book, found).book.status
    ensures Reconcile(book, found).book.status[id] == if Rollback(id) in found then RolledBack else book.status[id]
    ensures Rollback(id) in found ==> book.status[id] == Done
    decreases |found|
  {
    if found != [] {
      assert found == [found[0]] + found[1..];
      StaysEnded(Completed(book, found[0]), found[1..], id);
    }
  }
}
