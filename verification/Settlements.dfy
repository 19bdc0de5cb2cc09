/** When a claimed task is settled exactly once. */
module Settlements {
  import opened Prelude
  import opened TaskGraph
  import opened TaskStore
  import opened TaskRuns
  import opened Accounts

  /** A claimed task with an outcome is settled exactly once if and only if it is reported as blocked on
      reconciliation just when the ledger has recorded its result. It is settled twice when the ledger
      records it and a failure is recorded on top, and not at all when it is blocked and left running. */
  lemma SettledOnceExactlyWhen(before: Book, after: Book, claimed: seq<Id>, outcomes: seq<Outcome>, escalated: set<Id>, returned: bool, j: nat)
    requires Booked(before, after, claimed, outcomes, escalated, returned) && j < |outcomes|
    ensures var news := News(before, after);
      var found := Reconciliations(news, claimed[j]) == 1;
      && (Times(news, claimed[j]) == 1 <==> (IsBlocked(outcomes[j]) <==> found))
      && (Times(news, claimed[j]) == 2 <==> (!IsBlocked(outcomes[j]) && found))
      && (Times(news, claimed[j]) == 0 <==> (IsBlocked(outcomes[j]) && !found))
      && (Times(news, claimed[j]) == 2 ==> after.status[claimed[j]] == Failed)
  {
    hide Times, Occurs, OwnIds, Due, Reconciliations, Rollbacks, News, Untouched;
    var news, id := News(before, after), claimed[j];
    TimesSplit(news, id);
    DueMembers(claimed, outcomes, j);
    assert ReconciledProperly(before, after, news, id, claimed);
    assert Ended(after, news, id, outcomes[j]);
    if OwnIds(news) != Due(claimed, outcomes) {
      OccursNext(Due(claimed, outcomes), claimed[|outcomes|]);
    }
  }

  /** No operation found before the `i`-th is of the task. */
  ghost predicate FoundFirst(found: seq<Operation>, i: nat, id: Id)
    requires i <= |found|
  {
    forall k | 0 <= k < i :: found[k].id != id
  }

  /** The only operation of the task found before the `i`-th is a commit whose run wants no review. */
  ghost predicate FoundAfterCommit(found: seq<Operation>, i: nat, id: Id)
    requires i <= |found|
  {
    exists j: nat | j < i :: found[j] == TaskCommit(id, false) && forall k | 0 <= k < i && k != j :: found[k].id != id
  }

  /** The `i`-th operation found can be completed in its turn. */
  ghost predicate InOrder(book: Book, found: seq<Operation>, i: nat)
    requires i < |found|
  {
    match found[i]
    case TaskCommit(id, _) => IsRunning(book, id) && FoundFirst(found, i, id)
    case Rollback(id) =>
      (IsDone(book, id) && FoundFirst(found, i, id)) || (IsRunning(book, id) && FoundAfterCommit(found, i, id))
  }

  /** The ledger can complete every operation it finds if and only if each commit is of a running task, the
      first operation found of its task, and each rollback is of a done task, again the first, or of a
      running task of which only a commit without review was found before. */
  lemma {:induction false} ReconcileSucceedsExactlyWhen(book: Book, found: seq<Operation>)
    ensures Reconcile(book, found).ok <==> forall i | 0 <= i < |found| :: InOrder(book, found, i)
    decreases |found|
  {
    if found != [] {
      var rest := found[1..];
      assert InOrder(book, found, 0) <==> found[0].Completes(book);
      if found[0].Completes(book) {
        var next := Completed(book, found[0]);
        ReconcileSucceedsExactlyWhen(next, rest);
        forall i: nat | i < |rest| ensures InOrder(next, rest, i) <==> InOrder(book, found, i + 1) {
          InOrderNext(book, found, i);
        }
        assert (forall i | 0 <= i < |found| :: InOrder(book, found, i)) <==> forall i | 0 <= i < |rest| :: InOrder(next, rest, i) by {
          assert forall i | 0 < i < |found| :: InOrder(book, found, i) <==> InOrder(next, rest, i - 1);
        }
      }
    }
  }

  lemma InOrderNext(book: Book, found: seq<Operation>, i: nat)
    requires i + 1 < |found| && found[0].Completes(book)
    ensures InOrder(Completed(book, found[0]), found[1..], i) <==> InOrder(book, found, i + 1)
  {
    var rest, id := found[1..], found[i + 1].id;
    assert rest[i] == found[i + 1];
    FoundFirstNext(found, i, id);
    FoundAfterCommitNext(found, i, id);
  }

  lemma FoundFirstNext(found: seq<Operation>, i: nat, id: Id)
    requires i + 1 <= |found|
    ensures FoundFirst(found, i + 1, id) <==> found[0].id != id && FoundFirst(found[1..], i, id)
  {
    assert forall k | 0 <= k < i :: found[1..][k] == found[k + 1];
    assert forall k | 0 < k < i + 1 :: found[k] == found[1..][k - 1];
  }

  lemma FoundAfterCommitNext(found: seq<Operation>, i: nat, id: Id)
    requires i + 1 <= |found|
    ensures FoundAfterCommit(found, i + 1, id) <==>
      || (found[0] == TaskCommit(id, false) && FoundFirst(found[1..], i, id))
      || (found[0].id != id && FoundAfterCommit(found[1..], i, id))
  {
    var rest := found[1..];
    assert forall k | 0 <= k < i :: rest[k] == found[k + 1];
    assert forall k | 0 < k < i + 1 :: found[k] == rest[k - 1];
    if FoundAfterCommit(found, i + 1, id) {
      var j: nat :| j < i + 1 && found[j] == TaskCommit(id, false) && forall k | 0 <= k < i + 1 && k != j :: found[k].id != id;
      if j > 0 {
        assert rest[j - 1] == TaskCommit(id, false);
      }
    }
    if found[0].id != id && FoundAfterCommit(rest, i, id) {
      var j: nat :| j < i && rest[j] == TaskCommit(id, false) && forall k | 0 <= k < i && k != j :: rest[k].id != id;
      assert found[j + 1] == TaskCommit(id, false);
    }
  }

  /** The turn comes to the `except Exception` branch, and the ledger is asked. */
  predicate AsksLedger(book: Book, attempt: Attempt, batched: bool) {
    if attempt.run.PreparationRaised? then !batched
    else !Reconcile(book, attempt.guard.found).ok || attempt.guard.unresolved || attempt.run.ExecutionRaised?
  }

  /** The ledger finds a commit of the task. */
  predicate Finds(found: seq<Operation>, id: Id) {
    exists i | 0 <= i < |found| :: found[i].TaskCommit? && found[i].id == id
  }

  lemma FindsNext(found: seq<Operation>, id: Id)
    requires found != []
    ensures Finds(found, id) <==> (found[0].TaskCommit? && found[0].id == id) || Finds(found[1..], id)
  {
    var rest := found[1..];
    assert forall i | 0 <= i < |rest| :: rest[i] == found[i + 1];
    if i :| 0 <= i < |found| && found[i].TaskCommit? && found[i].id == id {
      assert i > 0 ==> rest[i - 1] == found[i];
    }
  }

  lemma FoundIsRunning(book: Book, found: seq<Operation>, id: Id)
    ensures Reconcile(book, found).ok && Finds(found, id) ==> IsRunning(book, id)
  {
    ReconcileSucceedsExactlyWhen(book, found);
    if i: nat :| i < |found| && found[i].TaskCommit? && found[i].id == id {
      assert InOrder(book, found, i) ==> IsRunning(book, id);
    }
  }

  /** How many results a reconciliation that does not raise records for the task. */
  lemma {:induction false} ReconciledWhenFound(book: Book, found: seq<Operation>, id: Id)
    requires Reconcile(book, found).ok
    ensures book.settled <= Reconcile(book, found).book.settled
    ensures Reconciliations(News(book, Reconcile(book, found).book), id) == if Finds(found, id) then 1 else 0
    decreases |found|
  {
    ReconcileOnlyReconciles(book, found);
    if found == [] {
      assert News(book, book) == [];
    } else {
      var next, rest := Completed(book, found[0]), found[1..];
      OneCompleted(book, found[0]);
      ReconciledWhenFound(next, rest, id);
      ReconcileOnlyReconciles(next, rest);
      NewsInARow(book, next, Reconcile(next, rest).book);
      CountsOfOne(found[0].Entry());
      FindsNext(found, id);
      FoundIsRunning(next, rest, id);
    }
  }

  lemma {:induction false} NeverFound(book: Book, found: seq<Operation>, id: Id)
    requires !Finds(found, id)
    ensures book.settled <= Reconcile(book, found).book.settled
    ensures Reconciliations(News(book, Reconcile(book, found).book), id) == 0
    decreases |found|
  {
    ReconcileOnlyReconciles(book, found);
    assert News(book, book) == [];
    if found != [] && found[0].Completes(book) {
      var next, rest := Completed(book, found[0]), found[1..];
      FindsNext(found, id);
      OneCompleted(book, found[0]);
      NeverFound(next, rest, id);
      ReconcileOnlyReconciles(next, rest);
      NewsInARow(book, next, Reconcile(next, rest).book);
      CountsOfOne(found[0].Entry());
    }
  }

  /** A claimed task's turn settles it exactly once if and only if, should the ledger be asked, the ledger
      leaves something unresolved just when it has recorded the task's own result. (Before the turn
      begins the ledger has no operation of the task, so the guard cannot find its commit.) */
  lemma TurnSettlesOnceExactlyWhen(book: Book, id: Id, attempt: Attempt, threeHead: bool, batched: bool)
    requires IsRunning(book, id) && !Finds(attempt.guard.found, id)
    requires TaskTurn(book, id, attempt, threeHead, batched).outcome.Some?
    ensures var turn := TaskTurn(book, id, attempt, threeHead, batched);
      && book.settled <= turn.book.settled
      && (Times(News(book, turn.book), id) == 1 <==>
            (AsksLedger(book, attempt, batched) ==> (attempt.after.unresolved <==> Finds(attempt.after.found, id))))
  {
    OwnOnce(book, id, attempt, threeHead, batched);
    if AsksLedger(book, attempt, batched) {
      var b := if attempt.run.PreparationRaised? then book else Reconcile(book, attempt.guard.found).book;
      GuardFindsNothing(book, id, attempt);
      assert TaskTurn(book, id, attempt, threeHead, batched) == AfterException(b, id, attempt.after);
      hide *;
      AskedOnce(book, b, id, attempt.after);
    } else {
      hide *;
      RestAddsNothing(book, id, attempt, threeHead, batched);
    }
  }

  lemma OwnOnce(book: Book, id: Id, attempt: Attempt, threeHead: bool, batched: bool)
    requires IsRunning(book, id) && TaskTurn(book, id, attempt, threeHead, batched).outcome.Some?
    ensures var turn := TaskTurn(book, id, attempt, threeHead, batched);
      && book.settled <= turn.book.settled
      && Times(News(book, turn.book), id)
           == (if IsBlocked(turn.outcome.value) then 0 else 1) + Reconciliations(News(book, turn.book), id)
  {
    hide TaskTurn, Reconciliations, Rollbacks, News, OwnIds, Times;
    TurnShape(book, id, attempt, threeHead, batched);
    TimesSplit(News(book, TaskTurn(book, id, attempt, threeHead, batched).book), id);
    OccursNext([], id);
    assert [] + [id] == [id];
  }

  lemma GuardFindsNothing(book: Book, id: Id, attempt: Attempt)
    requires !Finds(attempt.guard.found, id)
    ensures OnlyReconciled(book, Reconcile(book, attempt.guard.found).book) && OnlyReconciled(book, book)
    ensures Reconciliations(News(book, Reconcile(book, attempt.guard.found).book), id) == 0
    ensures Reconciliations(News(book, book), id) == 0
  {
    NeverFound(book, attempt.guard.found, id);
    ReconcileOnlyReconciles(book, attempt.guard.found);
    NothingNew(book);
    assert News(book, book) == [];
  }

  lemma AskedOnce(a: Book, b: Book, id: Id, report: Report)
    requires OnlyReconciled(a, b) && Reconciliations(News(a, b), id) == 0 && id in a.status
    requires AfterException(b, id, report).outcome.Some?
    ensures var turn := AfterException(b, id, report);
      && a.settled <= turn.book.settled
      && Reconciliations(News(a, turn.book), id) == (if Finds(report.found, id) then 1 else 0)
      && (IsBlocked(turn.outcome.value) <==> report.unresolved)
  {
    var c, turn := Reconcile(b, report.found).book, AfterException(b, id, report);
    ReconcileOnlyReconciles(b, report.found);
    ReconciledWhenFound(b, report.found, id);
    OnlyReconciledInARow(a, b, c);
    NewsInARow(a, b, c);
    if !report.unresolved {
      OwnAfter(a, c, turn.book, id, FailureRecorded(id));
    }
  }

  lemma RestAddsNothing(book: Book, id: Id, attempt: Attempt, threeHead: bool, batched: bool)
    requires IsRunning(book, id) && !Finds(attempt.guard.found, id) && !AsksLedger(book, attempt, batched)
    requires TaskTurn(book, id, attempt, threeHead, batched).outcome.Some?
    ensures var turn := TaskTurn(book, id, attempt, threeHead, batched);
      && book.settled <= turn.book.settled
      && Reconciliations(News(book, turn.book), id) == 0 && !IsBlocked(turn.outcome.value)
  {
    var turn := TaskTurn(book, id, attempt, threeHead, batched);
    GuardFindsNothing(book, id, attempt);
    if attempt.run.PreparationRaised? {
      OwnAfter(book, book, turn.book, id, FailureRecorded(id));
    } else {
      var b := Reconcile(book, attempt.guard.found).book;
      var how := if attempt.run.LeaseContended? then Requeued(id) else ResultRecorded(id, attempt.run.ok);
      OwnAfter(book, b, turn.book, id, how);
    }
  }

  /** The double settlement is real: the commit is made, what follows it raises, the ledger finds the
      commit and records the result, and then the failure is recorded. The task ends as failed although
      its commit stands. */
  lemma CommittedTaskFails(book: Book, id: Id, threeHead: bool, batched: bool)
    requires IsRunning(book, id)
    ensures var report := Report([TaskCommit(id, threeHead)], false);
      var turn := TaskTurn(book, id, Attempt(Report([], false), ExecutionRaised, report), threeHead, batched);
      && turn.outcome == Some(RaisedOutcome(Some(id), None, TaskIn(Failed)))
      && turn.book.settled == book.settled + [Reconciled(id), FailureRecorded(id)]
      && turn.book.status == book.status[id := Failed]
  {
    var found := [TaskCommit(id, threeHead)];
    assert found[1..] == [];
    var next := Completed(book, TaskCommit(id, threeHead));
    assert Reconcile(next, []) == Tried(next, true);
    assert Reconcile(book, found) == Tried(next, true);
    assert next.settled + [FailureRecorded(id)] == book.settled + [Reconciled(id), FailureRecorded(id)];
  }

  /** A task that was requeued on contention after its commit was made makes every later reconciliation
      raise, for the ledger can record a result only for a running task. */
  lemma RequeuedCommitStopsTheQueue(book: Book, id: Id, attempt: Attempt, threeHead: bool, batched: bool, report: Report)
    requires IsRunning(book, id) && attempt.run.LeaseContended?
    requires TaskTurn(book, id, attempt, threeHead, batched).outcome == Some(RaisedOutcome(Some(id), None, ClaimContended))
    requires Finds(report.found, id)
    ensures !Reconcile(TaskTurn(book, id, attempt, threeHead, batched).book, report.found).ok
  {
    TurnShape(book, id, attempt, threeHead, batched);
    FoundIsRunning(TaskTurn(book, id, attempt, threeHead, batched).book, report.found, id);
  }
}
