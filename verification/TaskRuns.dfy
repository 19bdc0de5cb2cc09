// One claimed task: what its worker, its review and the ledger of canonical operations do, and how it is
// settled. src/llm_harness/cli.py:4031-4198 and 4309-4388, src/llm_harness/operations.py:241-303,
// src/llm_harness/state.py:423-481 and 646-664.

module TaskRuns {
  import opened Prelude
  import opened TaskGraph
  import opened TaskStore

  /** A critic's decision and the status it puts the task in. */
  datatype Verdict = Approve | Reject | Escalate {
    function TaskStatus(): Status {
      match this
      case Approve => Done
      case Reject => ReworkRequired
      case Escalate => Escalated
    }
  }

  /** Review of a successful run, when three-head review is required. */
  datatype Review =
    | SetupRaised(attached: bool)  // an exception, before or after the bundle was attached
    | AwaitsCritic
    | Criticised(verdict: Verdict)
    | ResolvedThenRaised(verdict: Verdict)  // the decision was applied, and recording it raised

  /** An operation that the ledger finds committed but not in the store: a task without a recorded result,
      and whether its run wants review, or the rollback of a task. */
  datatype Operation =
    | TaskCommit(id: Id, review: bool)
    | Rollback(id: Id)
  {
    function Entry(): Settlement {
      match this
      case TaskCommit(id, _) => Reconciled(id)
      case Rollback(id) => RollbackCompleted(id)
    }

    /** The status it puts its task in. */
    function Leaves(): Status {
      match this
      case TaskCommit(_, review) => ResultStatus(true, review)
      case Rollback(_) => RolledBack
    }

    /** The store lets it be completed. */
    predicate Completes(book: Book) {
      if TaskCommit? then IsRunning(book, id) else IsDone(book, id)
    }
  }

  /** One reconciliation of the ledger: the operations it completes, in order, and whether some operation
      is left unresolved. */
  datatype Report = Report(found: seq<Operation>, unresolved: bool)

  /** What running one claimed task comes to. `closed`: the operation of a recorded result could be
      ended in the ledger. */
  datatype WorkerRun =
    | PreparationRaised
    | LeaseContended
    | ExecutionRaised
    | Finished(ok: bool, closed: bool, review: Review)

  /** `guard` is the reconciliation before a patch is applied, `after` the one after an exception. */
  datatype Attempt = Attempt(guard: Report, run: WorkerRun, after: Report)

  datatype Lifecycle =
    | NothingQueued | WaitingForDependencies | ClaimContended | ReconciliationBlocked | AttemptLimit
    | TaskIn(status: Status)

  /** The dictionary each run returns; `result` is the `ok` flag of the worker result. */
  datatype Outcome = Outcome(
    empty: bool, dependencyBlocked: bool, task: Option<Id>, result: Option<bool>, raised: bool,
    bundle: bool, critic: Option<Status>, lifecycle: Lifecycle)
  {
    /** The outcome is about a task or a failure to claim one. */
    predicate IsRun() {
      !empty && !dependencyBlocked && (!raised ==> result.Some?)
    }

    predicate Blocked() {
      raised || result == Some(false)
    }

    /** The loop goes on after it: a plain success, or one its critic accepted. */
    predicate Continues() {
      IsRun() && !Blocked() && (if critic.Some? then critic.value == Done else !bundle)
    }
  }

  function RaisedOutcome(task: Option<Id>, result: Option<bool>, lifecycle: Lifecycle): Outcome {
    Outcome(false, false, task, result, true, false, None, lifecycle)
  }

  /** The status in which a recorded result and its review leave the task. */
  function FinalStatus(ok: bool, review: Review, threeHead: bool): Status {
    if !ok then Failed
    else if !threeHead then Done
    else match review
      case SetupRaised(attached) => if attached then ReviewPending else Failed
      case AwaitsCritic => ReviewPending
      case Criticised(verdict) => verdict.TaskStatus()
      case ResolvedThenRaised(verdict) => verdict.TaskStatus()
  }

  /** The outcome of a recorded result, or None where an exception leaves the scheduler: a task whose review
      is resolved cannot be failed for its review any more. */
  function ResultOutcome(id: Id, ok: bool, review: Review, threeHead: bool): Option<Outcome> {
    var lifecycle := TaskIn(FinalStatus(ok, review, threeHead));
    if !ok || !threeHead then Some(Outcome(false, false, Some(id), Some(ok), false, false, None, lifecycle))
    else match review
      case SetupRaised(_) => Some(RaisedOutcome(Some(id), Some(true), lifecycle))
      case AwaitsCritic => Some(Outcome(false, false, Some(id), Some(true), false, true, None, lifecycle))
      case Criticised(verdict) =>
        Some(Outcome(false, false, Some(id), Some(true), false, true, Some(verdict.TaskStatus()), lifecycle))
      case ResolvedThenRaised(_) => None
  }

  function ResultStatus(ok: bool, threeHead: bool): Status {
    if !ok then Failed else if threeHead then ReviewPending else Done
  }

  // ----- the ledger -----

  datatype Tried = Tried(book: Book, ok: bool)

  /** The book with the operation completed. */
  function Completed(book: Book, op: Operation): Book {
    Recorded(book, op.Entry(), op.Leaves())
  }

  /** A reconciliation completes its operations one after the other, and raises at the first result of a
      task that is not running and at the first rollback of a task that is not done. */
  function Reconcile(book: Book, found: seq<Operation>): Tried
    decreases |found|
  {
    if found == [] then Tried(book, true)
    else if found[0].Completes(book) then Reconcile(Completed(book, found[0]), found[1..])
    else Tried(book, false)
  }

  method ReconcileLedger(store: Store, found: seq<Operation>) returns (ok: bool)
    requires store.Valid()
    modifies store`status, store`settled
    ensures store.Valid() && Tried(store.Contents(), ok) == Reconcile(old(store.Contents()), found)
  {
    for k := 0 to |found|
      invariant store.Valid()
      invariant Reconcile(old(store.Contents()), found) == Reconcile(store.Contents(), found[k..])
    {
      assert found[k..][1..] == found[k + 1..];
      match found[k] {
        case TaskCommit(id, review) => ok := store.Settle(Reconciled(id), ResultStatus(true, review));
        case Rollback(id) => ok := store.CompleteRollback(id);
      }
      if !ok {
        return;
      }
    }
    return true;
  }

  // ----- one task -----

  /** The book after a task's turn and its outcome, or None where an exception leaves the scheduler. */
  datatype Turn = Turn(book: Book, outcome: Option<Outcome>)

  /** The ledger is asked; unless it is left unresolved, the failure is recorded, whatever the ledger
      has just recorded for the same task. */
  function AfterException(book: Book, id: Id, report: Report): Turn {
    var tried := Reconcile(book, report.found);
    if !tried.ok then Turn(tried.book, None)
    else if report.unresolved then Turn(tried.book, Some(RaisedOutcome(Some(id), None, ReconciliationBlocked)))
    else AfterFailure(tried.book, id)
  }

  function AfterFailure(book: Book, id: Id): Turn {
    Turn(Recorded(book, FailureRecorded(id), Failed), Some(RaisedOutcome(Some(id), None, TaskIn(Failed))))
  }

  /** The task goes back to the queue. */
  function AfterContention(book: Book, id: Id): Turn {
    if !IsRunning(book, id) then Turn(book, None)
    else Turn(Recorded(book, Requeued(id), Queued), Some(RaisedOutcome(Some(id), None, ClaimContended)))
  }

  /** `_record_worker_result` */
  function AfterResult(book: Book, id: Id, run: WorkerRun, threeHead: bool): Turn
    requires run.Finished?
  {
    if !IsRunning(book, id) then Turn(book, None)
    else
      var recorded := Recorded(book, ResultRecorded(id, run.ok), ResultStatus(run.ok, threeHead));
      if !run.closed then Turn(recorded, None)
      else
        Turn(recorded.(status := recorded.status[id := FinalStatus(run.ok, run.review, threeHead)]),
             ResultOutcome(id, run.ok, run.review, threeHead))
  }

  /** In a batch an exception while preparing is a failure outright; elsewhere the ledger is asked. */
  function TaskTurn(book: Book, id: Id, attempt: Attempt, threeHead: bool, batched: bool): Turn {
    if attempt.run.PreparationRaised? then
      if batched then AfterFailure(book, id) else AfterException(book, id, attempt.after)
    else
      var guarded := Reconcile(book, attempt.guard.found);
      if !guarded.ok || attempt.guard.unresolved then AfterException(guarded.book, id, attempt.after)
      else if attempt.run.LeaseContended? then AfterContention(guarded.book, id)
      else if attempt.run.Finished? then AfterResult(guarded.book, id, attempt.run, threeHead)
      else AfterException(guarded.book, id, attempt.after)
  }

  /** The `except Exception` branch. */
  method HandleException(store: Store, id: Id, report: Report) returns (outcome: Option<Outcome>)
    requires store.Valid() && id in store.status
    modifies store`status, store`settled
    ensures store.Valid() && Turn(store.Contents(), outcome) == AfterException(old(store.Contents()), id, report)
  {
    ReconcileKeepsTasks(store.Contents(), report.found);
    var ok := ReconcileLedger(store, report.found);
    if !ok {
      return None;
    }
    if report.unresolved {
      return Some(RaisedOutcome(Some(id), None, ReconciliationBlocked));
    }
    store.RecordFailure(id);
    return Some(RaisedOutcome(Some(id), None, TaskIn(Failed)));
  }

  method RecordWorkerResult(store: Store, id: Id, run: WorkerRun, threeHead: bool) returns (outcome: Option<Outcome>)
    requires store.Valid() && run.Finished?
    modifies store`status, store`settled
    ensures store.Valid() && Turn(store.Contents(), outcome) == AfterResult(old(store.Contents()), id, run, threeHead)
  {
    var settles := store.Settle(ResultRecorded(id, run.ok), ResultStatus(run.ok, threeHead));
    if !settles || !run.closed {
      return None;
    }
    store.Review(id, FinalStatus(run.ok, run.review, threeHead));
    outcome := ResultOutcome(id, run.ok, run.review, threeHead);
  }

  /** Runs one claimed task and settles it. */
  method RunTask(store: Store, id: Id, attempt: Attempt, threeHead: bool, batched: bool) returns (outcome: Option<Outcome>)
    requires store.Valid() && id in store.status
    modifies store`status, store`settled
    ensures store.Valid()
    ensures Turn(store.Contents(), outcome) == TaskTurn(old(store.Contents()), id, attempt, threeHead, batched)
  {
    hide AfterException, AfterResult;
    if attempt.run.PreparationRaised? {
      if batched {
        store.RecordFailure(id);
        return Some(RaisedOutcome(Some(id), None, TaskIn(Failed)));
      }
      outcome := HandleException(store, id, attempt.after);
      return;
    }
    ReconcileKeepsTasks(store.Contents(), attempt.guard.found);
    var ok := ReconcileLedger(store, attempt.guard.found);
    if !ok || attempt.guard.unresolved {
      outcome := HandleException(store, id, attempt.after);
      return;
    }
    if attempt.run.LeaseContended? {
      var settles := store.Settle(Requeued(id), Queued);
      outcome := if settles then Some(RaisedOutcome(Some(id), None, ClaimContended)) else None;
    } else if attempt.run.Finished? {
      outcome := RecordWorkerResult(store, id, attempt.run, threeHead);
    } else {
      outcome := HandleException(store, id, attempt.after);
    }
  }

  lemma {:induction false} ReconcileKeepsTasks(book: Book, found: seq<Operation>)
    ensures Reconcile(book, found).book.status.Keys == book.status.Keys
    decreases |found|
  {
    if found != [] && found[0].Completes(book) {
      ReconcileKeepsTasks(Completed(book, found[0]), found[1..]);
    }
  }
}

/** What the settlements in the store say about the tasks that were claimed. */
module Accounts {
  import opened Prelude
  import opened TaskGraph
  import opened TaskStore
  import opened TaskRuns

  /** The tasks the scheduler itself settled, in order. */
  function OwnIds(settled: seq<Settlement>): seq<Id> {
    if settled == [] then []
    else
      var last := settled[|settled| - 1];
      OwnIds(settled[..|settled| - 1]) + if last.ByLedger() then [] else [last.id]
  }

  /** How often the ledger recorded a result for the task. */
  function Reconciliations(settled: seq<Settlement>, id: Id): nat {
    if settled == [] then 0
    else Reconciliations(settled[..|settled| - 1], id) + if settled[|settled| - 1] == Reconciled(id) then 1 else 0
  }

  /** How often the ledger completed a rollback of the task. */
  function Rollbacks(settled: seq<Settlement>, id: Id): nat {
    if settled == [] then 0
    else Rollbacks(settled[..|settled| - 1], id) + if settled[|settled| - 1] == RollbackCompleted(id) then 1 else 0
  }

  /** How often the task was settled. */
  function Times(settled: seq<Settlement>, id: Id): nat {
    if settled == [] then 0
    else
      var last := settled[|settled| - 1];
      Times(settled[..|settled| - 1], id) + if last.id == id && !last.RollbackCompleted? then 1 else 0
  }

  function Occurs(ids: seq<Id>, id: Id): nat {
    if ids == [] then 0 else Occurs(ids[..|ids| - 1], id) + if ids[|ids| - 1] == id then 1 else 0
  }

  predicate IsBlocked(o: Outcome) {
    o.lifecycle == ReconciliationBlocked
  }

  /** The claimed tasks that are not reported as blocked on reconciliation. */
  function Due(claimed: seq<Id>, outcomes: seq<Outcome>): seq<Id>
    requires |outcomes| <= |claimed|
  {
    if outcomes == [] then []
    else
      var n := |outcomes| - 1;
      Due(claimed, outcomes[..n]) + if IsBlocked(outcomes[n]) then [] else [claimed[n]]
  }

  /** What was settled between the two books. */
  function News(before: Book, after: Book): seq<Settlement>
    requires before.settled <= after.settled
  {
    after.settled[|before.settled|..]
  }

  /** What the ledger can make of a task, with so many results recorded and rollbacks completed: a running
      task gets its result, a done task is rolled back, and a running one may go through both. */
  ghost predicate Fate(before: Status, after: Status, results: nat, rollbacks: nat) {
    || (after == before && results == 0 && rollbacks == 0)
    || (before == Running && after in {Done, ReviewPending} && results == 1 && rollbacks == 0)
    || (before == Done && after == RolledBack && results == 0 && rollbacks == 1)
    || (before == Running && after == RolledBack && results == 1 && rollbacks == 1)
  }

  ghost predicate FateIn(before: Book, after: Book, news: seq<Settlement>, id: Id)
    requires id in before.status && id in after.status
  {
    Fate(before.status[id], after.status[id], Reconciliations(news, id), Rollbacks(news, id))
  }

  ghost predicate NoneByLedger(news: seq<Settlement>, id: Id) {
    Reconciliations(news, id) == 0 && Rollbacks(news, id) == 0
  }

  /** Unless it was claimed, a task changes only if the ledger records its result or completes its rollback,
      or if it is escalated at its attempt limit. */
  ghost predicate Untouched(before: Book, after: Book, news: seq<Settlement>, id: Id, escalated: set<Id>)
    requires id in before.status && id in after.status
  {
    || FateIn(before, after, news, id)
    || (id in escalated && before.status[id] == Queued && after.status[id] == Escalated && NoneByLedger(news, id))
  }

  /** The outcome of a claimed task tells how it ended, unless the ledger has rolled it back since: reported
      as blocked it is left to the ledger, as contended it is queued again, and otherwise it is in the status
      reported. */
  ghost predicate Ended(after: Book, news: seq<Settlement>, id: Id, o: Outcome)
    requires id in after.status
  {
    && o.IsRun() && o.task == Some(id)
    && (o.Continues() <==> o.lifecycle == TaskIn(Done))
    && match o.lifecycle
       case ReconciliationBlocked => Fate(Running, after.status[id], Reconciliations(news, id), Rollbacks(news, id))
       case ClaimContended => after.status[id] == Queued && NoneByLedger(news, id)
       case TaskIn(s) =>
         && s !in {Running, Queued, RolledBack} && (Reconciliations(news, id) == 1 ==> s == Failed)
         && (if Rollbacks(news, id) == 1 && Reconciliations(news, id) == 0
             then s == Done && after.status[id] == RolledBack else after.status[id] == s)
       case _ => false
  }

  /** The account of a stretch of work: `claimed` are the tasks claimed in it and `outcomes` those of the
      first of them; all have one unless an exception left the scheduler. */
  ghost predicate Booked(before: Book, after: Book, claimed: seq<Id>, outcomes: seq<Outcome>, escalated: set<Id>, returned: bool) {
    && |outcomes| <= |claimed| && (returned ==> |outcomes| == |claimed|) && NoDuplicates(claimed)
    && after.status.Keys == before.status.Keys && before.settled <= after.settled
    && (forall id | id in claimed :: id in before.status && before.status[id] in {Queued, Running})
    && (forall id | id in escalated ::
          id in before.status && id !in claimed && before.status[id] == Queued && after.status[id] == Escalated)
    && var news := News(before, after);
       && OwnSettled(OwnIds(news), claimed, outcomes, returned)
       && (forall id :: ReconciledProperly(before, after, news, id, claimed))
       && (forall id | id in before.status && id !in claimed :: Untouched(before, after, news, id, escalated))
       && (forall j | 0 <= j < |outcomes| :: claimed[j] in after.status && Ended(after, news, claimed[j], outcomes[j]))
  }

  /** The scheduler settles exactly the tasks that are due, in claim order; an exception may come
      after one more. */
  ghost predicate OwnSettled(own: seq<Id>, claimed: seq<Id>, outcomes: seq<Outcome>, returned: bool)
    requires |outcomes| <= |claimed|
  {
    || own == Due(claimed, outcomes)
    || (!returned && |outcomes| < |claimed| && own == Due(claimed, outcomes) + [claimed[|outcomes|]])
  }

  /** The ledger records at most one result for a task, only for one that was running, and completes at most
      one rollback of it, only if it was done; the task does not wait or run after that. */
  ghost predicate ReconciledProperly(before: Book, after: Book, news: seq<Settlement>, id: Id, claimed: seq<Id>) {
    && Reconciliations(news, id) <= 1 && Rollbacks(news, id) <= 1
    && (Reconciliations(news, id) == 1 ==>
          && id in before.status && id in after.status
          && (before.status[id] == Running || id in claimed)
          && after.status[id] !in {Running, Queued})
    && (Rollbacks(news, id) == 1 ==>
          && id in before.status && id in after.status
          && (before.status[id] in {Done, Running} || id in claimed)
          && after.status[id] in {RolledBack, Failed})
  }

  // ----- counting -----

  lemma {:induction false} CountsConcat(a: seq<Settlement>, b: seq<Settlement>)
    ensures OwnIds(a + b) == OwnIds(a) + OwnIds(b)
    ensures forall id :: Reconciliations(a + b, id) == Reconciliations(a, id) + Reconciliations(b, id)
    ensures forall id :: Rollbacks(a + b, id) == Rollbacks(a, id) + Rollbacks(b, id)
    ensures forall id :: Times(a + b, id) == Times(a, id) + Times(b, id)
  {
    if b == [] {
      assert a + b == a;
    } else {
      assert (a + b)[..|a + b| - 1] == a + b[..|b| - 1];
      CountsConcat(a, b[..|b| - 1]);
    }
  }

  lemma CountsOfOne(s: Settlement)
    ensures OwnIds([]) == [] && forall id :: NoneByLedger([], id) && Times([], id) == 0
    ensures OwnIds([s]) == if s.ByLedger() then [] else [s.id]
    ensures forall id :: Reconciliations([s], id) == if s == Reconciled(id) then 1 else 0
    ensures forall id :: Rollbacks([s], id) == if s == RollbackCompleted(id) then 1 else 0
    ensures forall id :: Times([s], id) == if s.id == id && !s.RollbackCompleted? then 1 else 0
  {
    assert [s][..0] == [];
  }

  /** A task is settled by the scheduler or by the ledger. */
  lemma {:induction false} TimesSplit(settled: seq<Settlement>, id: Id)
    ensures Times(settled, id) == Occurs(OwnIds(settled), id) + Reconciliations(settled, id)
  {
    if settled != [] {
      var init := settled[..|settled| - 1];
      TimesSplit(init, id);
      OccursNext(OwnIds(init), settled[|settled| - 1].id);
      assert settled[|settled| - 1].ByLedger() ==> OwnIds(settled) == OwnIds(init);
    }
  }

  lemma OccursNext(ids: seq<Id>, next: Id)
    ensures forall id :: Occurs(ids + [next], id) == Occurs(ids, id) + if next == id then 1 else 0
  {
    assert (ids + [next])[..|ids|] == ids;
  }

  lemma {:induction false} OccursIn(ids: seq<Id>, id: Id)
    ensures Occurs(ids, id) > 0 <==> id in ids
    ensures NoDuplicates(ids) ==> Occurs(ids, id) <= 1
  {
    if ids != [] {
      var init := ids[..|ids| - 1];
      OccursIn(init, id);
      assert ids == init + [ids[|ids| - 1]];
    }
  }

  lemma {:induction false} DueMembers(claimed: seq<Id>, outcomes: seq<Outcome>, j: nat)
    requires j < |outcomes| <= |claimed| && NoDuplicates(claimed)
    ensures Occurs(Due(claimed, outcomes), claimed[j]) == if IsBlocked(outcomes[j]) then 0 else 1
  {
    var n := |outcomes| - 1;
    var init := Due(claimed, outcomes[..n]);
    if j < n {
      DueMembers(claimed, outcomes[..n], j);
    } else {
      NotDueYet(claimed, outcomes[..n], n);
    }
    OccursNext(init, claimed[n]);
    assert IsBlocked(outcomes[n]) ==> Due(claimed, outcomes) == init;
  }

  lemma {:induction false} NotDueYet(claimed: seq<Id>, outcomes: seq<Outcome>, n: nat)
    requires |outcomes| <= n < |claimed| && NoDuplicates(claimed)
    ensures Occurs(Due(claimed, outcomes), claimed[n]) == 0
  {
    if outcomes != [] {
      var m := |outcomes| - 1;
      NotDueYet(claimed, outcomes[..m], n);
      OccursNext(Due(claimed, outcomes[..m]), claimed[m]);
      assert IsBlocked(outcomes[m]) ==> Due(claimed, outcomes) == Due(claimed, outcomes[..m]);
    }
  }

  // ----- one step, and steps in a row -----

  /** Nothing but what the ledger completes touches the other tasks. */
  ghost predicate OthersReconciled(before: Book, after: Book, id: Id) {
    && after.status.Keys == before.status.Keys && before.settled <= after.settled
    && var news := News(before, after);
       && (forall x | x in before.status && x != id :: FateIn(before, after, news, x))
       && (forall x | x !in before.status :: NoneByLedger(news, x))
  }

  /** The scheduler records for a running task what leaves it neither queued nor running, and the ledger
      does nothing for it. */
  ghost predicate Concluded(before: Book, after: Book, news: seq<Settlement>, id: Id)
    requires id in before.status && id in after.status
  {
    before.status[id] == Running && after.status[id] !in {Running, Queued, RolledBack} && NoneByLedger(news, id)
  }

  /** The ledger may have found something for the task, and then its failure was recorded. */
  ghost predicate FailedOnTop(before: Book, after: Book, news: seq<Settlement>, id: Id)
    requires id in before.status && id in after.status
  {
    && after.status[id] == Failed
    && exists between :: Fate(before.status[id], between, Reconciliations(news, id), Rollbacks(news, id))
  }

  /** What one task's turn does. */
  ghost predicate StepShape(before: Book, after: Book, id: Id, outcome: Option<Outcome>) {
    && OthersReconciled(before, after, id) && id in before.status
    && var news := News(before, after);
       var own := OwnIds(news);
       && match outcome
          case None =>
            || (own == [] && FateIn(before, after, news, id))
            || (own == [id] && Concluded(before, after, news, id))
          case Some(o) =>
            && o.IsRun() && o.task == Some(id) && (o.Continues() <==> o.lifecycle == TaskIn(Done))
            && own == (if IsBlocked(o) then [] else [id])
            && match o.lifecycle
               case ReconciliationBlocked => FateIn(before, after, news, id)
               case ClaimContended => before.status[id] == Running && after.status[id] == Queued && NoneByLedger(news, id)
               case TaskIn(s) =>
                 && after.status[id] == s
                 && (Concluded(before, after, news, id) || (s == Failed && FailedOnTop(before, after, news, id)))
               case _ => false
  }

  /** A reconciliation moves running and done tasks only. */
  ghost predicate OnlyReconciled(before: Book, after: Book) {
    && after.status.Keys == before.status.Keys && before.settled <= after.settled
    && var news := News(before, after);
       && OwnIds(news) == []
       && (forall x | x in before.status :: FateIn(before, after, news, x))
       && (forall x | x !in before.status :: NoneByLedger(news, x))
  }

  lemma NewsInARow(a: Book, b: Book, c: Book)
    requires a.settled <= b.settled <= c.settled
    ensures News(a, c) == News(a, b) + News(b, c)
    ensures OwnIds(News(a, c)) == OwnIds(News(a, b)) + OwnIds(News(b, c))
    ensures forall id :: Reconciliations(News(a, c), id) == Reconciliations(News(a, b), id) + Reconciliations(News(b, c), id)
    ensures forall id :: Rollbacks(News(a, c), id) == Rollbacks(News(a, b), id) + Rollbacks(News(b, c), id)
  {
    assert News(a, c) == News(a, b) + News(b, c);
    CountsConcat(News(a, b), News(b, c));
  }

  lemma OnlyReconciledInARow(a: Book, b: Book, c: Book)
    requires OnlyReconciled(a, b) && OnlyReconciled(b, c)
    ensures OnlyReconciled(a, c)
  {
    hide OwnIds, Reconciliations, Rollbacks, News;
    NewsInARow(a, b, c);
  }

  lemma NothingNew(book: Book)
    ensures OnlyReconciled(book, book)
  {
    assert News(book, book) == [];
  }

  lemma NewsOfOne(before: Book, after: Book, how: Settlement)
    requires after.settled == before.settled + [how]
    ensures News(before, after) == [how]
  {
    assert News(before, after) == [how];
  }

  lemma OneCompleted(book: Book, op: Operation)
    requires op.Completes(book)
    ensures News(book, Completed(book, op)) == [op.Entry()] && OnlyReconciled(book, Completed(book, op))
  {
    NewsOfOne(book, Completed(book, op), op.Entry());
    CountsOfOne(op.Entry());
    hide OwnIds, Reconciliations, Rollbacks, News;
  }

  lemma {:induction false} ReconcileOnlyReconciles(book: Book, found: seq<Operation>)
    ensures OnlyReconciled(book, Reconcile(book, found).book)
    decreases |found|
  {
    if found != [] && found[0].Completes(book) {
      var next := Completed(book, found[0]);
      OneCompleted(book, found[0]);
      ReconcileOnlyReconciles(next, found[1..]);
      hide OnlyReconciled;
      OnlyReconciledInARow(book, next, Reconcile(next, found[1..]).book);
    } else {
      NothingNew(book);
    }
  }

  /** One more settlement by the scheduler, of one task. */
  lemma OwnAfter(a: Book, b: Book, c: Book, id: Id, how: Settlement)
    requires OnlyReconciled(a, b) && id in a.status && how.id == id && !how.ByLedger()
    requires c.settled == b.settled + [how] && c.status.Keys == b.status.Keys
    requires forall x | x in b.status && x != id :: c.status[x] == b.status[x]
    ensures OthersReconciled(a, c, id)
    ensures OwnIds(News(a, c)) == [id] && FateIn(a, b, News(a, b), id)
    ensures Reconciliations(News(a, c), id) == Reconciliations(News(a, b), id)
    ensures Rollbacks(News(a, c), id) == Rollbacks(News(a, b), id)
  {
    hide OwnIds, Reconciliations, Rollbacks, News;
    NewsOfOne(b, c, how);
    CountsOfOne(how);
    NewsInARow(a, b, c);
  }

  lemma FailureShape(a: Book, b: Book, id: Id)
    requires OnlyReconciled(a, b) && id in a.status
    ensures StepShape(a, AfterFailure(b, id).book, id, AfterFailure(b, id).outcome)
  {
    OwnAfter(a, b, AfterFailure(b, id).book, id, FailureRecorded(id));
    hide OwnIds, Reconciliations, Rollbacks, News, OthersReconciled, OnlyReconciled;
  }

  lemma ExceptionShape(a: Book, b: Book, id: Id, report: Report)
    requires OnlyReconciled(a, b) && id in a.status
    ensures StepShape(a, AfterException(b, id, report).book, id, AfterException(b, id, report).outcome)
  {
    var c := Reconcile(b, report.found).book;
    ReconcileOnlyReconciles(b, report.found);
    OnlyReconciledInARow(a, b, c);
    FailureShape(a, c, id);
    hide OwnIds, Reconciliations, Rollbacks, News, Reconcile;
  }

  /** The outcome of a settled task names the status the task is left in. */
  predicate Tells(o: Outcome, id: Id, after: Status) {
    && o.IsRun() && o.task == Some(id) && (o.Continues() <==> o.lifecycle == TaskIn(Done))
    && o.lifecycle == (if after == Queued then ClaimContended else TaskIn(after))
  }

  lemma SettleShape(a: Book, b: Book, id: Id, how: Settlement, recorded: Status, after: Status, outcome: Option<Outcome>)
    requires OnlyReconciled(a, b) && id in a.status && IsRunning(b, id) && how.id == id && !how.ByLedger()
    requires after !in {Running, RolledBack} && (if outcome.Some? then Tells(outcome.value, id, after) else after != Queued)
    ensures var c := Recorded(b, how, recorded); StepShape(a, c.(status := c.status[id := after]), id, outcome)
  {
    var c := Recorded(b, how, recorded);
    OwnAfter(a, b, c.(status := c.status[id := after]), id, how);
    hide OwnIds, Reconciliations, Rollbacks, News, OthersReconciled, OnlyReconciled;
  }

  lemma ResultShape(a: Book, b: Book, id: Id, run: WorkerRun, threeHead: bool)
    requires OnlyReconciled(a, b) && id in a.status && run.Finished?
    ensures StepShape(a, AfterResult(b, id, run, threeHead).book, id, AfterResult(b, id, run, threeHead).outcome)
  {
    if IsRunning(b, id) {
      var how, recorded := ResultRecorded(id, run.ok), ResultStatus(run.ok, threeHead);
      if run.closed {
        SettleShape(a, b, id, how, recorded, FinalStatus(run.ok, run.review, threeHead),
                    ResultOutcome(id, run.ok, run.review, threeHead));
      } else {
        SettleShape(a, b, id, how, recorded, recorded, None);
        var c := Recorded(b, how, recorded);
        assert c.(status := c.status[id := recorded]) == c;
      }
    } else {
      hide OwnIds, Reconciliations, Rollbacks, News;
    }
  }

  lemma ContentionShape(a: Book, b: Book, id: Id)
    requires OnlyReconciled(a, b) && id in a.status
    ensures StepShape(a, AfterContention(b, id).book, id, AfterContention(b, id).outcome)
  {
    if IsRunning(b, id) {
      SettleShape(a, b, id, Requeued(id), Queued, Queued, AfterContention(b, id).outcome);
      var c := Recorded(b, Requeued(id), Queued);
      assert c.(status := c.status[id := Queued]) == c;
    } else {
      hide OwnIds, Reconciliations, Rollbacks, News;
    }
  }

  lemma TurnShape(book: Book, id: Id, attempt: Attempt, threeHead: bool, batched: bool)
    requires id in book.status
    ensures var turn := TaskTurn(book, id, attempt, threeHead, batched); StepShape(book, turn.book, id, turn.outcome)
  {
    hide StepShape, OnlyReconciled, AfterResult, AfterException, AfterFailure, AfterContention, Reconcile;
    NothingNew(book);
    ReconcileOnlyReconciles(book, attempt.guard.found);
    var b := Reconcile(book, attempt.guard.found).book;
    FailureShape(book, book, id);
    ExceptionShape(book, book, id, attempt.after);
    ExceptionShape(book, b, id, attempt.after);
    ContentionShape(book, b, id);
    if attempt.run.Finished? {
      ResultShape(book, b, id, attempt.run, threeHead);
    }
  }

  // ----- accounts in a row -----

  lemma {:induction false} DueConcat(c1: seq<Id>, o1: seq<Outcome>, c2: seq<Id>, o2: seq<Outcome>)
    requires |o1| == |c1| && |o2| <= |c2|
    ensures Due(c1 + c2, o1 + o2) == Due(c1, o1) + Due(c2, o2)
  {
    if o2 == [] {
      assert o1 + o2 == o1;
      DuePrefix(c1, c1 + c2, o1);
    } else {
      var n := |o2| - 1;
      assert (o1 + o2)[..|o1 + o2| - 1] == o1 + o2[..n];
      DueConcat(c1, o1, c2, o2[..n]);
    }
  }

  lemma {:induction false} DuePrefix(claimed: seq<Id>, more: seq<Id>, outcomes: seq<Outcome>)
    requires |outcomes| <= |claimed| && claimed <= more
    ensures Due(more, outcomes) == Due(claimed, outcomes)
  {
    if outcomes != [] {
      DuePrefix(claimed, more, outcomes[..|outcomes| - 1]);
    }
  }

  lemma NothingBooked(book: Book)
    ensures Booked(book, book, [], [], {}, true)
  {
    assert News(book, book) == [];
  }

  lemma ReconciledBooked(before: Book, after: Book, returned: bool)
    requires OnlyReconciled(before, after)
    ensures Booked(before, after, [], [], {}, returned)
  {
    hide OwnIds, Reconciliations, Rollbacks, News;
    forall x ensures ReconciledProperly(before, after, News(before, after), x, []) {
      assert if x in before.status then FateIn(before, after, News(before, after), x) else NoneByLedger(News(before, after), x);
    }
  }

  /** The next claimed task takes its turn. */
  lemma BookedStep(a: Book, b: Book, c: Book, claimed: seq<Id>, outcomes: seq<Outcome>, id: Id, outcome: Option<Outcome>)
    requires Booked(a, b, claimed, outcomes, {}, true) && StepShape(b, c, id, outcome)
    requires id in a.status && a.status[id] == Running && id !in claimed
    ensures outcome.Some? ==> Booked(a, c, claimed + [id], outcomes + [outcome.value], {}, true)
    ensures outcome.None? ==> Booked(a, c, claimed + [id], outcomes, {}, false)
  {
    hide OwnIds, Reconciliations, Rollbacks, News, Due, FateIn, Ended, ReconciledProperly;
    var all := claimed + [id];
    var outs := if outcome.Some? then outcomes + [outcome.value] else outcomes;
    var news := News(a, c);
    NewsInARow(a, b, c);
    DueStep(claimed, outcomes, id, outcome);
    assert OwnSettled(OwnIds(news), all, outs, outcome.Some?);
    forall x ensures ReconciledProperly(a, c, news, x, all) {
      ProperlyStep(a, b, c, claimed, outcomes, id, outcome, x);
    }
    forall x | x in a.status && x !in all ensures Untouched(a, c, news, x, {}) {
      UntouchedInARow(a, b, c, x, {}, {});
    }
    forall j | 0 <= j < |outs| ensures all[j] in c.status && Ended(c, news, all[j], outs[j]) {
      EndedStep(a, b, c, claimed, outcomes, id, outcome, j);
    }
  }

  lemma DueStep(claimed: seq<Id>, outcomes: seq<Outcome>, id: Id, outcome: Option<Outcome>)
    requires |outcomes| == |claimed|
    ensures Due(claimed + [id], outcomes) == Due(claimed, outcomes)
    ensures outcome.Some? ==>
      Due(claimed + [id], outcomes + [outcome.value]) == Due(claimed, outcomes) + if IsBlocked(outcome.value) then [] else [id]
  {
    DuePrefix(claimed, claimed + [id], outcomes);
    if outcome.Some? {
      assert (outcomes + [outcome.value])[..|outcomes|] == outcomes;
    }
  }

  lemma UntouchedInARow(a: Book, b: Book, c: Book, x: Id, e1: set<Id>, e2: set<Id>)
    requires a.settled <= b.settled <= c.settled && x in a.status && x in b.status && x in c.status
    requires Untouched(a, b, News(a, b), x, e1) && Untouched(b, c, News(b, c), x, e2)
    ensures forall e | e1 <= e && e2 <= e :: Untouched(a, c, News(a, c), x, e)
  {
    hide Reconciliations, Rollbacks, News;
    NewsInARow(a, b, c);
  }

  lemma ProperlyStep(a: Book, b: Book, c: Book, claimed: seq<Id>, outcomes: seq<Outcome>, id: Id, outcome: Option<Outcome>, x: Id)
    requires Booked(a, b, claimed, outcomes, {}, true) && StepShape(b, c, id, outcome)
    requires id in a.status && a.status[id] == Running && id !in claimed
    ensures ReconciledProperly(a, c, News(a, c), x, claimed + [id])
  {
    hide OwnIds, Reconciliations, Rollbacks, News, Due, Ended, OwnSettled;
    NewsInARow(a, b, c);
    assert ReconciledProperly(a, b, News(a, b), x, claimed);
    if x in b.status && x != id {
      assert Untouched(b, c, News(b, c), x, {});
    }
    if x in a.status && x !in claimed {
      assert Untouched(a, b, News(a, b), x, {});
    }
    assert Reconciliations(News(a, c), x) == Reconciliations(News(a, b), x) + Reconciliations(News(b, c), x);
    assert x in claimed + [id] <==> x in claimed || x == id;
  }

  lemma EndedStep(a: Book, b: Book, c: Book, claimed: seq<Id>, outcomes: seq<Outcome>, id: Id, outcome: Option<Outcome>, j: nat)
    requires Booked(a, b, claimed, outcomes, {}, true) && StepShape(b, c, id, outcome)
    requires id in a.status && a.status[id] == Running && id !in claimed
    requires var outs := if outcome.Some? then outcomes + [outcome.value] else outcomes; j < |outs|
    ensures var outs := if outcome.Some? then outcomes + [outcome.value] else outcomes;
      (claimed + [id])[j] in c.status && Ended(c, News(a, c), (claimed + [id])[j], outs[j])
  {
    hide OwnIds, Reconciliations, Rollbacks, News, Due, OwnSettled;
    if j < |claimed| {
      assert ReconciledProperly(a, b, News(a, b), claimed[j], claimed);
      StillEnded(a, b, c, claimed[j], outcomes[j], {});
    } else {
      assert Untouched(a, b, News(a, b), id, {});
      NowEnded(a, b, c, id, outcome.value);
    }
  }

  /** An ended task stays ended, except that the ledger may complete a blocked one and roll back a done one. */
  lemma StillEnded(a: Book, b: Book, c: Book, x: Id, o: Outcome, escalated: set<Id>)
    requires a.settled <= b.settled <= c.settled && x in b.status && x in c.status
    requires Ended(b, News(a, b), x, o) && Untouched(b, c, News(b, c), x, escalated)
    requires x !in escalated && Reconciliations(News(a, b), x) <= 1 && Rollbacks(News(a, b), x) <= 1
    ensures Ended(c, News(a, c), x, o)
  {
    hide OwnIds, Reconciliations, Rollbacks, News;
    NewsInARow(a, b, c);
  }

  lemma NowEnded(a: Book, b: Book, c: Book, id: Id, o: Outcome)
    requires a.settled <= b.settled && StepShape(b, c, id, Some(o)) && id in a.status && a.status[id] == Running
    requires Untouched(a, b, News(a, b), id, {})
    ensures Ended(c, News(a, c), id, o)
  {
    hide OwnIds, Reconciliations, Rollbacks, News;
    NewsInARow(a, b, c);
  }

  // ----- batches in a row -----

  lemma OwnInARow(o1: seq<Id>, o2: seq<Id>, c1: seq<Id>, p1: seq<Outcome>, c2: seq<Id>, p2: seq<Outcome>, returned: bool)
    requires |p1| == |c1| && |p2| <= |c2| && (returned ==> |p2| == |c2|)
    requires OwnSettled(o1, c1, p1, true) && OwnSettled(o2, c2, p2, returned)
    ensures OwnSettled(o1 + o2, c1 + c2, p1 + p2, returned)
  {
    DueConcat(c1, p1, c2, p2);
    hide Due;
    if o2 != Due(c2, p2) {
      assert (c1 + c2)[|p1 + p2|] == c2[|p2|];
    }
  }

  lemma ProperlyInARow(a: Book, b: Book, c: Book, c1: seq<Id>, c2: seq<Id>, x: Id, e1: set<Id>, e2: set<Id>)
    requires a.settled <= b.settled <= c.settled && a.status.Keys == b.status.Keys == c.status.Keys
    requires ReconciledProperly(a, b, News(a, b), x, c1) && ReconciledProperly(b, c, News(b, c), x, c2)
    requires x in a.status && x !in c1 ==> Untouched(a, b, News(a, b), x, e1)
    requires x in b.status && x !in c2 ==> Untouched(b, c, News(b, c), x, e2)
    requires x in c2 ==> x in b.status && b.status[x] in {Queued, Running}
    ensures ReconciledProperly(a, c, News(a, c), x, c1 + c2)
  {
    hide Reconciliations, Rollbacks, News;
    NewsInARow(a, b, c);
    assert x in c1 + c2 <==> x in c1 || x in c2;
  }

  lemma LaterUntouched(a: Book, b: Book, c: Book, c1: seq<Id>, o1: seq<Outcome>, c2: seq<Id>, o2: seq<Outcome>, escalated: set<Id>, returned: bool)
    requires Booked(a, b, c1, o1, {}, true) && Booked(b, c, c2, o2, escalated, returned)
    requires forall x | x in c1 :: x !in c2 && x !in escalated
    ensures forall x | x in c2 || x in escalated :: x in a.status && a.status[x] == b.status[x] && NoneByLedger(News(a, b), x)
  {
    hide OwnIds, Reconciliations, Rollbacks, News, OwnSettled, Ended;
    forall x | x in c2 || x in escalated ensures x in a.status && a.status[x] == b.status[x] && NoneByLedger(News(a, b), x) {
      assert Untouched(a, b, News(a, b), x, {});
      assert ReconciledProperly(a, b, News(a, b), x, c1);
      if x in c2 {
        assert b.status[x] in {Queued, Running};
      }
    }
  }

  lemma OthersInARow(a: Book, b: Book, c: Book, c1: seq<Id>, o1: seq<Outcome>, c2: seq<Id>, o2: seq<Outcome>, escalated: set<Id>, returned: bool)
    requires Booked(a, b, c1, o1, {}, true) && Booked(b, c, c2, o2, escalated, returned)
    ensures a.settled <= c.settled
    ensures forall x :: ReconciledProperly(a, c, News(a, c), x, c1 + c2)
    ensures forall x | x in a.status && x !in c1 + c2 :: x in c.status && Untouched(a, c, News(a, c), x, escalated)
  {
    hide OwnIds, Reconciliations, Rollbacks, News, OwnSettled, Untouched, Ended, ReconciledProperly;
    forall x ensures ReconciledProperly(a, c, News(a, c), x, c1 + c2) {
      assert ReconciledProperly(a, b, News(a, b), x, c1) && ReconciledProperly(b, c, News(b, c), x, c2);
      ProperlyInARow(a, b, c, c1, c2, x, {}, escalated);
    }
    forall x | x in a.status && x !in c1 + c2 ensures x in c.status && Untouched(a, c, News(a, c), x, escalated) {
      assert Untouched(a, b, News(a, b), x, {}) && Untouched(b, c, News(b, c), x, escalated);
      UntouchedInARow(a, b, c, x, {}, escalated);
    }
  }

  /** Accounts of disjoint claims add up. */
  lemma BookedInARow(a: Book, b: Book, c: Book, c1: seq<Id>, o1: seq<Outcome>, c2: seq<Id>, o2: seq<Outcome>, escalated: set<Id>, returned: bool)
    requires Booked(a, b, c1, o1, {}, true) && Booked(b, c, c2, o2, escalated, returned)
    requires forall x | x in c1 :: x !in c2 && x !in escalated
    ensures Booked(a, c, c1 + c2, o1 + o2, escalated, returned)
  {
    hide OwnIds, Reconciliations, Rollbacks, News, OwnSettled, Untouched, Ended, ReconciledProperly;
    NewsInARow(a, b, c);
    OwnInARow(OwnIds(News(a, b)), OwnIds(News(b, c)), c1, o1, c2, o2, returned);
    LaterUntouched(a, b, c, c1, o1, c2, o2, escalated, returned);
    OthersInARow(a, b, c, c1, o1, c2, o2, escalated, returned);
    forall j | 0 <= j < |o1 + o2| ensures (c1 + c2)[j] in c.status && Ended(c, News(a, c), (c1 + c2)[j], (o1 + o2)[j]) {
      EndedInARow(a, b, c, c1, o1, c2, o2, escalated, returned, j);
    }
  }

  lemma EndedInARow(a: Book, b: Book, c: Book, c1: seq<Id>, o1: seq<Outcome>, c2: seq<Id>, o2: seq<Outcome>, escalated: set<Id>, returned: bool, j: nat)
    requires Booked(a, b, c1, o1, {}, true) && Booked(b, c, c2, o2, escalated, returned) && j < |o1 + o2|
    requires forall x | x in c1 :: x !in c2 && x !in escalated
    requires forall x | x in c2 :: NoneByLedger(News(a, b), x)
    ensures (c1 + c2)[j] in c.status && Ended(c, News(a, c), (c1 + c2)[j], (o1 + o2)[j])
  {
    hide OwnIds, Reconciliations, Rollbacks, News, OwnSettled, Ended, Untouched, NoneByLedger;
    if j < |c1| {
      assert c1[j] in c1 && Ended(b, News(a, b), c1[j], o1[j]);
      assert ReconciledProperly(a, b, News(a, b), c1[j], c1);
      assert Untouched(b, c, News(b, c), c1[j], escalated);
      StillEnded(a, b, c, c1[j], o1[j], escalated);
    } else {
      var k := j - |c1|;
      assert c2[k] in c2 && Ended(c, News(b, c), c2[k], o2[k]);
      LaterEnded(a, b, c, c2[k], o2[k]);
    }
  }

  lemma LaterEnded(a: Book, b: Book, c: Book, x: Id, o: Outcome)
    requires a.settled <= b.settled <= c.settled && x in c.status
    requires NoneByLedger(News(a, b), x) && Ended(c, News(b, c), x, o)
    ensures Ended(c, News(a, c), x, o)
  {
    hide OwnIds, Reconciliations, Rollbacks, News;
    NewsInARow(a, b, c);
  }

  /** What holds of the book right after the claim holds of the book before it. */
  lemma BookedSinceClaim(before: Book, after: Book, claimed: seq<Id>, outcomes: seq<Outcome>, escalated: set<Id>, returned: bool)
    requires forall id | id in claimed :: id in before.status && before.status[id] == Queued
    requires Booked(Book(WithStatus(before.status, claimed, Running), before.settled), after, claimed, outcomes, escalated, returned)
    ensures Booked(before, after, claimed, outcomes, escalated, returned)
  {
    var started := Book(WithStatus(before.status, claimed, Running), before.settled);
    assert started.status.Keys == before.status.Keys;
    assert News(started, after) == News(before, after);
    hide OwnIds, Reconciliations, Rollbacks, News, OwnSettled;
    var news := News(before, after);
    forall x | x in before.status && x !in claimed ensures Untouched(before, after, news, x, escalated) {
      assert Untouched(started, after, news, x, escalated);
    }
    forall x ensures ReconciledProperly(before, after, news, x, claimed) {
      assert ReconciledProperly(started, after, news, x, claimed);
    }
    forall j | 0 <= j < |outcomes| ensures claimed[j] in after.status && Ended(after, news, claimed[j], outcomes[j]) {
      assert Ended(after, news, claimed[j], outcomes[j]);
    }
  }

  /** A stretch that claims queued tasks adds nothing to the queue, and takes from it a task that is done. */
  lemma QueueShrinks(before: Book, after: Book, claimed: seq<Id>, outcomes: seq<Outcome>, escalated: set<Id>, returned: bool)
    requires Booked(before, after, claimed, outcomes, escalated, returned)
    requires forall id | id in claimed :: before.status[id] == Queued
    ensures QueuedIds(after.status) <= QueuedIds(before.status)
    ensures outcomes != [] && outcomes[0].Continues() ==> QueuedIds(after.status) < QueuedIds(before.status)
  {
    hide OwnIds, Reconciliations, Rollbacks, News, OwnSettled;
    forall x | x in QueuedIds(after.status) ensures x in QueuedIds(before.status) {
      if x !in claimed {
        assert Untouched(before, after, News(before, after), x, escalated);
      }
    }
    if outcomes != [] && outcomes[0].Continues() {
      assert claimed[0] in claimed;
      assert Ended(after, News(before, after), claimed[0], outcomes[0]);
      assert claimed[0] in QueuedIds(before.status) && claimed[0] !in QueuedIds(after.status);
    }
  }
}
