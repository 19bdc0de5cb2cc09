/** The run loop, and the account of a whole run. */
module RunLoop {
  import opened Prelude
  import opened TaskGraph
  import opened TaskStore
  import opened TaskRuns
  import opened Accounts
  import opened Settlements
  import opened PlanProgress
  import opened Scheduler

  /** What `_final_audit_handoff` decides. */
  datatype Handoff = RollbackBlocked | ReviewBlocked | TaskStateBlocked | Handed | AuditFailed

  /** What the loop is told from outside the queue. */
  datatype Surroundings = Surroundings(
    notifierValid: bool, storeReadable: bool, staleRunning: bool, openReviews: bool, pendingReconciliation: bool, auditOk: bool, finalAudit: bool)

  datatype Exit =
    | InvalidParallelism
    | InvalidNotifier
    | StateError
    | StaleTasks
    | AwaitsDecision(status: Status)
    | QueueEmpty
    | HandedOff(handoff: Handoff)
    | NoneRunnable
    | CriticStopped(status: Status)
    | ReviewRequested
    | TaskBlocked(task: Option<Id>)
    | LimitReached
    | Crashed  // an exception leaves the loop
  {
    function Code(): int {
      match this
      case QueueEmpty => 0
      case ReviewRequested => 0
      case LimitReached => 0
      case AwaitsDecision(s) => if s == ReviewPending then 0 else 1
      case HandedOff(h) => if h == Handed then 0 else 1
      case _ => 1
    }

    /** An end of the loop itself, not of the checks before it. */
    predicate FromLoop() {
      !InvalidParallelism? && !InvalidNotifier? && !StateError? && !StaleTasks? && !AwaitsDecision?
    }
  }

  datatype RunEvent = RunEvent(task: Option<Id>, ok: bool)

  predicate SomeIn(status: Statuses, kinds: set<Status>) {
    exists id | id in status :: status[id] in kinds
  }

  function FinalHandoff(status: Statuses, around: Surroundings): Handoff {
    if SomeIn(status, {RolledBack}) then RollbackBlocked
    else if around.openReviews then ReviewBlocked
    else if SomeIn(status, {Queued, Running, Failed, ReviewPending, ReworkRequired, Escalated}) then TaskStateBlocked
    else if around.pendingReconciliation then TaskStateBlocked
    else if around.auditOk then Handed
    else AuditFailed
  }

  /** While some task is not done, the project is not handed off. */
  lemma UndoneBlocksHandoff(status: Statuses, around: Surroundings, id: Id)
    requires id in status && status[id] != Done
    ensures FinalHandoff(status, around) != Handed
  {
    if status[id] == RolledBack {
      assert SomeIn(status, {RolledBack});
    } else {
      assert SomeIn(status, {Queued, Running, Failed, ReviewPending, ReworkRequired, Escalated});
    }
  }

  ghost predicate AllDone(status: Statuses) {
    forall id | id in status :: status[id] == Done
  }

  ghost predicate SomeRolledBack(status: Statuses) {
    exists id :: id in status && status[id] == RolledBack
  }

  /** What each handoff means: rolled-back tasks come first, then open reviews, then tasks that are not done and
      operations that wait for reconciliation, and only then the audit is run. */
  ghost predicate HandoffMeans(handoff: Handoff, status: Statuses, around: Surroundings) {
    && (handoff == RollbackBlocked <==> SomeRolledBack(status))
    && (handoff == ReviewBlocked <==> !SomeRolledBack(status) && around.openReviews)
    && (handoff == TaskStateBlocked <==>
          !SomeRolledBack(status) && !around.openReviews && (!AllDone(status) || around.pendingReconciliation))
    && (handoff == AuditFailed <==>
          AllDone(status) && !around.openReviews && !around.pendingReconciliation && !around.auditOk)
    && (handoff == Handed <==>
          AllDone(status) && !around.openReviews && !around.pendingReconciliation && around.auditOk)
  }

  lemma HandoffExactlyWhen(status: Statuses, around: Surroundings)
    ensures HandoffMeans(FinalHandoff(status, around), status, around)
  {
    if !AllDone(status) {
      var id :| id in status && status[id] != Done;
      UndoneBlocksHandoff(status, around, id);
      if !SomeRolledBack(status) {
        assert SomeIn(status, {Queued, Running, Failed, ReviewPending, ReworkRequired, Escalated});
      }
    }
  }

  function Flatten(batches: seq<seq<Outcome>>): seq<Outcome> {
    if batches == [] then [] else Flatten(batches[..|batches| - 1]) + batches[|batches| - 1]
  }

  /** The run events a sequence of outcomes gives rise to. */
  function EventsOf(outcomes: seq<Outcome>): seq<RunEvent> {
    if outcomes == [] then []
    else
      var o := outcomes[|outcomes| - 1];
      EventsOf(outcomes[..|outcomes| - 1]) + if o.IsRun() then [RunEvent(o.task, !o.Blocked())] else []
  }

  function CountOk(runs: seq<RunEvent>): nat {
    if runs == [] then 0
    else CountOk(runs[..|runs| - 1]) + if runs[|runs| - 1].ok then 1 else 0
  }

  /** The task of the first blocked outcome that names one. */
  function FirstBlocked(outcomes: seq<Outcome>): Option<Id> {
    if outcomes == [] then None
    else
      var earlier, o := FirstBlocked(outcomes[..|outcomes| - 1]), outcomes[|outcomes| - 1];
      if earlier.Some? || !o.Blocked() then earlier else o.task
  }

  predicate AnyBlocked(outcomes: seq<Outcome>) {
    exists o | o in outcomes :: o.IsRun() && o.Blocked()
  }

  /** No batch was started once an outcome was blocked. */
  ghost predicate StopsAfterBlock(batches: seq<seq<Outcome>>) {
    forall i | 0 <= i < |batches| - 1 :: !AnyBlocked(batches[i])
  }

  lemma {:induction false} BatchInFlatten(batches: seq<seq<Outcome>>, i: nat)
    requires i < |batches| && AnyBlocked(batches[i])
    ensures AnyBlocked(Flatten(batches))
  {
    var n := |batches| - 1;
    if i < n {
      BatchInFlatten(batches[..n], i);
      var o :| o in Flatten(batches[..n]) && o.IsRun() && o.Blocked();
      assert o in Flatten(batches);
    } else {
      var o :| o in batches[i] && o.IsRun() && o.Blocked();
      assert o in Flatten(batches);
    }
  }

  /** The loop's bookkeeping: `processed` and `pending` are what all batches so far returned. */
  ghost predicate Bookkeeping(batches: seq<seq<Outcome>>, processed: seq<Outcome>, pending: seq<Outcome>,
                              runs: seq<RunEvent>, completed: nat, blocked: bool, first: Option<Id>) {
    && Flatten(batches) == processed + pending
    && StopsAfterBlock(batches)
    && runs == EventsOf(processed) && completed == CountOk(runs)
    && (blocked <==> AnyBlocked(processed)) && first == FirstBlocked(processed)
  }

  /** Between iterations: outcomes wait only inside a wide batch, and the limit has room for them. */
  ghost predicate Waiting(pending: seq<Outcome>, completed: nat, blocked: bool, maxTasks: int) {
    && Plain(pending)
    && (blocked ==> pending != [])
    && (maxTasks > 0 ==> completed + |pending| <= maxTasks && (blocked ==> completed + |pending| < maxTasks))
  }

  lemma StartBatch(batches: seq<seq<Outcome>>, processed: seq<Outcome>, runs: seq<RunEvent>, completed: nat,
                   first: Option<Id>, outcomes: seq<Outcome>)
    requires Bookkeeping(batches, processed, [], runs, completed, false, first)
    ensures Bookkeeping(batches + [outcomes], processed, outcomes, runs, completed, false, first)
  {
    var longer := batches + [outcomes];
    assert longer[..|batches|] == batches;
    assert processed + [] == processed;
    forall i | 0 <= i < |longer| - 1 ensures !AnyBlocked(longer[i]) {
      if AnyBlocked(batches[i]) {
        BatchInFlatten(batches, i);
      }
    }
  }

  lemma ProcessOne(batches: seq<seq<Outcome>>, processed: seq<Outcome>, pending: seq<Outcome>, runs: seq<RunEvent>,
                   completed: nat, blocked: bool, first: Option<Id>)
    requires Bookkeeping(batches, processed, pending, runs, completed, blocked, first)
    requires pending != [] && pending[0].IsRun()
    ensures var o := pending[0];
      Bookkeeping(batches, processed + [o], pending[1..], runs + [RunEvent(o.task, !o.Blocked())],
                  completed + (if o.Blocked() then 0 else 1), blocked || o.Blocked(),
                  if first.Some? || !o.Blocked() then first else o.task)
  {
    var o := pending[0];
    var event := RunEvent(o.task, !o.Blocked());
    assert (processed + [o])[..|processed|] == processed;
    assert (runs + [event])[..|runs|] == runs;
    assert processed + pending == (processed + [o]) + pending[1..];
    assert o in processed + [o];
    if AnyBlocked(processed) {
      var b :| b in processed && b.IsRun() && b.Blocked();
      assert b in processed + [o];
    }
  }

  /** How the loop may end, in terms of everything its batches returned. */
  ghost predicate EndsProperly(batches: seq<seq<Outcome>>, runs: seq<RunEvent>, completed: nat, exit: Exit, maxTasks: int) {
    var all := Flatten(batches);
    && StopsAfterBlock(batches)
    && runs == EventsOf(all) && completed == CountOk(runs)
    && (maxTasks > 0 ==> completed <= maxTasks)
    && (AnyBlocked(all) <==> exit.TaskBlocked?)
    && (exit.TaskBlocked? ==> exit.task == FirstBlocked(all))
    && (exit.LimitReached? ==> completed == maxTasks > 0)
  }

  lemma EndWithoutEvent(batches: seq<seq<Outcome>>, processed: seq<Outcome>, o: Outcome, runs: seq<RunEvent>,
                        completed: nat, first: Option<Id>, exit: Exit, maxTasks: int)
    requires Bookkeeping(batches, processed, [o], runs, completed, false, first)
    requires !o.IsRun() && !exit.TaskBlocked? && !exit.LimitReached? && (maxTasks > 0 ==> completed <= maxTasks)
    ensures EndsProperly(batches, runs, completed, exit, maxTasks)
  {
    var all := processed + [o];
    assert all[..|processed|] == processed;
    assert forall b | b in all :: b in processed || b == o;
  }

  lemma EndProcessed(batches: seq<seq<Outcome>>, processed: seq<Outcome>, runs: seq<RunEvent>, completed: nat,
                     blocked: bool, first: Option<Id>, exit: Exit, maxTasks: int)
    requires Bookkeeping(batches, processed, [], runs, completed, blocked, first)
    requires if blocked then exit == TaskBlocked(first) else !exit.TaskBlocked?
    requires (maxTasks > 0 ==> completed <= maxTasks) && (exit.LimitReached? ==> completed == maxTasks > 0)
    ensures EndsProperly(batches, runs, completed, exit, maxTasks)
  {
    assert processed + [] == processed;
  }

  /** An outcome is about to be handled: the others waiting are plain, and there is room for all. */
  ghost predicate Handling(pending: seq<Outcome>, completed: nat, blocked: bool, maxTasks: int) {
    && pending != [] && pending[0].IsRun()
    && (|pending| > 1 || blocked ==> pending[0].critic.None? && !pending[0].bundle)
    && Plain(pending[1..])
    && (maxTasks > 0 ==> completed + |pending| <= maxTasks && (blocked ==> completed + |pending| < maxTasks))
  }

  /** One run outcome: record its event, count it, and stop or go on. */
  method Handle(ghost batches: seq<seq<Outcome>>, ghost processed: seq<Outcome>, pending: seq<Outcome>,
                runs: seq<RunEvent>, completed: nat, blocked: bool, first: Option<Id>, maxTasks: int)
    returns (exit: Option<Exit>, newRuns: seq<RunEvent>, newCompleted: nat, newBlocked: bool, newFirst: Option<Id>)
    requires Bookkeeping(batches, processed, pending, runs, completed, blocked, first)
    requires Handling(pending, completed, blocked, maxTasks)
    ensures newBlocked <==> blocked || pending[0].Blocked()
    ensures exit.None? ==>
      Bookkeeping(batches, processed + [pending[0]], pending[1..], newRuns, newCompleted, newBlocked, newFirst)
    ensures exit.None? ==> Waiting(pending[1..], newCompleted, newBlocked, maxTasks)
    ensures exit.None? ==> pending[0].Blocked() || pending[0].Continues()
    ensures exit.Some? ==> EndsProperly(batches, newRuns, newCompleted, exit.value, maxTasks)
    ensures exit.Some? ==> exit.value.CriticStopped? || exit.value.ReviewRequested? || exit.value.TaskBlocked?
    ensures |pending| == 1 && pending[0].Blocked() ==> exit.Some?
  {
    var outcome, rest := pending[0], pending[1..];
    ProcessOne(batches, processed, pending, runs, completed, blocked, first);
    ghost var after := processed + [outcome];
    newRuns := runs + [RunEvent(outcome.task, !outcome.Blocked())];
    newCompleted, newBlocked, newFirst, exit := completed, blocked, first, None;
    if outcome.critic.Some? && !outcome.Blocked() {
      newCompleted := completed + 1;
      if outcome.critic.value != Done {
        exit := Some(CriticStopped(outcome.critic.value));
      }
    } else if outcome.bundle && outcome.critic.None? && !outcome.Blocked() {
      newCompleted := completed + 1;
      exit := Some(ReviewRequested);
    } else if outcome.Blocked() {
      newBlocked := true;
      newFirst := if first.Some? then first else outcome.task;
      if rest == [] {
        exit := Some(TaskBlocked(newFirst));
      }
    } else {
      newCompleted := completed + 1;
      if blocked && rest == [] {
        exit := Some(TaskBlocked(first));
      }
    }
    if exit.Some? {
      EndProcessed(batches, after, newRuns, newCompleted, newBlocked, newFirst, exit.value, maxTasks);
    }
  }

  /** A new batch can be handled from its first outcome on, unless that says nothing ran. */
  lemma BatchCanBeHandled(before: Statuses, after: Statuses, limit: int, outcomes: seq<Outcome>, completed: nat, maxTasks: int)
    requires BatchShape(before, after, limit, outcomes) && (maxTasks > 0 ==> 1 <= limit <= maxTasks - completed)
    ensures outcomes[0].IsRun() ==> Handling(outcomes, completed, false, maxTasks)
    ensures !outcomes[0].IsRun() ==> outcomes == [outcomes[0]]
    ensures maxTasks > 0 ==> completed + |outcomes| <= maxTasks
  {
    assert outcomes[0] in outcomes;
    assert forall o | o in outcomes[1..] :: o in outcomes;
  }

  lemma WaitingCanBeHandled(pending: seq<Outcome>, completed: nat, blocked: bool, maxTasks: int)
    requires Waiting(pending, completed, blocked, maxTasks) && pending != []
    ensures Handling(pending, completed, blocked, maxTasks)
  {
    assert pending[0] in pending;
    assert forall o | o in pending[1..] :: o in pending;
  }

  /** A batch is as wide as tasks may run in parallel, or as the limit on tasks leaves room for, if that is less. */
  ghost predicate Room(limit: int, parallelism: int, completed: nat, maxTasks: int) {
    if maxTasks > 0 then
      limit <= parallelism && limit <= maxTasks - completed && (limit == parallelism || limit == maxTasks - completed)
    else limit == parallelism
  }

  /** The batch that comes next, within that width. */
  ghost predicate RoomyBatch(specs: seq<Spec>, before: Book, attempts: map<Id, nat>, config: Config, parallelism: int, completed: nat,
                             maxTasks: int, world: World, k: nat, outcomes: Option<seq<Outcome>>, used: nat, claimed: seq<Id>,
                             ran: seq<Outcome>, after: Book) {
    exists limit: int | Room(limit, parallelism, completed, maxTasks) ::
      BatchNext(specs, before, attempts, config, world, k, limit, outcomes, used, claimed, ran, after)
  }

  /** Runs the next batch, no wider than the limit leaves room for. */
  method NextBatch(store: Store, config: Config, parallelism: int, maxTasks: int, world: World, k: nat,
                   ghost batches: seq<seq<Outcome>>, ghost processed: seq<Outcome>, runs: seq<RunEvent>,
                   completed: nat, first: Option<Id>)
    returns (pending: Option<seq<Outcome>>, used: nat, claimed: seq<Id>, ran: seq<Outcome>)
    requires store.Valid() && parallelism >= 1 && (parallelism > 1 ==> !config.threeHead)
    requires Bookkeeping(batches, processed, [], runs, completed, false, first)
    requires maxTasks <= 0 || completed < maxTasks
    modifies store
    ensures store.Valid()
    ensures BatchBooked(old(store.Contents()), store.Contents(), claimed, ran, pending)
    ensures RoomyBatch(store.specs, old(store.Contents()), old(store.attempts), config, parallelism, completed, maxTasks, world, k,
                       pending, used, claimed, ran, store.Contents())
    ensures pending.Some? ==> var p := pending.value;
      && p != [] && Bookkeeping(batches + [p], processed, p, runs, completed, false, first)
      && (p[0].IsRun() ==> Handling(p, completed, false, maxTasks))
      && (!p[0].IsRun() ==> p == [p[0]] && (p[0].empty || p[0].dependencyBlocked))
      && QueuedIds(store.status) <= old(QueuedIds(store.status))
      && (p[0].Continues() ==> QueuedIds(store.status) < old(QueuedIds(store.status)))
      && (p[0].empty ==> QueuedIds(store.status) == {})
      && (p[0].dependencyBlocked ==> QueuedIds(store.status) != {} && NothingReady(store.specs, store.status))
  {
    hide BatchBooked, BatchNext, Bookkeeping, QueuedIds, NothingReady, Handling;
    var remaining := parallelism;
    if maxTasks > 0 && maxTasks - completed < remaining {
      remaining := maxTasks - completed;
    }
    pending, used, claimed, ran := RunReadyBatch(store, config, world, k, remaining);
    if pending.Some? {
      StartBatch(batches, processed, runs, completed, first, pending.value);
      BatchCanBeHandled(old(store.status), store.status, remaining, pending.value, completed, maxTasks);
    }
  }

  lemma NothingYet(maxTasks: int)
    ensures Bookkeeping([], [], [], [], 0, false, None) && Waiting([], 0, false, maxTasks)
  {
  }

  lemma FullMeansProcessed(pending: seq<Outcome>, completed: nat, blocked: bool, maxTasks: int)
    requires Waiting(pending, completed, blocked, maxTasks) && completed >= maxTasks > 0
    ensures pending == [] && !blocked && completed == maxTasks
  {
  }

  // ----- the account of the whole run -----

  /** Everything claimed so far, with the outcomes, which the batches returned. */
  ghost predicate RunBooked(begin: Book, now: Book, claims: seq<Id>, ran: seq<Outcome>, escalated: set<Id>, returned: bool, all: seq<Outcome>) {
    Booked(begin, now, claims, ran, escalated, returned) && (returned ==> forall o | o in ran :: o in all)
  }

  /** Every outcome handled so far was one the loop goes on after. */
  ghost predicate AllContinue(outcomes: seq<Outcome>) {
    forall o | o in outcomes :: o.Continues()
  }

  /** What was claimed so far is done, or was and is rolled back, so the next claims are of other tasks. */
  lemma ClaimsWereDone(begin: Book, now: Book, claims: seq<Id>, ran: seq<Outcome>, all: seq<Outcome>)
    requires RunBooked(begin, now, claims, ran, {}, true, all) && AllContinue(all)
    ensures forall id | id in claims :: id in now.status && now.status[id] in {Done, RolledBack}
  {
    hide OwnIds, Reconciliations, Rollbacks, News, OwnSettled, Untouched, ReconciledProperly;
    forall id | id in claims ensures id in now.status && now.status[id] in {Done, RolledBack} {
      var j :| 0 <= j < |claims| && claims[j] == id;
      assert Ended(now, News(begin, now), claims[j], ran[j]);
      assert ran[j] in ran;
    }
  }

  lemma EscalatedWasQueued(before: Book, after: Book, claimed: seq<Id>, ran: seq<Outcome>, outcomes: Option<seq<Outcome>>)
    requires BatchBooked(before, after, claimed, ran, outcomes)
    ensures forall id | id in EscalatedBy(claimed, outcomes) :: id in before.status && before.status[id] == Queued
    ensures forall id | id in claimed :: id in before.status && before.status[id] == Queued
    ensures Booked(before, after, claimed, ran, EscalatedBy(claimed, outcomes), outcomes.Some?)
    ensures outcomes.Some? ==> forall o | o in ran :: o in outcomes.value
  {
    hide OwnIds, Reconciliations, Rollbacks, News, OwnSettled, Untouched, ReconciledProperly, Ended;
  }

  /** The account goes on over the next batch. */
  lemma NextBooked(begin: Book, now: Book, next: Book, claims: seq<Id>, ran: seq<Outcome>, all: seq<Outcome>,
                   claimed: seq<Id>, more: seq<Outcome>, outcomes: Option<seq<Outcome>>)
    requires RunBooked(begin, now, claims, ran, {}, true, all) && AllContinue(all)
    requires BatchBooked(now, next, claimed, more, outcomes)
    ensures RunBooked(begin, next, claims + claimed, ran + more, EscalatedBy(claimed, outcomes), outcomes.Some?,
                      all + if outcomes.Some? then outcomes.value else [])
  {
    ClaimsWereDone(begin, now, claims, ran, all);
    EscalatedWasQueued(now, next, claimed, more, outcomes);
    hide Booked, BatchBooked, EscalatedBy;
    BookedInARow(begin, now, next, claims, ran, claimed, more, EscalatedBy(claimed, outcomes), outcomes.Some?);
  }

  lemma NothingRun(book: Book)
    ensures RunBooked(book, book, [], [], {}, true, [])
  {
    NothingBooked(book);
  }

  /** The loop's variables, and what the batches returned and claimed so far. */
  datatype Tally = Tally(
    batches: seq<seq<Outcome>>, processed: seq<Outcome>, pending: seq<Outcome>, runs: seq<RunEvent>, completed: nat,
    blocked: bool, first: Option<Id>, claims: seq<Id>, ran: seq<Outcome>, escalated: set<Id>)

  ghost predicate Kept(begin: Book, now: Book, t: Tally) {
    && Bookkeeping(t.batches, t.processed, t.pending, t.runs, t.completed, t.blocked, t.first)
    && RunBooked(begin, now, t.claims, t.ran, t.escalated, true, Flatten(t.batches))
    && (!t.blocked ==> AllContinue(t.processed))
  }

  /** At the head of the loop. */
  ghost predicate InLoop(begin: Book, now: Book, t: Tally, maxTasks: int) {
    Kept(begin, now, t) && t.escalated == {} && Waiting(t.pending, t.completed, t.blocked, maxTasks)
  }

  /** An outcome is about to be handled. */
  ghost predicate Filled(begin: Book, now: Book, t: Tally, maxTasks: int) {
    && Kept(begin, now, t) && Handling(t.pending, t.completed, t.blocked, maxTasks)
    && (t.escalated != {} ==> |t.pending| == 1 && !t.pending[0].Continues())
  }

  ghost predicate Over(begin: Book, now: Book, t: Tally, exit: Exit, maxTasks: int) {
    && exit.FromLoop() && EndsProperly(t.batches, t.runs, t.completed, exit, maxTasks)
    && RunBooked(begin, now, t.claims, t.ran, t.escalated, !exit.Crashed?, Flatten(t.batches))
  }

  /** The first half of a turn of the loop: if nothing is pending, the next batch. */
  method Fill(store: Store, config: Config, parallelism: int, maxTasks: int, around: Surroundings, world: World, k: nat,
              ghost begin: Book, t: Tally)
    returns (exit: Option<Exit>, next: Tally, used: nat)
    requires store.Valid() && parallelism >= 1 && (parallelism > 1 ==> !config.threeHead)
    requires InLoop(begin, store.Contents(), t, maxTasks) && (maxTasks <= 0 || t.completed < maxTasks)
    modifies store
    ensures store.Valid()
    ensures exit.Some? ==> Over(begin, store.Contents(), next, exit.value, maxTasks) && EndOfQueue(exit.value, store.specs, store.status, around)
    ensures exit.None? ==> Filled(begin, store.Contents(), next, maxTasks) && next.blocked == t.blocked
    ensures exit.None? && t.pending != [] ==> next == t && store.Contents() == old(store.Contents())
    ensures exit.None? && t.pending == [] ==> !t.blocked && QueuedIds(store.status) <= old(QueuedIds(store.status))
    ensures exit.None? && t.pending == [] && next.pending[0].Continues() ==>
      QueuedIds(store.status) < old(QueuedIds(store.status))
  {
    hide Bookkeeping, EndsProperly, Handling, Waiting, QueuedIds, NothingReady, HandoffMeans, FinalHandoff, RunBooked, BatchBooked, RoomyBatch, AllContinue, EscalatedBy, Flatten;
    if t.pending != [] {
      WaitingCanBeHandled(t.pending, t.completed, t.blocked, maxTasks);
      return None, t, 0;
    }
    NothingPending(t.batches, t.processed, t.pending, t.runs, t.completed, t.blocked, t.first, maxTasks);
    ghost var now := store.Contents();
    var batch, claimed, more;
    batch, used, claimed, more :=
      NextBatch(store, config, parallelism, maxTasks, world, k, t.batches, t.processed, t.runs, t.completed, t.first);
    NextBooked(begin, now, store.Contents(), t.claims, t.ran, Flatten(t.batches), claimed, more, batch);
    next := t.(claims := t.claims + claimed, ran := t.ran + more, escalated := EscalatedBy(claimed, batch));
    if batch.None? {
      assert Flatten(t.batches) + [] == Flatten(t.batches);
      EndCrashed(t.batches, t.processed, t.runs, t.completed, t.first, maxTasks);
      return Some(Crashed), next, used;
    }
    var pending := batch.value;
    FlattenNext(t.batches, pending);
    next := next.(batches := t.batches + [pending], pending := pending);
    if !pending[0].IsRun() {
      HandoffExactlyWhen(store.status, around);
      exit := Some(if pending[0].dependencyBlocked then NoneRunnable
                   else if around.finalAudit then HandedOff(FinalHandoff(store.status, around)) else QueueEmpty);
      EndWithoutEvent(next.batches, t.processed, pending[0], t.runs, t.completed, t.first, exit.value, maxTasks);
      return;
    }
    WhoIsEscalated(now, store.Contents(), claimed, more, pending);
    exit := None;
  }

  /** What the store looks like at the ends that speak of it. */
  ghost predicate EndOfQueue(exit: Exit, specs: seq<Spec>, status: Statuses, around: Surroundings) {
    && (exit.QueueEmpty? || exit.HandedOff? ==> QueuedIds(status) == {})
    && (exit.NoneRunnable? ==> QueuedIds(status) != {} && NothingReady(specs, status))
    && (exit.HandedOff? ==> around.finalAudit && HandoffMeans(exit.handoff, status, around))
    && (exit.QueueEmpty? ==> !around.finalAudit)
  }

  /** The second half: one outcome is handled. */
  method HandleOne(maxTasks: int, ghost begin: Book, ghost now: Book, t: Tally) returns (exit: Option<Exit>, next: Tally)
    requires Filled(begin, now, t, maxTasks)
    ensures exit.Some? ==> Over(begin, now, next, exit.value, maxTasks)
    ensures exit.Some? ==> exit.value.CriticStopped? || exit.value.ReviewRequested? || exit.value.TaskBlocked?
    ensures exit.None? ==> InLoop(begin, now, next, maxTasks) && next.pending == t.pending[1..]
    ensures exit.None? ==> (next.blocked <==> t.blocked || t.pending[0].Blocked()) && (t.pending[0].Blocked() || t.pending[0].Continues())
  {
    hide Bookkeeping, EndsProperly, Waiting, RunBooked, AllContinue, Flatten;
    var runs, completed, blocked, first;
    exit, runs, completed, blocked, first :=
      Handle(t.batches, t.processed, t.pending, t.runs, t.completed, t.blocked, t.first, maxTasks);
    next := t.(runs := runs, completed := completed, blocked := blocked, first := first);
    if exit.None? {
      OneMoreContinues(t.processed, t.pending[0]);
      next := next.(processed := t.processed + [t.pending[0]], pending := t.pending[1..]);
    }
  }

  /** The loop proper. With `maxTasks <= 0` it still ends: nothing is enqueued meanwhile, so either
      some outcome is blocked or the set of queued tasks shrinks. */
  method Loop(store: Store, config: Config, parallelism: int, maxTasks: int, around: Surroundings, world: World)
    returns (exit: Exit, t: Tally)
    requires store.Valid() && parallelism >= 1 && (parallelism > 1 ==> !config.threeHead)
    modifies store
    ensures store.Valid() && Over(old(store.Contents()), store.Contents(), t, exit, maxTasks)
    ensures EndOfQueue(exit, store.specs, store.status, around)
  {
    hide InLoop, Filled, Over, QueuedIds;
    ghost var begin := store.Contents();
    t := Tally([], [], [], [], 0, false, None, [], [], {});
    EmptyTally(begin, maxTasks);
    var k := 0;
    while maxTasks <= 0 || t.completed < maxTasks
      invariant store.Valid() && InLoop(begin, store.Contents(), t, maxTasks)
      decreases !t.blocked, QueuedIds(store.status), |t.pending|
    {
      var stop, used;
      stop, t, used := Fill(store, config, parallelism, maxTasks, around, world, k, begin, t);
      if stop.Some? {
        return stop.value, t;
      }
      k := k + used;
      FilledIsPending(begin, store.Contents(), t, maxTasks);
      stop, t := HandleOne(maxTasks, begin, store.Contents(), t);
      if stop.Some? {
        return stop.value, t;
      }
    }
    exit := LimitReached;
    EndAtLimit(begin, store.Contents(), t, maxTasks);
  }

  lemma EmptyTally(begin: Book, maxTasks: int)
    ensures InLoop(begin, begin, Tally([], [], [], [], 0, false, None, [], [], {}), maxTasks)
  {
    hide RunBooked;
    NothingYet(maxTasks);
    NothingRun(begin);
    AllOfNothing();
  }

  lemma FilledIsPending(begin: Book, now: Book, t: Tally, maxTasks: int)
    requires Filled(begin, now, t, maxTasks)
    ensures t.pending != []
  {
  }

  lemma EndAtLimit(begin: Book, now: Book, t: Tally, maxTasks: int)
    requires InLoop(begin, now, t, maxTasks) && t.completed >= maxTasks > 0
    ensures Over(begin, now, t, LimitReached, maxTasks)
  {
    hide Bookkeeping, EndsProperly, RunBooked, Flatten;
    FullMeansProcessed(t.pending, t.completed, t.blocked, maxTasks);
    EndProcessed(t.batches, t.processed, t.runs, t.completed, t.blocked, t.first, LimitReached, maxTasks);
  }

  lemma AllOfNothing()
    ensures AllContinue([]) && Flatten([]) == []
  {
  }

  lemma OneMoreContinues(processed: seq<Outcome>, o: Outcome)
    ensures AllContinue(processed) && o.Continues() ==> AllContinue(processed + [o])
  {
  }

  /** Between batches everything returned has been handled. */
  lemma NothingPending(batches: seq<seq<Outcome>>, processed: seq<Outcome>, pending: seq<Outcome>, runs: seq<RunEvent>,
                       completed: nat, blocked: bool, first: Option<Id>, maxTasks: int)
    requires Bookkeeping(batches, processed, pending, runs, completed, blocked, first) && pending == []
    requires Waiting(pending, completed, blocked, maxTasks)
    ensures !blocked && Flatten(batches) == processed
  {
  }

  lemma FlattenNext(batches: seq<seq<Outcome>>, pending: seq<Outcome>)
    ensures Flatten(batches + [pending]) == Flatten(batches) + pending
  {
    assert (batches + [pending])[..|batches|] == batches;
  }

  /** Only a sole outcome that the loop does not go on after tells of an escalation. */
  lemma WhoIsEscalated(before: Book, after: Book, claimed: seq<Id>, ran: seq<Outcome>, pending: seq<Outcome>)
    requires pending != [] && BatchBooked(before, after, claimed, ran, Some(pending))
    ensures EscalatedBy(claimed, Some(pending)) != {} ==> |pending| == 1 && !pending[0].Continues()
  {
    hide Booked;
  }

  lemma EndCrashed(batches: seq<seq<Outcome>>, processed: seq<Outcome>, runs: seq<RunEvent>, completed: nat, first: Option<Id>, maxTasks: int)
    requires Bookkeeping(batches, processed, [], runs, completed, false, first)
    requires maxTasks > 0 ==> completed <= maxTasks
    ensures EndsProperly(batches, runs, completed, Crashed, maxTasks)
  {
    EndProcessed(batches, processed, runs, completed, false, first, Crashed, maxTasks);
  }

  /** Some task waits for its review, for rework or for a decision on its escalation. */
  ghost predicate SomeAwaits(status: Statuses) {
    exists id :: id in status && (status[id] == Escalated || status[id] == ReworkRequired || status[id] == ReviewPending)
  }

  /** The first of escalated, rework required and review pending that some task is in. */
  ghost predicate MostUrgent(s: Status, status: Statuses) {
    && (s == Escalated || s == ReworkRequired || s == ReviewPending)
    && (exists id :: id in status && status[id] == s)
    && (s != Escalated ==> forall id | id in status :: status[id] != Escalated)
    && (s == ReviewPending ==> forall id | id in status :: status[id] != ReworkRequired)
  }

  lemma AwaitingTasks(status: Statuses)
    ensures SomeIn(status, {ReviewPending, ReworkRequired, Escalated}) <==> SomeAwaits(status)
    ensures SomeAwaits(status) ==>
      MostUrgent(if SomeIn(status, {Escalated}) then Escalated
                 else if SomeIn(status, {ReworkRequired}) then ReworkRequired else ReviewPending, status)
  {
  }

  /** `_queue_run_loop`: the checks before the loop, then the loop. */
  method QueueRunLoop(store: Store, config: Config, requested: int, isolated: bool, maxTasks: int,
                      around: Surroundings, world: World)
    returns (exit: Exit, t: Tally)
    requires store.Valid()
    modifies store
    ensures store.Valid()
    ensures EndsProperly(t.batches, t.runs, t.completed, exit, maxTasks)
    ensures RunBooked(old(store.Contents()), store.Contents(), t.claims, t.ran, t.escalated, !exit.Crashed?, Flatten(t.batches))
    ensures exit.InvalidParallelism? <==> requested < 1
    ensures exit.InvalidNotifier? <==> requested >= 1 && !around.notifierValid
    ensures exit.StateError? <==> requested >= 1 && around.notifierValid && !around.storeReadable
    ensures !exit.FromLoop() ==> store.Contents() == old(store.Contents()) && t.batches == [] && t.claims == []
    ensures exit.QueueEmpty? || exit.HandedOff? ==> QueuedIds(store.status) == {}
    ensures exit.NoneRunnable? ==> QueuedIds(store.status) != {} && NothingReady(store.specs, store.status)
    ensures exit.NoneRunnable? ==> SomethingStuck(store.specs, store.status)
    ensures exit.Code() == 0 ==> !AnyBlocked(Flatten(t.batches))
    ensures exit.HandedOff? ==> around.finalAudit && HandoffMeans(exit.handoff, store.status, around)
    ensures exit.QueueEmpty? ==> !around.finalAudit
    ensures exit.StaleTasks? <==> requested >= 1 && around.notifierValid && around.storeReadable && around.staleRunning
    ensures var waiting := config.threeHead && SomeAwaits(old(store.status));
      exit.AwaitsDecision? <==>
        requested >= 1 && around.notifierValid && around.storeReadable && !around.staleRunning && waiting
    ensures exit.AwaitsDecision? ==> MostUrgent(exit.status, store.status)
    ensures exit.Code() ==
      if exit.QueueEmpty? || exit.ReviewRequested? || exit.LimitReached? || exit == AwaitsDecision(ReviewPending) || exit == HandedOff(Handed)
      then 0 else 1
  {
    hide RunBooked, SomethingStuck, NothingReady, QueuedIds, HandoffMeans;
    t := Tally([], [], [], [], 0, false, None, [], [], {});
    NothingRun(store.Contents());
    AllOfNothing();
    AwaitingTasks(store.status);
    hide SomeIn, SomeAwaits, MostUrgent;
    if requested < 1 {
      exit := InvalidParallelism;
    } else if !around.notifierValid {
      exit := InvalidNotifier;
    } else if !around.storeReadable {
      exit := StateError;
    } else if around.staleRunning {
      exit := StaleTasks;
    } else if config.threeHead && SomeIn(store.status, {ReviewPending, ReworkRequired, Escalated}) {
      exit := AwaitsDecision(
        if SomeIn(store.status, {Escalated}) then Escalated
        else if SomeIn(store.status, {ReworkRequired}) then ReworkRequired else ReviewPending);
    } else {
      var parallelism := if isolated && !config.threeHead then requested else 1;
      exit, t := Loop(store, config, parallelism, maxTasks, around, world);
      if exit.NoneRunnable? {
        BlockedQueueHasStuckTask(store.specs, store.status);
      }
    }
  }

  /** Over the whole run: no task is claimed twice, every claimed task that took its turn is settled
      exactly once if and only if it is reported as blocked on reconciliation just when the ledger
      recorded its result, and every other task is as it was, or recorded or rolled back by the ledger, or
      escalated. */
  lemma RunSettlesOnceExactlyWhen(begin: Book, end: Book, claims: seq<Id>, ran: seq<Outcome>, escalated: set<Id>, returned: bool, all: seq<Outcome>, j: nat)
    requires RunBooked(begin, end, claims, ran, escalated, returned, all) && j < |ran|
    ensures NoDuplicates(claims) && begin.settled <= end.settled && j < |claims|
    ensures Times(News(begin, end), claims[j]) == 1
       <==> (IsBlocked(ran[j]) <==> Reconciliations(News(begin, end), claims[j]) == 1)
    ensures forall id | id in begin.status && id !in claims ::
      id in end.status && Untouched(begin, end, News(begin, end), id, escalated)
  {
    SettledOnceExactlyWhen(begin, end, claims, ran, escalated, returned, j);
  }
}
