// The scheduler loop of src/llm_harness/cli.py: `_run_next_queued_task`, `_run_ready_batch`,
// `_queue_run_loop` and the verdict of `_final_audit_handoff`.

module Scheduler {
  import opened Prelude
  import opened TaskGraph
  import opened TaskStore
  import opened TaskRuns
  import opened Accounts

  /** The reconciliation before anything is claimed. */
  datatype Startup = LeaseBusy | Reconciles(report: Report)

  /** What the world answers at one step: the start-up reconciliation, whether attaching review bundles
      left over raises, whether claiming is refused because the state lease is busy, whether the start of
      a batch could be journalled, and what becomes of the task claimed. */
  datatype Answers = Answers(startup: Startup, setupRaised: bool, claimRefused: bool, startRecorded: bool, attempt: Attempt)

  type World = nat -> Answers

  datatype Config = Config(threeHead: bool, maxAttempts: nat)

  /** The most urgent ready task. */
  ghost predicate Selected(specs: seq<Spec>, status: Statuses, i: nat) {
    && i < |specs| && Ready(specs[i], status)
    && forall j: nat | j < |specs| && Ready(specs[j], status) && j != i :: Before(specs, i, j)
  }

  /** The task a sole outcome reports as escalated at its attempt limit. */
  function EscalatedBy(claimed: seq<Id>, outcomes: Option<seq<Outcome>>): set<Id> {
    if claimed == [] && outcomes.Some? && |outcomes.value| == 1 && outcomes.value[0].lifecycle == AttemptLimit
      && outcomes.value[0].task.Some?
    then {outcomes.value[0].task.value} else {}
  }

  /** The account of a batch: `ran` are the outcomes of the claimed tasks that took their turn, and
      `outcomes` what the batch returns, or None where an exception leaves it. Apart from the claimed
      tasks, tasks change only by the ledger's records and rollbacks and the one escalation. */
  ghost predicate BatchBooked(before: Book, after: Book, claimed: seq<Id>, ran: seq<Outcome>, outcomes: Option<seq<Outcome>>) {
    && (forall id | id in claimed :: id in before.status && before.status[id] == Queued)
    && Booked(before, after, claimed, ran, EscalatedBy(claimed, outcomes), outcomes.Some?)
    && (outcomes.Some? ==> if claimed == [] then |outcomes.value| == 1 && ran == [] && !outcomes.value[0].Continues() else outcomes.value == ran)
  }

  lemma QueuedBefore(before: Book, after: Book, claimed: seq<Id>)
    requires OnlyReconciled(before, after)
    requires forall id | id in claimed :: id in after.status && after.status[id] == Queued
    ensures forall id | id in claimed :: id in before.status && before.status[id] == Queued
  {
    forall id | id in claimed ensures id in before.status && before.status[id] == Queued {
      assert Untouched(before, after, News(before, after), id, {});
    }
  }

  /** What the start-up reconciliation completes is part of the account. */
  lemma AfterStartup(a: Book, b: Book, c: Book, claimed: seq<Id>, ran: seq<Outcome>, outcomes: Option<seq<Outcome>>)
    requires OnlyReconciled(a, b) && BatchBooked(b, c, claimed, ran, outcomes)
    ensures BatchBooked(a, c, claimed, ran, outcomes)
  {
    QueuedBefore(a, b, claimed);
    ReconciledBooked(a, b, true);
    hide Booked, OnlyReconciled;
    BookedInARow(a, b, c, [], [], claimed, ran, EscalatedBy(claimed, outcomes), outcomes.Some?);
    assert [] + claimed == claimed && [] + ran == ran;
  }

  /** A batch that claims nothing and escalates nothing. */
  lemma NothingClaimed(book: Book, outcomes: Option<seq<Outcome>>)
    requires outcomes.Some? ==>
      |outcomes.value| == 1 && outcomes.value[0].lifecycle != AttemptLimit && !outcomes.value[0].Continues()
    ensures BatchBooked(book, book, [], [], outcomes)
  {
    NothingNew(book);
    ReconciledBooked(book, book, outcomes.Some?);
  }

  lemma OneEscalated(book: Book, id: Id)
    requires id in book.status && book.status[id] == Queued
    ensures BatchBooked(book, book.(status := book.status[id := Escalated]), [], [],
                        Some([RaisedOutcome(Some(id), None, AttemptLimit)]))
  {
    assert News(book, book.(status := book.status[id := Escalated])) == [];
    CountsOfOne(Requeued(id));
  }

  lemma OneRunning(status: Statuses, id: Id)
    ensures status[id := Running] == WithStatus(status, [id], Running)
  {
  }

  /** One task claimed and run. */
  lemma OneBooked(before: Book, id: Id, attempt: Attempt, threeHead: bool)
    requires id in before.status && before.status[id] == Queued
    ensures var turn := TaskTurn(Book(before.status[id := Running], before.settled), id, attempt, threeHead, false);
      && (turn.outcome.Some? ==> BatchBooked(before, turn.book, [id], [turn.outcome.value], Some([turn.outcome.value])))
      && (turn.outcome.None? ==> BatchBooked(before, turn.book, [id], [], None))
  {
    hide TaskTurn, WithStatus, Booked, StepShape;
    var started := Book(before.status[id := Running], before.settled);
    OneRunning(before.status, id);
    TurnShape(started, id, attempt, threeHead, false);
    NothingBooked(started);
    var turn := TaskTurn(started, id, attempt, threeHead, false);
    BookedStep(started, started, turn.book, [], [], id, turn.outcome);
    assert [] + [id] == [id];
    if turn.outcome.Some? {
      assert [] + [turn.outcome.value] == [turn.outcome.value];
      BookedSinceClaim(before, turn.book, [id], [turn.outcome.value], {}, true);
    } else {
      BookedSinceClaim(before, turn.book, [id], [], {}, false);
    }
  }

  /** What becomes of the selected task: a refused claim leaves it queued, one at its attempt limit is escalated
      under three-head review, and otherwise it is claimed and takes its turn. */
  ghost predicate Claimed(id: Id, book: Book, attempts: nat, config: Config, answers: Answers,
                          outcome: Option<Outcome>, claimed: seq<Id>, after: Book) {
    if answers.claimRefused then
      claimed == [] && after == book && outcome == Some(RaisedOutcome(Some(id), None, ClaimContended))
    else if config.threeHead && attempts >= config.maxAttempts then
      && claimed == [] && after == book.(status := book.status[id := Escalated])
      && outcome == Some(RaisedOutcome(Some(id), None, AttemptLimit))
    else
      && claimed == [id]
      && Turn(after, outcome) == TaskTurn(Book(book.status[id := Running], book.settled), id, answers.attempt, config.threeHead, false)
  }

  /** Claim the selected task `i`, run it and settle it. */
  method ClaimAndRun(store: Store, config: Config, answers: Answers, i: nat)
    returns (outcome: Option<Outcome>, claimed: seq<Id>, ran: seq<Outcome>)
    requires store.Valid() && Selected(store.specs, store.status, i)
    modifies store
    ensures store.Valid() && AboutTasks(outcome)
    ensures BatchBooked(old(store.Contents()), store.Contents(), claimed, ran, AsBatch(outcome))
    ensures var id := store.specs[i].id;
      Claimed(id, old(store.Contents()), old(store.attempts)[id], config, answers, outcome, claimed, store.Contents())
  {
    hide Booked, BatchBooked, TaskTurn;
    var id := store.specs[i].id;
    if answers.claimRefused {
      outcome := Some(RaisedOutcome(Some(id), None, ClaimContended));
      NothingClaimed(store.Contents(), AsBatch(outcome));
      return outcome, [], [];
    }
    if config.threeHead && store.attempts[id] >= config.maxAttempts {
      OneEscalated(store.Contents(), id);
      store.Escalate(i);
      return Some(RaisedOutcome(Some(id), None, AttemptLimit)), [], [];
    }
    OneBooked(store.Contents(), id, answers.attempt, config.threeHead);
    OutcomeIsRun(Book(store.status[id := Running], store.settled), id, answers.attempt, config.threeHead, false);
    store.MarkRunning(i);
    outcome := RunTask(store, id, answers.attempt, config.threeHead, false);
    claimed, ran := [id], if outcome.Some? then [outcome.value] else [];
  }

  /** The outcome is about a task, or says that nothing could be claimed. */
  predicate AboutTasks(outcome: Option<Outcome>) {
    outcome.Some? ==> outcome.value.IsRun()
  }

  function AsBatch(outcome: Option<Outcome>): Option<seq<Outcome>> {
    if outcome.Some? then Some([outcome.value]) else None
  }

  lemma OutcomeIsRun(book: Book, id: Id, attempt: Attempt, threeHead: bool, batched: bool)
    ensures var outcome := TaskTurn(book, id, attempt, threeHead, batched).outcome;
      && AboutTasks(outcome)
      && (outcome.Some? && !threeHead ==> outcome.value.critic.None? && !outcome.value.bundle)
  {
    hide Reconcile;
  }

  /** The book after the start-up reconciliation. */
  function Started(book: Book, answers: Answers): Book {
    if answers.startup.LeaseBusy? then book else Reconcile(book, answers.startup.report.found).book
  }

  /** The start-up reconciliation is done, leaves nothing unresolved, and no review bundle is missing after it. */
  predicate StartsWell(book: Book, config: Config, answers: Answers) {
    && answers.startup.Reconciles? && Reconcile(book, answers.startup.report.found).ok
    && !answers.startup.report.unresolved && !(config.threeHead && answers.setupRaised)
  }

  /** What is returned otherwise, or None where an exception leaves the scheduler. */
  function NotStarted(book: Book, answers: Answers): Option<Outcome> {
    if answers.startup.LeaseBusy? then Some(RaisedOutcome(None, None, ClaimContended))
    else if Reconcile(book, answers.startup.report.found).ok && answers.startup.report.unresolved
    then Some(RaisedOutcome(None, None, ReconciliationBlocked))
    else None
  }

  /** The reconciliation before a claim: None if it is in order, and otherwise what the batch returns. */
  method Start(store: Store, config: Config, answers: Answers) returns (ended: bool, outcome: Option<Outcome>)
    requires store.Valid()
    modifies store`status, store`settled
    ensures store.Valid() && OnlyReconciled(old(store.Contents()), store.Contents())
    ensures store.Contents() == Started(old(store.Contents()), answers)
    ensures ended <==> !StartsWell(old(store.Contents()), config, answers)
    ensures ended ==> AboutTasks(outcome) && outcome == NotStarted(old(store.Contents()), answers)
    ensures ended && outcome.Some? ==> outcome.value.raised && outcome.value.task.None? && outcome.value.lifecycle != AttemptLimit
  {
    hide OnlyReconciled;
    if answers.startup.LeaseBusy? {
      NothingNew(store.Contents());
      return true, Some(RaisedOutcome(None, None, ClaimContended));
    }
    ReconcileOnlyReconciles(store.Contents(), answers.startup.report.found);
    var ok := ReconcileLedger(store, answers.startup.report.found);
    if !ok {
      return true, None;
    }
    if answers.startup.report.unresolved {
      return true, Some(RaisedOutcome(None, None, ReconciliationBlocked));
    }
    return config.threeHead && answers.setupRaised, None;
  }

  /** What one call comes to: it ends with the start-up reconciliation, or it finds no ready task and tells
      whether any is queued, or the most urgent ready task is claimed. */
  ghost predicate Next(specs: seq<Spec>, before: Book, attempts: map<Id, nat>, config: Config, answers: Answers,
                       outcome: Option<Outcome>, claimed: seq<Id>, after: Book) {
    var started := Started(before, answers);
    if !StartsWell(before, config, answers) then
      claimed == [] && after == started && outcome == NotStarted(before, answers)
    else if NothingReady(specs, started.status) then
      && claimed == [] && after == started
      && outcome == Some(if QueuedIds(started.status) == {}
                         then Outcome(true, false, None, None, false, false, None, NothingQueued)
                         else Outcome(false, true, None, None, true, false, None, WaitingForDependencies))
    else
      exists i: nat :: Selected(specs, started.status, i) && specs[i].id in attempts
        && Claimed(specs[i].id, started, attempts[specs[i].id], config, answers, outcome, claimed, after)
  }

  lemma SelectedIsReady(specs: seq<Spec>, status: Statuses, i: nat)
    requires Selected(specs, status, i)
    ensures !NothingReady(specs, status)
  {
  }

  /** `_run_next_queued_task`: at most one task, claimed and settled. */
  method RunNext(store: Store, config: Config, answers: Answers)
    returns (outcome: Option<Outcome>, claimed: seq<Id>, ran: seq<Outcome>)
    requires store.Valid()
    modifies store
    ensures store.Valid()
    ensures BatchBooked(old(store.Contents()), store.Contents(), claimed, ran, AsBatch(outcome))
    ensures Next(store.specs, old(store.Contents()), old(store.attempts), config, answers, outcome, claimed, store.Contents())
    ensures outcome.Some? ==> outcome.value.IsRun() || outcome.value.empty || outcome.value.dependencyBlocked
    ensures outcome.Some? && outcome.value.empty ==> QueuedIds(store.status) == {}
    ensures outcome.Some? && outcome.value.dependencyBlocked ==>
      QueuedIds(store.status) != {} && NothingReady(store.specs, store.status)
  {
    hide BatchBooked, OnlyReconciled, Selected, IsSchedule, QueuedIds, NothingReady, WaitingTasks, Waits, Started, StartsWell,
         NotStarted, Claimed;
    claimed, ran := [], [];
    ghost var before := store.Contents();
    var ended;
    ended, outcome := Start(store, config, answers);
    ghost var started := store.Contents();
    if ended {
      NothingClaimed(started, AsBatch(outcome));
      AfterStartup(before, started, started, [], [], AsBatch(outcome));
      return;
    }
    var ready, waiting := store.Schedule();
    if ready == [] {
      NoneReady(store.specs, store.status);
      WaitingMeaning(store.specs, store.status);
      store.QueuedIfWaiting();
      var blocked := waiting != [];
      outcome := Some(Outcome(!blocked, blocked, None, None, blocked, false, None,
                              if blocked then WaitingForDependencies else NothingQueued));
      NothingClaimed(started, AsBatch(outcome));
    } else {
      FirstIsSelected(store.specs, store.status, ready);
      SelectedIsReady(store.specs, store.status, ready[0]);
      outcome, claimed, ran := ClaimAndRun(store, config, answers, ready[0]);
    }
    AfterStartup(before, started, store.Contents(), claimed, ran, AsBatch(outcome));
  }

  lemma NoneReady(specs: seq<Spec>, status: Statuses)
    requires IsSchedule(specs, status, [])
    ensures NothingReady(specs, status)
  {
    forall i | 0 <= i < |specs| ensures !Ready(specs[i], status) {
      assert (i as nat) !in [];
    }
  }

  lemma FirstIsSelected(specs: seq<Spec>, status: Statuses, ready: seq<nat>)
    requires IsSchedule(specs, status, ready) && ready != []
    ensures Selected(specs, status, ready[0])
  {
    assert ready[0] in ready;
    forall j: nat | j < |specs| && Ready(specs[j], status) && j != ready[0] ensures Before(specs, ready[0], j) {
      var a :| 0 <= a < |ready| && ready[a] == j;
    }
  }

  // ----- several tasks together -----

  /** Claimed tasks that did not get their turn are part of the account too. */
  lemma ClaimedToo(a: Book, b: Book, claimed: seq<Id>, all: seq<Id>, outcomes: seq<Outcome>)
    requires Booked(a, b, claimed, outcomes, {}, false) && claimed <= all && NoDuplicates(all)
    requires forall id | id in all :: id in a.status && a.status[id] == Running
    ensures Booked(a, b, all, outcomes, {}, false)
  {
    var news := News(a, b);
    DuePrefix(claimed, all, outcomes);
    hide News, Reconciliations, Rollbacks, OwnIds, Untouched, Ended, Due;
    assert OwnSettled(OwnIds(news), all, outcomes, false);
    forall x ensures ReconciledProperly(a, b, news, x, all) {
      assert ReconciledProperly(a, b, news, x, claimed);
    }
    forall j | 0 <= j < |outcomes| ensures all[j] in b.status && Ended(b, news, all[j], outcomes[j]) {
      assert all[j] == claimed[j];
    }
  }

  lemma NoneRan(book: Book, claimed: seq<Id>)
    requires NoDuplicates(claimed) && forall id | id in claimed :: id in book.status && book.status[id] == Running
    ensures Booked(book, book, claimed, [], {}, false)
  {
    assert News(book, book) == [];
  }

  predicate Plain(outcomes: seq<Outcome>) {
    forall o | o in outcomes :: o.IsRun() && o.critic.None? && !o.bundle
  }

  /** The turns of several claimed tasks in a row, each with its own answers, until one raises: the book, the
      outcomes, and whether all took their turn. */
  function TurnsInARow(book: Book, ids: seq<Id>, world: World, k: nat): (Book, seq<Outcome>, bool) {
    if ids == [] then (book, [], true)
    else
      var n := |ids| - 1;
      var (middle, outcomes, all) := TurnsInARow(book, ids[..n], world, k);
      if !all then (middle, outcomes, false)
      else
        var turn := TaskTurn(middle, ids[n], world(k + n).attempt, false, true);
        (turn.book, if turn.outcome.Some? then outcomes + [turn.outcome.value] else outcomes, turn.outcome.Some?)
  }

  lemma NextTurn(book: Book, ids: seq<Id>, world: World, k: nat, j: nat)
    requires j < |ids|
    ensures var (middle, outcomes, all) := TurnsInARow(book, ids[..j], world, k);
      all ==>
        var turn := TaskTurn(middle, ids[j], world(k + j).attempt, false, true);
        TurnsInARow(book, ids[..j + 1], world, k)
          == (turn.book, if turn.outcome.Some? then outcomes + [turn.outcome.value] else outcomes, turn.outcome.Some?)
  {
    hide TaskTurn;
    assert ids[..j + 1][..j] == ids[..j];
  }

  lemma {:induction false} StoppedTurns(book: Book, ids: seq<Id>, world: World, k: nat, j: nat)
    requires j <= |ids| && !TurnsInARow(book, ids[..j], world, k).2
    ensures TurnsInARow(book, ids, world, k) == TurnsInARow(book, ids[..j], world, k)
    decreases |ids|
  {
    hide TaskTurn;
    if j < |ids| {
      var n := |ids| - 1;
      assert ids[..n][..j] == ids[..j];
      StoppedTurns(book, ids[..n], world, k, j);
    } else {
      assert ids[..j] == ids;
    }
  }

  lemma NoTurns(book: Book, world: World, k: nat)
    ensures TurnsInARow(book, [], world, k) == (book, [], true)
  {
  }

  /** The claimed tasks take their turns in claim order, until an exception leaves the scheduler. */
  method RunEach(store: Store, ids: seq<Id>, world: World, k: nat)
    returns (outcomes: Option<seq<Outcome>>, ran: seq<Outcome>)
    requires store.Valid() && NoDuplicates(ids) && ids != []
    requires forall id | id in ids :: id in store.status && store.status[id] == Running
    modifies store`status, store`settled
    ensures store.Valid()
    ensures Booked(old(store.Contents()), store.Contents(), ids, ran, {}, outcomes.Some?)
    ensures outcomes.Some? ==> outcomes.value == ran && |ran| == |ids| && Plain(ran)
    ensures (store.Contents(), ran, outcomes.Some?) == TurnsInARow(old(store.Contents()), ids, world, k)
  {
    hide Booked, TaskTurn, StepShape, TurnsInARow;
    ghost var before := store.Contents();
    NothingBooked(before);
    NoTurns(before, world, k);
    var returned: seq<Outcome> := [];
    assert ids[..0] == [] && ids[..|ids|] == ids;
    for j := 0 to |ids|
      invariant store.Valid() && store.status.Keys == old(store.status).Keys
      invariant Booked(before, store.Contents(), ids[..j], returned, {}, true) && |returned| == j && Plain(returned)
      invariant TurnsInARow(before, ids[..j], world, k) == (store.Contents(), returned, true)
    {
      ghost var middle := store.Contents();
      assert ids[j] in ids && ids[..j] + [ids[j]] == ids[..j + 1];
      NotYet(ids, j);
      NextTurn(before, ids, world, k, j);
      TurnShape(middle, ids[j], world(k + j).attempt, false, true);
      OutcomeIsRun(middle, ids[j], world(k + j).attempt, false, true);
      var outcome := RunTask(store, ids[j], world(k + j).attempt, false, true);
      BookedStep(before, middle, store.Contents(), ids[..j], returned, ids[j], outcome);
      KeysKept(before, store.Contents(), ids[..j + 1], if outcome.Some? then returned + [outcome.value] else returned, outcome.Some?);
      if outcome.None? {
        ClaimedToo(before, store.Contents(), ids[..j + 1], ids, returned);
        StoppedTurns(before, ids, world, k, j + 1);
        return None, returned;
      }
      returned := returned + [outcome.value];
    }
    return Some(returned), returned;
  }

  lemma NotYet(ids: seq<Id>, j: nat)
    requires j < |ids| && NoDuplicates(ids)
    ensures ids[j] !in ids[..j]
  {
  }

  lemma KeysKept(a: Book, b: Book, claimed: seq<Id>, outcomes: seq<Outcome>, returned: bool)
    requires Booked(a, b, claimed, outcomes, {}, returned)
    ensures a.status.Keys == b.status.Keys
  {
  }

  /** What the loop relies on. */
  ghost predicate BatchShape(before: Statuses, after: Statuses, limit: int, outcomes: seq<Outcome>) {
    && 1 <= |outcomes| && (|outcomes| <= limit || |outcomes| == 1)
    && (|outcomes| > 1 ==> Plain(outcomes))
    && QueuedIds(after) <= QueuedIds(before)
    && (outcomes[0].Continues() ==> QueuedIds(after) < QueuedIds(before))
    && (outcomes[0].IsRun() || outcomes[0].empty || outcomes[0].dependencyBlocked)
  }

  lemma ShapeOfBatch(before: Book, after: Book, claimed: seq<Id>, ran: seq<Outcome>, outcomes: seq<Outcome>, limit: int)
    requires BatchBooked(before, after, claimed, ran, Some(outcomes))
    requires |outcomes| == 1 || (|outcomes| <= limit && Plain(outcomes))
    requires outcomes != [] && (outcomes[0].IsRun() || outcomes[0].empty || outcomes[0].dependencyBlocked)
    ensures BatchShape(before.status, after.status, limit, outcomes)
  {
    hide Booked, Plain;
    QueueShrinks(before, after, claimed, ran, EscalatedBy(claimed, Some(outcomes)), true);
  }

  function Sole(outcomes: Option<seq<Outcome>>): Option<Outcome> {
    if outcomes.Some? && |outcomes.value| == 1 then Some(outcomes.value[0]) else None
  }

  /** One task, as by a single call. */
  ghost predicate SingleNext(specs: seq<Spec>, before: Book, attempts: map<Id, nat>, config: Config, answers: Answers,
                             outcomes: Option<seq<Outcome>>, claimed: seq<Id>, after: Book) {
    outcomes == AsBatch(Sole(outcomes)) && Next(specs, before, attempts, config, answers, Sole(outcomes), claimed, after)
  }

  /** Several tasks: a batch is claimed, unless the claim is refused, and its tasks take their turns, if its start
      could be journalled. */
  ghost predicate WideNext(specs: seq<Spec>, started: Book, world: World, k: nat, limit: nat, outcomes: Option<seq<Outcome>>,
                           claimed: seq<Id>, ran: seq<Outcome>, after: Book) {
    if world(k).claimRefused then claimed == [] && outcomes.None? && after == started
    else
      && (exists batch :: IsBatch(specs, started.status, limit, batch) && claimed == BatchIds(specs, batch))
      && var running := Book(WithStatus(started.status, claimed, Running), started.settled);
         if !world(k).startRecorded then after == running && outcomes.None? && ran == []
         else (after, ran, outcomes.Some?) == TurnsInARow(running, claimed, world, k + 1)
  }

  /** What one batch comes to, and how many answers of the world it uses. More than one task is claimed only if more than one can be scheduled together. */
  ghost predicate BatchNext(specs: seq<Spec>, before: Book, attempts: map<Id, nat>, config: Config, world: World, k: nat, limit: int,
                            outcomes: Option<seq<Outcome>>, used: nat, claimed: seq<Id>, ran: seq<Outcome>, after: Book) {
    if limit <= 1 then used == 1 && SingleNext(specs, before, attempts, config, world(k), outcomes, claimed, after)
    else if !StartsWell(before, config, world(k)) then
      used == 1 && claimed == [] && after == Started(before, world(k)) && outcomes == AsBatch(NotStarted(before, world(k)))
    else
      var started := Started(before, world(k));
      exists scheduled :: IsBatch(specs, started.status, limit, scheduled) &&
        if |scheduled| <= 1 then used == 2 && SingleNext(specs, started, attempts, config, world(k + 1), outcomes, claimed, after)
        else used == 1 + |scheduled| && WideNext(specs, started, world, k, limit, outcomes, claimed, ran, after)
  }

  lemma SoleOfOne(outcome: Option<Outcome>)
    ensures Sole(AsBatch(outcome)) == outcome
  {
  }

  /** `_run_ready_batch`: one task, or several disjoint ones claimed together; None where an exception
      leaves it. */
  method RunReadyBatch(store: Store, config: Config, world: World, k: nat, limit: int)
    returns (outcomes: Option<seq<Outcome>>, used: nat, claimed: seq<Id>, ran: seq<Outcome>)
    requires store.Valid() && (limit > 1 ==> !config.threeHead)
    modifies store
    ensures store.Valid()
    ensures BatchBooked(old(store.Contents()), store.Contents(), claimed, ran, outcomes)
    ensures outcomes.Some? ==> BatchShape(old(store.status), store.status, limit, outcomes.value)
    ensures BatchNext(store.specs, old(store.Contents()), old(store.attempts), config, world, k, limit, outcomes, used, claimed, ran,
                      store.Contents())
    ensures outcomes.Some? && outcomes.value[0].empty ==> QueuedIds(store.status) == {}
    ensures outcomes.Some? && outcomes.value[0].dependencyBlocked ==>
      QueuedIds(store.status) != {} && NothingReady(store.specs, store.status)
  {
    hide BatchBooked, OnlyReconciled, IsBatch, QueuedIds, NothingReady, BatchShape, Started, StartsWell, NotStarted, SingleNext, WideNext;
    claimed, ran := [], [];
    ghost var before := store.Contents();
    if limit <= 1 {
      outcomes, claimed, ran := RunSingle(store, config, world(k), limit);
      return outcomes, 1, claimed, ran;
    }
    var ended, sole := Start(store, config, world(k));
    ghost var started := store.Contents();
    if ended {
      outcomes := AsBatch(sole);
      NothingClaimed(started, outcomes);
      AfterStartup(before, started, started, [], [], outcomes);
      if outcomes.Some? {
        ShapeOfBatch(before, started, [], [], outcomes.value, limit);
      }
      return outcomes, 1, [], [];
    }
    var scheduled := store.ScheduleBatch(limit);
    if |scheduled| <= 1 {
      outcomes, claimed, ran := RunSingle(store, config, world(k + 1), limit);
      used := 2;
    } else {
      outcomes, claimed, ran := RunWide(store, world, k, limit, scheduled);
      used := 1 + |scheduled|;
    }
    AfterStartup(before, started, store.Contents(), claimed, ran, outcomes);
    if outcomes.Some? {
      ShapeAgain(before, started, store.Contents(), claimed, ran, outcomes.value, limit);
    }
  }

  lemma ShapeAgain(before: Book, started: Book, after: Book, claimed: seq<Id>, ran: seq<Outcome>, outcomes: seq<Outcome>, limit: int)
    requires BatchBooked(before, after, claimed, ran, Some(outcomes)) && BatchShape(started.status, after.status, limit, outcomes)
    ensures BatchShape(before.status, after.status, limit, outcomes)
  {
    hide BatchBooked, QueuedIds;
    ShapeOfBatch(before, after, claimed, ran, outcomes, limit);
  }

  /** Claiming the batch and journalling its start are not guarded. */
  method RunWide(store: Store, world: World, k: nat, limit: nat, ghost scheduled: seq<nat>)
    returns (outcomes: Option<seq<Outcome>>, claimed: seq<Id>, ran: seq<Outcome>)
    requires store.Valid() && IsBatch(store.specs, store.status, limit, scheduled) && |scheduled| > 1
    modifies store
    ensures store.Valid()
    ensures BatchBooked(old(store.Contents()), store.Contents(), claimed, ran, outcomes)
    ensures outcomes.Some? ==> BatchShape(old(store.status), store.status, limit, outcomes.value) && outcomes.value[0].IsRun()
    ensures WideNext(store.specs, old(store.Contents()), world, k, limit, outcomes, claimed, ran, store.Contents())
  {
    hide BatchShape, Booked, TurnsInARow;
    ghost var before := store.Contents();
    if world(k).claimRefused {
      NothingClaimed(before, None);
      return None, [], [];
    }
    var batch := store.ClaimBatch(limit);
    WideBatch(store.specs, old(store.status), limit, scheduled, batch);
    hide IsBatch, NoDuplicates;
    var ids := BatchIds(store.specs, batch);
    BatchIdsDistinct(store.specs, batch);
    ghost var started := store.Contents();
    assert started == Book(WithStatus(before.status, ids, Running), before.settled);
    if !world(k).startRecorded {
      NoneRan(started, ids);
      BookedSinceClaim(before, started, ids, [], {}, false);
      return None, ids, [];
    }
    outcomes, ran := RunEach(store, ids, world, k + 1);
    claimed := ids;
    BookedSinceClaim(before, store.Contents(), ids, ran, {}, outcomes.Some?);
    if outcomes.Some? {
      assert ran[0] in ran;
      ShapeOfBatch(before, store.Contents(), ids, ran, ran, limit);
    }
  }

  method RunSingle(store: Store, config: Config, answers: Answers, limit: int)
    returns (outcomes: Option<seq<Outcome>>, claimed: seq<Id>, ran: seq<Outcome>)
    requires store.Valid()
    modifies store
    ensures store.Valid()
    ensures BatchBooked(old(store.Contents()), store.Contents(), claimed, ran, outcomes)
    ensures outcomes.Some? ==> BatchShape(old(store.status), store.status, limit, outcomes.value)
    ensures SingleNext(store.specs, old(store.Contents()), old(store.attempts), config, answers, outcomes, claimed, store.Contents())
    ensures outcomes.Some? && outcomes.value[0].empty ==> QueuedIds(store.status) == {}
    ensures outcomes.Some? && outcomes.value[0].dependencyBlocked ==>
      QueuedIds(store.status) != {} && NothingReady(store.specs, store.status)
  {
    hide BatchBooked, BatchShape, QueuedIds, NothingReady, Next;
    ghost var before := store.Contents();
    var outcome;
    outcome, claimed, ran := RunNext(store, config, answers);
    outcomes := AsBatch(outcome);
    SoleOfOne(outcome);
    if outcome.Some? {
      ShapeOfBatch(before, store.Contents(), claimed, ran, [outcome.value], limit);
    }
  }

  /** Both calls of the greedy choice see the same store, so the claim is as wide as the schedule. */
  lemma WideBatch(specs: seq<Spec>, status: Statuses, limit: nat, scheduled: seq<nat>, batch: seq<nat>)
    requires IsBatch(specs, status, limit, scheduled) && IsBatch(specs, status, limit, batch)
    requires |scheduled| > 1
    ensures 2 <= |batch| <= limit
    ensures forall id | id in BatchIds(specs, batch) :: id in status && status[id] == Queued
  {
    var first, second := scheduled[0], scheduled[1];
    assert Before(specs, first, second);
    assert batch[0] != first ==> Before(specs, first, batch[0]) && Before(specs, batch[0], first);
    assert |batch| < limit ==> second in batch || Crowded(specs, batch, second);
    forall id | id in BatchIds(specs, batch) ensures id in status && status[id] == Queued {
      var j :| 0 <= j < |batch| && BatchIds(specs, batch)[j] == id;
      assert Ready(specs[batch[j]], status);
    }
  }
}
