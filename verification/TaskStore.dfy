// The queue as the run loop uses it: README.md:678-694, src/llm_harness/state.py:291-401 and 423-664.

module TaskStore {
  import opened Prelude
  import opened TaskGraph

  datatype Status =
    | Queued | Running | Done | Failed | ReviewPending | ReworkRequired | Escalated | RolledBack

  /** A queued work item: what it waits for, how urgent it is, which paths it may touch. */
  datatype Spec = Spec(id: Id, dependsOn: seq<Id>, priority: int, paths: seq<string>)

  type Statuses = map<Id, Status>

  /** How a running task was settled: by the scheduler, or by the ledger of canonical operations, which
      records the result of a task whose commit it finds. The ledger also completes the rollback of a done
      task, which settles nothing. */
  datatype Settlement =
    | ResultRecorded(id: Id, ok: bool)
    | FailureRecorded(id: Id)
    | Requeued(id: Id)
    | Reconciled(id: Id)
    | RollbackCompleted(id: Id)
  {
    predicate ByLedger() {
      Reconciled? || RollbackCompleted?
    }
  }

  /** What the store says: the status of every task, and the settlements and rollbacks so far. */
  datatype Book = Book(status: Statuses, settled: seq<Settlement>)

  predicate IsRunning(book: Book, id: Id) {
    id in book.status && book.status[id] == Running
  }

  predicate IsDone(book: Book, id: Id) {
    id in book.status && book.status[id] == Done
  }

  function Recorded(book: Book, how: Settlement, after: Status): Book {
    Book(book.status[how.id := after], book.settled + [how])
  }

  predicate DependenciesDone(dependsOn: seq<Id>, status: Statuses) {
    forall d | d in dependsOn :: d in status && status[d] == Done
  }

  predicate Ready(spec: Spec, status: Statuses) {
    spec.id in status && status[spec.id] == Queued && DependenciesDone(spec.dependsOn, status)
  }

  function QueuedIds(status: Statuses): set<Id> {
    set id | id in status && status[id] == Queued
  }

  /** Two path scopes overlap: one is empty (exclusive), or some path is the wildcard or encloses,
      or equals, a path of the other. Paths are already normalised. */
  predicate Conflict(left: seq<string>, right: seq<string>) {
    || left == [] || right == []
    || exists a, b | a in left && b in right :: a == "*" || b == "*" || Within(a, b) || Within(b, a)
  }

  predicate Within(path: string, root: string) {
    path == root || root + "/" <= path
  }

  /** Higher priority first, then insertion order. */
  predicate Before(specs: seq<Spec>, i: nat, j: nat) {
    && i < |specs| && j < |specs|
    && (specs[i].priority > specs[j].priority || (specs[i].priority == specs[j].priority && i < j))
  }

  ghost predicate NothingReady(specs: seq<Spec>, status: Statuses) {
    forall i | 0 <= i < |specs| :: !Ready(specs[i], status)
  }

  /** `ready` lists the indices of the ready tasks, most urgent first. */
  ghost predicate IsSchedule(specs: seq<Spec>, status: Statuses, ready: seq<nat>) {
    && (forall i: nat :: i in ready <==> i < |specs| && Ready(specs[i], status))
    && Sorted(specs, ready)
  }

  /** The dependencies that are not done. */
  function Blockers(dependsOn: seq<Id>, status: Statuses): seq<Id> {
    if dependsOn == [] then []
    else
      var n := |dependsOn| - 1;
      Blockers(dependsOn[..n], status)
      + if dependsOn[n] in status && status[dependsOn[n]] == Done then [] else [dependsOn[n]]
  }

  lemma {:induction false} BlockersOf(dependsOn: seq<Id>, status: Statuses)
    ensures forall d :: d in Blockers(dependsOn, status) <==> d in dependsOn && !(d in status && status[d] == Done)
    ensures Blockers(dependsOn, status) == [] <==> DependenciesDone(dependsOn, status)
  {
    if dependsOn != [] {
      var n := |dependsOn| - 1;
      BlockersOf(dependsOn[..n], status);
      assert dependsOn == dependsOn[..n] + [dependsOn[n]];
    }
  }

  /** The queued tasks with something to wait for, and what that is. */
  function WaitingTasks(specs: seq<Spec>, status: Statuses): seq<(nat, seq<Id>)> {
    if specs == [] then []
    else
      var n := |specs| - 1;
      var blockers := Blockers(specs[n].dependsOn, status);
      WaitingTasks(specs[..n], status)
      + if specs[n].id in status && status[specs[n].id] == Queued && blockers != [] then [(n, blockers)] else []
  }

  lemma NothingWaits(status: Statuses)
    ensures WaitingTasks([], status) == []
  {
  }

  lemma NothingSorted(specs: seq<Spec>)
    ensures Sorted(specs, [])
  {
  }

  lemma WaitingNext(specs: seq<Spec>, k: nat, status: Statuses)
    requires k < |specs|
    ensures var blockers := Blockers(specs[k].dependsOn, status);
      WaitingTasks(specs[..k + 1], status) ==
        if specs[k].id in status && status[specs[k].id] == Queued && blockers != []
        then WaitingTasks(specs[..k], status) + [(k, blockers)] else WaitingTasks(specs[..k], status)
  {
    hide Blockers;
    assert specs[..k + 1][..k] == specs[..k];
  }

  predicate Waits(spec: Spec, status: Statuses) {
    spec.id in status && status[spec.id] == Queued && !Ready(spec, status)
  }

  lemma WaitsForBlockers(spec: Spec, status: Statuses)
    ensures Waits(spec, status) <==>
      spec.id in status && status[spec.id] == Queued && Blockers(spec.dependsOn, status) != []
  {
    BlockersOf(spec.dependsOn, status);
  }

  /** Tasks wait exactly if some are queued and not ready. */
  lemma {:induction false} WaitingMeaning(specs: seq<Spec>, status: Statuses)
    ensures WaitingTasks(specs, status) == [] <==> forall i | 0 <= i < |specs| :: !Waits(specs[i], status)
  {
    hide Blockers, Waits;
    if specs != [] {
      var n := |specs| - 1;
      WaitingMeaning(specs[..n], status);
      WaitsForBlockers(specs[n], status);
      assert forall i | 0 <= i < n :: specs[..n][i] == specs[i];
    }
  }

  class Store {
    const specs: seq<Spec>
    var status: Statuses
    var attempts: map<Id, nat>
    ghost var settled: seq<Settlement>

    ghost predicate Valid()
      reads this
    {
      && DistinctIds(specs)
      && (forall i | 0 <= i < |specs| :: specs[i].id in status)
      && (forall id | id in status :: id in attempts)
      && forall id | id in status :: exists i :: 0 <= i < |specs| && specs[i].id == id
    }

    ghost function Contents(): Book
      reads this
    {
      Book(status, settled)
    }

    lemma QueuedIdsAre()
      requires Valid()
      ensures QueuedIds(status) == {} <==> forall i | 0 <= i < |specs| :: status[specs[i].id] != Queued
    {
      if id :| id in QueuedIds(status) {
        var i :| 0 <= i < |specs| && specs[i].id == id;
      }
      if i :| 0 <= i < |specs| && status[specs[i].id] == Queued {
        assert specs[i].id in QueuedIds(status);
      }
    }

    /** When nothing is ready, the queue is empty exactly if nothing waits. */
    lemma QueuedIfWaiting()
      requires Valid() && NothingReady(specs, status)
      ensures QueuedIds(status) == {} <==> forall i | 0 <= i < |specs| :: !Waits(specs[i], status)
    {
      QueuedIdsAre();
      assert forall i | 0 <= i < |specs| :: Waits(specs[i], status) <==> status[specs[i].id] == Queued;
    }

    /** `schedule`: the ready tasks in order, and the queued tasks that wait, in the order of the queue, each
        with the dependencies it waits for. */
    method Schedule() returns (ready: seq<nat>, waiting: seq<(nat, seq<Id>)>)
      requires Valid()
      ensures IsSchedule(specs, status, ready)
      ensures waiting == WaitingTasks(specs, status)
    {
      ready, waiting := [], [];
      NothingWaits(status);
      hide Blockers, DependenciesDone, WaitingTasks, Sorted;
      NothingSorted(specs);
      assert specs[..0] == [] && specs[..|specs|] == specs;
      for k := 0 to |specs|
        invariant forall i: nat :: i in ready <==> i < k && Ready(specs[i], status)
        invariant Sorted(specs, ready)
        invariant waiting == WaitingTasks(specs[..k], status)
      {
        WaitingNext(specs, k, status);
        BlockersOf(specs[k].dependsOn, status);
        if status[specs[k].id] == Queued {
          var blockers := Blockers(specs[k].dependsOn, status);
          if blockers == [] {
            ready := Insert(specs, ready, k);
          } else {
            waiting := waiting + [(k, blockers)];
          }
        }
      }
    }

    /** `schedule_batch`: greedily, in schedule order, the ready tasks whose paths do not overlap. */
    method ScheduleBatch(limit: nat) returns (batch: seq<nat>)
      requires Valid() && limit >= 1
      ensures IsBatch(specs, status, limit, batch)
    {
      var ready, waiting := Schedule();
      batch := Greedy(specs, ready, limit);
      GreedyIsBatch(specs, status, limit, ready, batch);
    }

    /** `mark_running`, for a ready task. */
    method MarkRunning(i: nat)
      requires Valid() && i < |specs| && Ready(specs[i], status)
      modifies this
      ensures Valid() && settled == old(settled)
      ensures status == old(status)[specs[i].id := Running]
      ensures attempts == old(attempts)[specs[i].id := old(attempts)[specs[i].id] + 1]
    {
      attempts := attempts[specs[i].id := attempts[specs[i].id] + 1];
      status := status[specs[i].id := Running];
    }

    /** `escalate_attempt_limit`, for a queued task that has used up its attempts. */
    method Escalate(i: nat)
      requires Valid() && i < |specs| && status[specs[i].id] == Queued
      modifies this`status
      ensures Valid() && status == old(status)[specs[i].id := Escalated]
    {
      status := status[specs[i].id := Escalated];
    }

    /** `claim_batch`: one claim keeps the other scheduled tasks ready, so none is refused. */
    method ClaimBatch(limit: nat) returns (batch: seq<nat>)
      requires Valid() && limit >= 1
      modifies this
      ensures Valid() && settled == old(settled)
      ensures IsBatch(specs, old(status), limit, batch)
      ensures status == WithStatus(old(status), BatchIds(specs, batch), Running)
      ensures attempts == Counted(old(attempts), BatchIds(specs, batch))
    {
      batch := ScheduleBatch(limit);
      BatchIdsDistinct(specs, batch);
      hide IsBatch, NoDuplicates;
      MarkAll(batch);
    }

    method MarkAll(batch: seq<nat>)
      requires Valid() && InRange(specs, batch) && NoDuplicates(BatchIds(specs, batch))
      requires forall j | 0 <= j < |batch| :: Ready(specs[batch[j]], status)
      modifies this
      ensures Valid() && settled == old(settled)
      ensures status == WithStatus(old(status), BatchIds(specs, batch), Running)
      ensures attempts == Counted(old(attempts), BatchIds(specs, batch))
    {
      NoneMarked(specs, status, attempts);
      hide Ready, WithStatus, Counted, NoDuplicates, BatchIds;
      assert batch[..0] == [] && batch[..|batch|] == batch;
      for k := 0 to |batch|
        invariant Valid() && settled == old(settled)
        invariant status == WithStatus(old(status), BatchIds(specs, batch[..k]), Running)
        invariant attempts == Counted(old(attempts), BatchIds(specs, batch[..k]))
      {
        ClaimStep(specs, old(status), batch, k);
        CountStep(specs, old(attempts), batch, k);
        MarkRunning(batch[k]);
      }
    }

    /** `record_result`, by the scheduler or by the ledger, and `recover_running`: only a running task is
        settled so; for any other they raise. */
    method Settle(how: Settlement, after: Status) returns (settles: bool)
      requires Valid()
      modifies this`status, this`settled
      ensures Valid() && settles == IsRunning(old(Contents()), how.id)
      ensures Contents() == if settles then Recorded(old(Contents()), how, after) else old(Contents())
    {
      settles := how.id in status && status[how.id] == Running;
      if settles {
        status, settled := status[how.id := after], settled + [how];
      }
    }

    /** `complete_rollback`: only a done task is marked as rolled back; for any other it raises. */
    method CompleteRollback(id: Id) returns (completes: bool)
      requires Valid()
      modifies this`status, this`settled
      ensures Valid() && completes == IsDone(old(Contents()), id)
      ensures Contents() == if completes then Recorded(old(Contents()), RollbackCompleted(id), RolledBack) else old(Contents())
    {
      completes := id in status && status[id] == Done;
      if completes {
        status, settled := status[id := RolledBack], settled + [RollbackCompleted(id)];
      }
    }

    /** `record_failure`, which does not look at the status. */
    method RecordFailure(id: Id)
      requires Valid() && id in status
      modifies this`status, this`settled
      ensures Valid() && Contents() == Recorded(old(Contents()), FailureRecorded(id), Failed)
    {
      status, settled := status[id := Failed], settled + [FailureRecorded(id)];
    }

    /** What the review makes of a task that is waiting for it. */
    method Review(id: Id, after: Status)
      requires Valid() && id in status
      modifies this`status
      ensures Valid() && status == old(status)[id := after]
    {
      status := status[id := after];
    }
  }

  predicate InRange(specs: seq<Spec>, batch: seq<nat>) {
    forall k | 0 <= k < |batch| :: batch[k] < |specs|
  }

  /** No two tasks of the batch may touch the same paths. */
  ghost predicate Disjoint(specs: seq<Spec>, batch: seq<nat>)
    requires InRange(specs, batch)
  {
    forall a, b | 0 <= a < b < |batch| :: !Conflict(specs[batch[b]].paths, specs[batch[a]].paths)
  }

  /** Task `i` overlaps a more urgent task of the batch. */
  ghost predicate Crowded(specs: seq<Spec>, batch: seq<nat>, i: nat)
    requires InRange(specs, batch) && i < |specs|
  {
    exists a :: 0 <= a < |batch| && Before(specs, batch[a], i) && Conflict(specs[i].paths, specs[batch[a]].paths)
  }

  /** What a batch is: ready tasks in urgency order, at most `limit`, pairwise disjoint in their
      paths, led by the most urgent ready task, and empty only when nothing is ready. A ready task
      is left out of a batch with room only when it overlaps a more urgent member. */
  ghost predicate IsBatch(specs: seq<Spec>, status: Statuses, limit: nat, batch: seq<nat>) {
    && |batch| <= limit
    && InRange(specs, batch) && (forall k | 0 <= k < |batch| :: Ready(specs[batch[k]], status))
    && Sorted(specs, batch) && Disjoint(specs, batch)
    && (batch == [] <==> forall i | 0 <= i < |specs| :: !Ready(specs[i], status))
    && (batch != [] ==> forall i: nat | i < |specs| && Ready(specs[i], status) && i != batch[0] :: Before(specs, batch[0], i))
    && (|batch| < limit ==> forall i: nat | i < |specs| && Ready(specs[i], status) && i !in batch :: Crowded(specs, batch, i))
  }

  function BatchIds(specs: seq<Spec>, batch: seq<nat>): (ids: seq<Id>)
    requires InRange(specs, batch)
    ensures |ids| == |batch| && forall k | 0 <= k < |ids| :: ids[k] == specs[batch[k]].id
  {
    seq(|batch|, k requires 0 <= k < |batch| => specs[batch[k]].id)
  }

  function WithStatus(status: Statuses, ids: seq<Id>, s: Status): Statuses {
    map id | id in status.Keys + Members(ids) :: if id in ids then s else status[id]
  }

  /** One attempt more for each of the tasks. */
  function Counted(attempts: map<Id, nat>, ids: seq<Id>): map<Id, nat> {
    map id | id in attempts :: attempts[id] + if id in ids then 1 else 0
  }

  lemma NoneMarked(specs: seq<Spec>, status: Statuses, attempts: map<Id, nat>)
    ensures WithStatus(status, BatchIds(specs, []), Running) == status && Counted(attempts, BatchIds(specs, [])) == attempts
  {
  }

  lemma CountStep(specs: seq<Spec>, attempts: map<Id, nat>, batch: seq<nat>, k: nat)
    requires InRange(specs, batch) && NoDuplicates(BatchIds(specs, batch)) && k < |batch|
    requires specs[batch[k]].id in attempts
    ensures var before, id := Counted(attempts, BatchIds(specs, batch[..k])), specs[batch[k]].id;
      id in before && Counted(attempts, BatchIds(specs, batch[..k + 1])) == before[id := before[id] + 1]
  {
    var ids, prefix := BatchIds(specs, batch), BatchIds(specs, batch[..k]);
    assert BatchIds(specs, batch[..k + 1]) == prefix + [ids[k]];
    assert prefix == ids[..k];
    assert ids[k] !in prefix;
  }

  lemma BatchAppend(specs: seq<Spec>, ready: seq<nat>, k: nat, batch: seq<nat>)
    requires k < |ready| && Sorted(specs, ready) && Sorted(specs, batch)
    requires (forall b | b in batch :: b in ready[..k]) && Disjoint(specs, batch)
    requires forall a | 0 <= a < |batch| :: !Conflict(specs[ready[k]].paths, specs[batch[a]].paths)
    ensures Sorted(specs, batch + [ready[k]]) && Disjoint(specs, batch + [ready[k]])
  {
    var longer := batch + [ready[k]];
    forall a, b | 0 <= a < b < |longer| ensures Before(specs, longer[a], longer[b]) {
      if b == |batch| {
        assert batch[a] in batch;
        var j :| 0 <= j < k && ready[j] == batch[a];
        assert Before(specs, ready[j], ready[k]);
      }
    }
  }

  ghost predicate DistinctIds(specs: seq<Spec>) {
    forall i, j | 0 <= i < j < |specs| :: specs[i].id != specs[j].id
  }

  lemma BatchIdsDistinct(specs: seq<Spec>, batch: seq<nat>)
    requires DistinctIds(specs) && Sorted(specs, batch)
    ensures NoDuplicates(BatchIds(specs, batch))
  {
    forall a, b | 0 <= a < b < |batch| ensures specs[batch[a]].id != specs[batch[b]].id {
      assert Before(specs, batch[a], batch[b]);
    }
  }

  lemma ClaimStep(specs: seq<Spec>, status: Statuses, batch: seq<nat>, k: nat)
    requires InRange(specs, batch) && forall j | 0 <= j < |batch| :: Ready(specs[batch[j]], status)
    requires NoDuplicates(BatchIds(specs, batch)) && k < |batch|
    ensures Ready(specs[batch[k]], WithStatus(status, BatchIds(specs, batch[..k]), Running))
    ensures WithStatus(status, BatchIds(specs, batch[..k + 1]), Running) ==
            WithStatus(status, BatchIds(specs, batch[..k]), Running)[specs[batch[k]].id := Running]
  {
    var ids, prefix := BatchIds(specs, batch), BatchIds(specs, batch[..k]);
    assert BatchIds(specs, batch[..k + 1]) == prefix + [ids[k]];
    assert prefix == ids[..k];
    assert ids[k] !in prefix;
    forall id | id in prefix ensures id in status && status[id] == Queued {
      var j :| 0 <= j < k && ids[j] == id;
      assert Ready(specs[batch[j]], status);
    }
  }

  ghost predicate Sorted(specs: seq<Spec>, ready: seq<nat>) {
    && (forall a | 0 <= a < |ready| :: ready[a] < |specs|)
    && forall a, b | 0 <= a < b < |ready| :: Before(specs, ready[a], ready[b])
  }

  method Greedy(specs: seq<Spec>, ready: seq<nat>, limit: nat) returns (batch: seq<nat>)
    requires Sorted(specs, ready) && limit >= 1
    ensures |batch| <= limit && Sorted(specs, batch) && Disjoint(specs, batch)
    ensures forall b | b in batch :: b in ready
    ensures if ready == [] then batch == [] else batch != [] && batch[0] == ready[0]
    ensures |batch| < limit ==> forall j | 0 <= j < |ready| :: ready[j] in batch || Crowded(specs, batch, ready[j])
  {
    batch := [];
    for k := 0 to |ready|
      invariant |batch| < limit && if k == 0 then batch == [] else batch != [] && batch[0] == ready[0]
      invariant forall b | b in batch :: b in ready[..k]
      invariant Sorted(specs, batch) && Disjoint(specs, batch)
      invariant forall j | 0 <= j < k :: ready[j] in batch || Crowded(specs, batch, ready[j])
    {
      ghost var before := batch;
      assert ready[..k + 1] == ready[..k] + [ready[k]];
      if forall a | 0 <= a < |batch| :: !Conflict(specs[ready[k]].paths, specs[batch[a]].paths) {
        BatchAppend(specs, ready, k, batch);
        batch := batch + [ready[k]];
        if |batch| == limit {
          break;
        }
      } else {
        StillCrowded(specs, ready, k, batch);
      }
      forall j | 0 <= j < k && ready[j] !in batch ensures Crowded(specs, batch, ready[j]) {
        assert ready[j] !in before;
        var a :| 0 <= a < |before| && Before(specs, before[a], ready[j]) && Conflict(specs[ready[j]].paths, specs[before[a]].paths);
        assert batch[a] == before[a];
      }
    }
  }

  lemma StillCrowded(specs: seq<Spec>, ready: seq<nat>, k: nat, batch: seq<nat>)
    requires k < |ready| && Sorted(specs, ready) && InRange(specs, batch)
    requires forall b | b in batch :: b in ready[..k]
    requires exists a :: 0 <= a < |batch| && Conflict(specs[ready[k]].paths, specs[batch[a]].paths)
    ensures Crowded(specs, batch, ready[k])
  {
    var a :| 0 <= a < |batch| && Conflict(specs[ready[k]].paths, specs[batch[a]].paths);
    assert batch[a] in batch;
    var j :| 0 <= j < k && ready[j] == batch[a];
    assert Before(specs, ready[j], ready[k]);
  }

  lemma GreedyIsBatch(specs: seq<Spec>, status: Statuses, limit: nat, ready: seq<nat>, batch: seq<nat>)
    requires IsSchedule(specs, status, ready)
    requires |batch| <= limit && Sorted(specs, batch) && Disjoint(specs, batch)
    requires forall b | b in batch :: b in ready
    requires if ready == [] then batch == [] else batch != [] && batch[0] == ready[0]
    requires |batch| < limit ==> forall j | 0 <= j < |ready| :: ready[j] in batch || Crowded(specs, batch, ready[j])
    ensures IsBatch(specs, status, limit, batch)
  {
    forall k | 0 <= k < |batch| ensures Ready(specs[batch[k]], status) {
      assert batch[k] in batch;
    }
    forall i: nat | i < |specs| && Ready(specs[i], status) && ready != [] && i != ready[0]
      ensures Before(specs, ready[0], i)
    {
      var j :| 0 <= j < |ready| && ready[j] == i;
    }
    if ready != [] {
      assert ready[0] in ready;
    }
    forall i: nat | |batch| < limit && i < |specs| && Ready(specs[i], status) && i !in batch
      ensures Crowded(specs, batch, i)
    {
      var j :| 0 <= j < |ready| && ready[j] == i;
    }
  }

  /** Stable insertion of the latest task behind all tasks of at least its priority. */
  method Insert(specs: seq<Spec>, ready: seq<nat>, k: nat) returns (longer: seq<nat>)
    requires k < |specs| && Sorted(specs, ready) && forall i | i in ready :: i < k
    ensures forall i: nat :: i in longer <==> i in ready || i == k
    ensures Sorted(specs, longer)
  {
    var at := |ready|;
    while at > 0 && specs[ready[at - 1]].priority < specs[k].priority
      invariant 0 <= at <= |ready|
      invariant forall a | at <= a < |ready| :: Before(specs, k, ready[a])
    {
      at := at - 1;
    }
    InsertKeepsOrder(specs, ready, k, at);
    InsertMembers(ready, k, at);
    longer := ready[..at] + [k] + ready[at..];
  }

  lemma InsertMembers(ready: seq<nat>, k: nat, at: nat)
    requires at <= |ready|
    ensures forall i: nat :: i in ready[..at] + [k] + ready[at..] <==> i in ready || i == k
  {
    assert ready == ready[..at] + ready[at..];
  }

  lemma InsertKeepsOrder(specs: seq<Spec>, ready: seq<nat>, k: nat, at: nat)
    requires k < |specs| && Sorted(specs, ready) && forall i | i in ready :: i < k
    requires at <= |ready| && (at > 0 ==> specs[ready[at - 1]].priority >= specs[k].priority)
    requires forall a | at <= a < |ready| :: Before(specs, k, ready[a])
    ensures Sorted(specs, ready[..at] + [k] + ready[at..])
  {
    var longer := ready[..at] + [k] + ready[at..];
    forall a, b | 0 <= a < b < |longer| ensures Before(specs, longer[a], longer[b]) {
      if b == at {
        assert longer[a] == ready[a] && ready[a] in ready;
        if a < at - 1 {
          assert Before(specs, ready[a], ready[at - 1]);
        }
      } else if a == at {
        assert longer[b] == ready[b - 1];
      } else {
        assert longer[a] == ready[if a < at then a else a - 1];
        assert longer[b] == ready[if b < at then b else b - 1];
      }
    }
  }
}
