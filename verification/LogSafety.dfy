/** What holds of the log in every reachable state. */
module LogSafety {
  import opened Prelude
  import opened LeaseMachine
  import opened LeaseExclusion
  import opened LogMachine

  /** What is true of one thread's job. */
  ghost predicate JobInv(s: System, a: Actor) {
    var j := s.J(a);
    && (j.Appending() ==> Holds(s.lease, a) && s.lease.T(a).phase.Outside?)
    && (!j.Resting? ==> j.event < s.nextEvent && j.event !in s.returned)
    && (j.Waiting? ==> j.event !in s.visible)
    && (j.Prepared? ==> j.event !in s.visible && j.text == s.visible + [j.event])
    && (j.Renamed? ==> j.event in s.visible)
    && (j.Synced? ==> j.event in s.durable)
  }

  /** Two threads are never recording the same event. */
  ghost predicate Apart(s: System, a: Actor, b: Actor) {
    a != b && !s.J(a).Resting? && !s.J(b).Resting? ==> s.J(a).event != s.J(b).event
  }

  ghost predicate LogInv(s: System) {
    && s.durable <= s.visible && NoDuplicates(s.visible)
    && (forall e | e in s.visible :: e < s.nextEvent)
    && (forall e | e in s.returned :: e in s.durable && e < s.nextEvent)
    && (forall a :: JobInv(s, a))
    && (forall a, b :: Apart(s, a, b))
  }

  /** Only one thread at a time is between reading the log and the end of its write. */
  lemma OneAppender(s: System, a: Actor, b: Actor)
    requires LockInv(s.lease) && LogInv(s) && s.J(a).Appending() && s.J(b).Appending()
    ensures a == b
  {
    assert JobInv(s, a) && JobInv(s, b);
    assert ThreadInv(s.lease, a) && ThreadInv(s.lease, b);
  }

  lemma LeaseStepKeeps(s: System, act: Action)
    requires LockInv(s.lease) && LogInv(s) && StepEnabled(s, Lease(act))
    ensures LogInv(Take(s, Lease(act)))
  {
    var s' := Take(s, Lease(act));
    forall b, c ensures Apart(s', b, c) {
      assert Apart(s, b, c) && JobInv(s, b) && JobInv(s, c);
    }
    forall b ensures JobInv(s', b) {
      assert JobInv(s, b);
      if s'.J(b).Appending() {
        assert ThreadInv(s.lease, b);
        if !act.Crash? {
          assert ThreadInv(s.lease, act.a);
        }
      }
    }
  }

  lemma RenameKeeps(s: System, a: Actor)
    requires LockInv(s.lease) && LogInv(s) && StepEnabled(s, Rename(a))
    ensures LogInv(Take(s, Rename(a)))
  {
    var s' := Take(s, Rename(a));
    assert JobInv(s, a);
    assert s'.visible == s.visible + [s.J(a).event];
    forall b, c ensures Apart(s', b, c) {
      assert Apart(s, b, c) && JobInv(s, b) && JobInv(s, c);
    }
    forall b ensures JobInv(s', b) {
      assert JobInv(s, b) && Apart(s, a, b);
      if b != a && s.J(b).Appending() {
        OneAppender(s, a, b);
      }
    }
  }

  lemma JobStepKeeps(s: System, step: Step)
    requires LockInv(s.lease) && LogInv(s) && StepEnabled(s, step)
    requires !step.Lease? && !step.Rename? && !step.PowerCut?
    ensures LogInv(Take(s, step))
  {
    var s' := Take(s, step);
    if !step.WriteBack? {
      assert JobInv(s, step.a);
    }
    forall b, c ensures Apart(s', b, c) {
      assert Apart(s, b, c) && JobInv(s, b) && JobInv(s, c);
    }
    forall b ensures JobInv(s', b) {
      assert JobInv(s, b);
      if !step.WriteBack? {
        assert Apart(s, step.a, b);
      }
    }
  }

  lemma PowerCutKeeps(s: System, kept: bool)
    requires LogInv(s)
    ensures LogInv(Take(s, PowerCut(kept)))
  {
    var s' := Take(s, PowerCut(kept));
    assert s'.visible <= s.visible;
    assert forall e | e in s'.visible :: e in s.visible;
  }

  lemma StepKeeps(s: System, step: Step)
    requires LockInv(s.lease) && LogInv(s) && StepEnabled(s, step)
    ensures LockInv(Take(s, step).lease) && LogInv(Take(s, step))
  {
    match step
    case Lease(act) => LockInvStep(s.lease, act); LeaseStepKeeps(s, act);
    case Rename(a) => RenameKeeps(s, a);
    case PowerCut(kept) => PowerCutKeeps(s, kept);
    case _ => JobStepKeeps(s, step);
  }

  lemma {:induction false} InvReachable(s: System, steps: seq<Step>)
    requires LockInv(s.lease) && LogInv(s) && Feasible(s, steps)
    ensures LockInv(After(s, steps).lease) && LogInv(After(s, steps))
    decreases |steps|
  {
    if steps != [] {
      StepKeeps(s, steps[0]);
      InvReachable(Take(s, steps[0]), steps[1..]);
    }
  }

  lemma EmptyIsGood()
    ensures LockInv(Empty.lease) && LogInv(Empty)
  {
  }

  /** How often an event is in the log. */
  function Occurrences(log: seq<Event>, e: Event): nat {
    multiset(log)[e]
  }

  lemma {:induction false} NoDuplicatesOnce(log: seq<Event>, e: Event)
    requires NoDuplicates(log)
    ensures Occurrences(log, e) == if e in log then 1 else 0
  {
    if log != [] {
      var init, last := log[..|log| - 1], log[|log| - 1];
      assert log == init + [last];
      NoDuplicatesOnce(init, e);
      assert last !in init;
    }
  }

  /** After any schedule of lease steps, appends, failures, crashes and power cuts: an event whose
      `record` returned is in the log exactly once, any other event at most once, and the same is
      true of what a power cut would leave. */
  lemma NothingLostNothingTwice(steps: seq<Step>, e: Event)
    requires Feasible(Empty, steps)
    ensures var s := After(Empty, steps);
      && Occurrences(s.visible, e) <= 1
      && (e in s.returned ==> Occurrences(s.visible, e) == 1 && Occurrences(s.durable, e) == 1)
  {
    EmptyIsGood();
    InvReachable(Empty, steps);
    var s := After(Empty, steps);
    NoDuplicatesOnce(s.visible, e);
    NoDuplicatesOnce(s.durable, e);
    if e in s.returned {
      assert e in s.durable;
    }
  }

  /** The log refines a growing sequence: one step leaves it, appends the one event of a thread that
      holds the lease, or, in a power cut only, cuts it back to its durable part. */
  ghost predicate GrowsByOne(s: System, step: Step, s': System) {
    || s'.visible == s.visible
    || (step.Rename? && s.J(step.a).Prepared? && Holds(s.lease, step.a) && s'.visible == s.visible + [s.J(step.a).event])
    || (step == PowerCut(false) && s'.visible == s.durable)
  }

  lemma EachStepGrowsByOne(steps: seq<Step>, step: Step)
    requires Feasible(Empty, steps) && StepEnabled(After(Empty, steps), step)
    ensures var s := After(Empty, steps); GrowsByOne(s, step, Take(s, step))
  {
    EmptyIsGood();
    InvReachable(Empty, steps);
    if step.Rename? {
      assert JobInv(After(Empty, steps), step.a);
    }
  }

  /** What an unlocked reader has seen stays a prefix of the log, step by step, exactly when the
      step is not a power cut that loses an unsynced rename. */
  lemma ReaderSeesPrefixUnlessCut(steps: seq<Step>, step: Step)
    requires Feasible(Empty, steps) && StepEnabled(After(Empty, steps), step)
    ensures var s := After(Empty, steps);
      s.visible <= Take(s, step).visible <==> !(step == PowerCut(false) && s.durable != s.visible)
  {
    EachStepGrowsByOne(steps, step);
    EmptyIsGood();
    InvReachable(Empty, steps);
  }

  predicate NoLoss(steps: seq<Step>) {
    forall i | 0 <= i < |steps| :: steps[i] != PowerCut(false)
  }

  lemma {:induction false} GrowsOverRun(s: System, steps: seq<Step>)
    requires LockInv(s.lease) && LogInv(s) && Feasible(s, steps) && NoLoss(steps)
    ensures s.visible <= After(s, steps).visible
    decreases |steps|
  {
    if steps != [] {
      var next := Take(s, steps[0]);
      StepKeeps(s, steps[0]);
      if steps[0].Rename? {
        assert JobInv(s, steps[0].a);
      }
      GrowsOverRun(next, steps[1..]);
    }
  }

  /** Over any continuation without such a power cut, whatever a reader saw is a prefix of the final log. */
  lemma ReaderSeesPrefix(steps: seq<Step>, more: seq<Step>)
    requires Feasible(Empty, steps) && Feasible(After(Empty, steps), more) && NoLoss(more)
    ensures After(Empty, steps).visible <= After(After(Empty, steps), more).visible
  {
    EmptyIsGood();
    InvReachable(Empty, steps);
    GrowsOverRun(After(Empty, steps), more);
  }

  /** An event outlives any later power cut once its `record` has returned. */
  lemma {:induction false} ReturnedStays(s: System, steps: seq<Step>, e: Event)
    requires LockInv(s.lease) && LogInv(s) && Feasible(s, steps) && e in s.returned
    ensures e in After(s, steps).returned && e in After(s, steps).visible
    decreases |steps|
  {
    assert e in s.durable;
    if steps != [] {
      StepKeeps(s, steps[0]);
      ReturnedStays(Take(s, steps[0]), steps[1..], e);
    }
  }

  lemma {:induction false} OneMore(s: System, steps: seq<Step>, step: Step)
    requires Feasible(s, steps) && StepEnabled(After(s, steps), step)
    ensures Feasible(s, steps + [step]) && After(s, steps + [step]) == Take(After(s, steps), step)
    decreases |steps|
  {
    if steps == [] {
      assert [step][1..] == [];
      assert steps + [step] == [step];
    } else {
      assert (steps + [step])[1..] == steps[1..] + [step];
      OneMore(Take(s, steps[0]), steps[1..], step);
    }
  }

  /** A reachable system in which one thread is recording event 0 and nothing was written yet. */
  ghost predicate Recording(steps: seq<Step>, a: Actor, t: Thread) {
    && Feasible(Empty, steps)
    && var s := After(Empty, steps);
       s.lease.T(a) == t && s.J(a) == Waiting(0) && s.visible == [] && s.durable == [] && s.returned == {}
  }

  lemma EnterAndLock() returns (steps: seq<Step>)
    ensures Recording(steps, Actor(0, 0), Thread(Granted, 0, 0))
  {
    var a := Actor(0, 0);
    OneMore(Empty, [], Begin(a));
    OneMore(Empty, [] + [Begin(a)], Lease(TakeThreadLock(a)));
    OneMore(Empty, [] + [Begin(a)] + [Lease(TakeThreadLock(a))], Lease(OpenFile(a)));
    steps := [] + [Begin(a)] + [Lease(TakeThreadLock(a))] + [Lease(OpenFile(a))];
    OneMore(Empty, steps, Lease(TryLock(a)));
    steps := steps + [Lease(TryLock(a))];
  }

  lemma BecomeOwner(before: seq<Step>, a: Actor) returns (steps: seq<Step>)
    requires Recording(before, a, Thread(Granted, 0, 0))
    ensures Recording(steps, a, Thread(Outside, 1, 0))
  {
    OneMore(Empty, before, Lease(ReadOwner(a)));
    OneMore(Empty, before + [Lease(ReadOwner(a))], Lease(WriteOwner(a)));
    steps := before + [Lease(ReadOwner(a))] + [Lease(WriteOwner(a))];
    OneMore(Empty, steps, Lease(FinishAcquire(a)));
    steps := steps + [Lease(FinishAcquire(a))];
  }

  /** The exception is real: a thread acquires the lease and renames its log into place, a reader
      sees the event, the power fails before the directory is synced, and the event is gone. */
  lemma PowerCutCanUnread() returns (steps: seq<Step>)
    ensures Feasible(Empty, steps) && After(Empty, steps).visible == [0]
    ensures Take(After(Empty, steps), PowerCut(false)).visible == []
  {
    var a := Actor(0, 0);
    steps := EnterAndLock();
    steps := BecomeOwner(steps, a);
    OneMore(Empty, steps, ReadLog(a));
    OneMore(Empty, steps + [ReadLog(a)], Rename(a));
    steps := steps + [ReadLog(a)] + [Rename(a)];
  }

  /** A `record` may raise with its event in the log: the rename is done and the directory cannot be synced. */
  lemma RaisedButWritten() returns (steps: seq<Step>)
    ensures Feasible(Empty, steps) && After(Empty, steps).visible == [0] && 0 in After(Empty, steps).raised
  {
    var a := Actor(0, 0);
    steps := EnterAndLock();
    steps := BecomeOwner(steps, a);
    OneMore(Empty, steps, ReadLog(a));
    OneMore(Empty, steps + [ReadLog(a)], Rename(a));
    steps := steps + [ReadLog(a)] + [Rename(a)];
    OneMore(Empty, steps, SyncDirectoryFails(a));
    OneMore(Empty, steps + [SyncDirectoryFails(a)], Propagate(a));
    steps := steps + [SyncDirectoryFails(a)] + [Propagate(a)];
  }

  /** What a record by the holder of the lease comes to, from any state: if nothing fails it returns and its event is
      at the end of the log, on disk too; if it fails before the rename, or at it, it raises and the log is as it was;
      and if the directory cannot be synced it raises with its event at the end of the log, but not yet on disk. */
  lemma EndsOfRecord(s: System, a: Actor)
    requires s.J(a).Waiting? && Holds(s.lease, a) && s.lease.T(a).phase.Outside?
    ensures var event, steps := s.J(a).event, [ReadLog(a), Rename(a), SyncDirectory(a), Return(a)];
      && Feasible(s, steps) && After(s, steps).visible == After(s, steps).durable == s.visible + [event]
      && After(s, steps).returned == s.returned + {event} && After(s, steps).raised == s.raised
    ensures var event, steps := s.J(a).event, [ReadFails(a), Propagate(a)];
      && Feasible(s, steps) && After(s, steps).visible == s.visible && After(s, steps).raised == s.raised + {event}
    ensures var event, steps := s.J(a).event, [ReadLog(a), RenameFails(a), Propagate(a)];
      && Feasible(s, steps) && After(s, steps).visible == s.visible && After(s, steps).raised == s.raised + {event}
    ensures var event, steps := s.J(a).event, [ReadLog(a), Rename(a), SyncDirectoryFails(a), Propagate(a)];
      && Feasible(s, steps) && After(s, steps).visible == s.visible + [event] && After(s, steps).durable == s.durable
      && After(s, steps).raised == s.raised + {event} && After(s, steps).returned == s.returned
  {
    RecordReturns(s, a);
    RecordFails(s, a);
    RecordUnsynced(s, a);
    hide *;
  }

  lemma RecordReturns(s: System, a: Actor)
    requires s.J(a).Waiting? && Holds(s.lease, a) && s.lease.T(a).phase.Outside?
    ensures var event, steps := s.J(a).event, [ReadLog(a), Rename(a), SyncDirectory(a), Return(a)];
      && Feasible(s, steps) && After(s, steps).visible == After(s, steps).durable == s.visible + [event]
      && After(s, steps).returned == s.returned + {event} && After(s, steps).raised == s.raised
  {
    hide Feasible, After;
    assert [ReadLog(a)] + [Rename(a), SyncDirectory(a), Return(a)] == [ReadLog(a), Rename(a), SyncDirectory(a), Return(a)];
    assert [Rename(a)] + [SyncDirectory(a), Return(a)] == [Rename(a), SyncDirectory(a), Return(a)];
    assert [SyncDirectory(a)] + [Return(a)] == [SyncDirectory(a), Return(a)] && [Return(a)] + [] == [Return(a)];
    var read := Take(s, ReadLog(a));
    var renamed := Take(read, Rename(a));
    var synced := Take(renamed, SyncDirectory(a));
    NoStep(Take(synced, Return(a)));
    NextStep(synced, Return(a), []);
    NextStep(renamed, SyncDirectory(a), [Return(a)]);
    NextStep(read, Rename(a), [SyncDirectory(a), Return(a)]);
    NextStep(s, ReadLog(a), [Rename(a), SyncDirectory(a), Return(a)]);
  }

  lemma RecordUnsynced(s: System, a: Actor)
    requires s.J(a).Waiting? && Holds(s.lease, a) && s.lease.T(a).phase.Outside?
    ensures var event, steps := s.J(a).event, [ReadLog(a), Rename(a), SyncDirectoryFails(a), Propagate(a)];
      && Feasible(s, steps) && After(s, steps).visible == s.visible + [event] && After(s, steps).durable == s.durable
      && After(s, steps).raised == s.raised + {event} && After(s, steps).returned == s.returned
  {
    hide Feasible, After;
    assert [ReadLog(a)] + [Rename(a), SyncDirectoryFails(a), Propagate(a)] == [ReadLog(a), Rename(a), SyncDirectoryFails(a), Propagate(a)];
    assert [Rename(a)] + [SyncDirectoryFails(a), Propagate(a)] == [Rename(a), SyncDirectoryFails(a), Propagate(a)];
    assert [SyncDirectoryFails(a)] + [Propagate(a)] == [SyncDirectoryFails(a), Propagate(a)] && [Propagate(a)] + [] == [Propagate(a)];
    var read := Take(s, ReadLog(a));
    var renamed := Take(read, Rename(a));
    var failed := Take(renamed, SyncDirectoryFails(a));
    NoStep(Take(failed, Propagate(a)));
    NextStep(failed, Propagate(a), []);
    NextStep(renamed, SyncDirectoryFails(a), [Propagate(a)]);
    NextStep(read, Rename(a), [SyncDirectoryFails(a), Propagate(a)]);
    NextStep(s, ReadLog(a), [Rename(a), SyncDirectoryFails(a), Propagate(a)]);
  }

  lemma RecordFails(s: System, a: Actor)
    requires s.J(a).Waiting? && Holds(s.lease, a) && s.lease.T(a).phase.Outside?
    ensures var event, steps := s.J(a).event, [ReadFails(a), Propagate(a)];
      && Feasible(s, steps) && After(s, steps).visible == s.visible && After(s, steps).raised == s.raised + {event}
    ensures var event, steps := s.J(a).event, [ReadLog(a), RenameFails(a), Propagate(a)];
      && Feasible(s, steps) && After(s, steps).visible == s.visible && After(s, steps).raised == s.raised + {event}
  {
    hide Feasible, After;
    assert [ReadFails(a)] + [Propagate(a)] == [ReadFails(a), Propagate(a)] && [Propagate(a)] + [] == [Propagate(a)];
    assert [ReadLog(a)] + [RenameFails(a), Propagate(a)] == [ReadLog(a), RenameFails(a), Propagate(a)];
    assert [RenameFails(a)] + [Propagate(a)] == [RenameFails(a), Propagate(a)];
    var unread := Take(s, ReadFails(a));
    NoStep(Take(unread, Propagate(a)));
    NextStep(unread, Propagate(a), []);
    NextStep(s, ReadFails(a), [Propagate(a)]);
    var read := Take(s, ReadLog(a));
    var failed := Take(read, RenameFails(a));
    NoStep(Take(failed, Propagate(a)));
    NextStep(failed, Propagate(a), []);
    NextStep(read, RenameFails(a), [Propagate(a)]);
    NextStep(s, ReadLog(a), [RenameFails(a), Propagate(a)]);
  }

  lemma NoStep(s: System)
    ensures Feasible(s, []) && After(s, []) == s
  {
  }

  lemma NextStep(s: System, step: Step, rest: seq<Step>)
    requires StepEnabled(s, step) && Feasible(Take(s, step), rest)
    ensures Feasible(s, [step] + rest) && After(s, [step] + rest) == After(Take(s, step), rest)
  {
    hide Take, StepEnabled;
    assert ([step] + rest)[1..] == rest;
  }

  /** A power cut ends every process, gives up the kernel lock, and leaves the log that was visible or durable. */
  lemma PowerCutEndsAll(s: System, kept: bool)
    ensures Feasible(s, [PowerCut(kept)])
    ensures var after := After(s, [PowerCut(kept)]);
      && after.jobs == map[] && after.lease.threads == map[] && after.lease.processes == map[] && after.lease.kernel == None
      && after.lease.metadata == s.lease.metadata
      && after.visible == after.durable == if kept then s.visible else s.durable
  {
    assert [PowerCut(kept)][1..] == [];
  }

  /** The system may write the directory at any time. */
  lemma DiskCatchesUp(s: System)
    ensures Feasible(s, [WriteBack]) && After(s, [WriteBack]) == s.(durable := s.visible)
  {
    assert [WriteBack][1..] == [];
  }
}
