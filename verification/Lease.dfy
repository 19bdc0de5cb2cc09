// The cross-process re-entrant lease of src/llm_harness/coordination.py as a state machine: a
// schedule is any sequence of the actions below, taken by any threads of any processes.

module LeaseMachine {
  import opened Prelude

  type Pid = nat
  type LeaseId = nat

  datatype Actor = Actor(pid: Pid, tid: nat)

  /** Where a thread is inside `acquire` or `release`; `Outside` when in neither. */
  datatype Phase =
    | Outside
    | Entered                                        // thread lock taken, lock file not open yet
    | Polling                                        // lock file open, kernel lock not won yet
    | Granted                                        // kernel lock won
    | Writing(id: LeaseId, recovered: Option<LeaseId>) // owner metadata read, owner record prepared
    | Written(id: LeaseId, recovered: Option<LeaseId>) // owner record in place, not yet synced
    | Releasing                                      // about to write the released marker
    | Marked                                         // marker written or given up
    | Unlocked                                       // kernel lock dropped
  {
    predicate Acquiring() {
      Entered? || Polling? || Granted? || Writing? || Written?
    }

    predicate Leaving() {
      Releasing? || Marked? || Unlocked?
    }
  }

  /** `_local.depth`, the program position of one thread, and how often an interrupt left it with a
      thread lock that nothing will give back. */
  datatype Thread = Thread(phase: Phase, depth: nat, leaked: nat)

  /** The re-entrant thread lock of one process. */
  datatype RLock = Free | Owned(tid: nat, count: nat)

  /** The fields of the lease object of one process. */
  datatype Process = Process(rlock: RLock, handle: bool, payload: Option<LeaseId>)

  /** The owner metadata file. */
  datatype Metadata = NoRecord | ActiveRecord(id: LeaseId) | ReleasedRecord(id: LeaseId)

  /** One write of the metadata file, as history keeps it. */
  datatype Write = OwnerWrite(id: LeaseId, recovered: Option<LeaseId>) | MarkerWrite(id: LeaseId)

  datatype State = State(
    threads: map<Actor, Thread>,
    processes: map<Pid, Process>,
    kernel: Option<Actor>,        // whose open file holds the kernel lock
    metadata: Metadata,
    nextId: LeaseId,
    history: seq<Write>,          // every metadata write so far
    abandoned: set<LeaseId>)      // owner records whose writer can no longer mark them
  {
    function T(a: Actor): Thread {
      if a in threads then threads[a] else Thread(Outside, 0, 0)
    }

    function P(p: Pid): Process {
      if p in processes then processes[p] else Process(Free, false, None)
    }
  }

  const Start := State(map[], map[], None, NoRecord, 0, [], {})

  datatype Action =
    | TakeThreadLock(a: Actor)   // coordination.py:108-115
    | OpenFile(a: Actor)         // 118-125
    | OpenFails(a: Actor)
    | TryLock(a: Actor)          // 127
    | GiveUp(a: Actor)           // 129-131
    | Interrupt(a: Actor)        // 117-132, an exception that `except Exception` does not catch
    | ReadOwner(a: Actor)        // 134-154
    | WriteOwner(a: Actor)       // 155, the rename
    | WriteOwnerFails(a: Actor)  // 155, before the rename
    | SyncFails(a: Actor)        // 155, after the rename
    | FinishAcquire(a: Actor)    // 156-159
    | ReleaseInner(a: Actor)     // 173-176
    | StartRelease(a: Actor)     // 177-182
    | WriteMarker(a: Actor)      // 184
    | MarkerFails(a: Actor)      // 185-188
    | Unlock(a: Actor)           // 189-192
    | FinishRelease(a: Actor)    // 194-197
    | Crash(p: Pid)

  /** The thread lock can be taken: it is free or already this thread's. */
  predicate LockFreeFor(r: RLock, tid: nat) {
    r.Free? || r.tid == tid
  }

  function TakeR(r: RLock, tid: nat): RLock {
    if r.Free? then Owned(tid, 1) else r.(count := r.count + 1)
  }

  function ReleaseR(r: RLock): RLock {
    if r.Free? || r.count <= 1 then Free else r.(count := r.count - 1)
  }

  predicate Enabled(s: State, act: Action) {
    match act
    case TakeThreadLock(a) => s.T(a).phase.Outside? && LockFreeFor(s.P(a.pid).rlock, a.tid)
    case OpenFile(a) => s.T(a).phase.Entered?
    case OpenFails(a) => s.T(a).phase.Entered?
    case TryLock(a) => s.T(a).phase.Polling? && s.kernel.None?
    case GiveUp(a) => s.T(a).phase.Polling?
    case Interrupt(a) => s.T(a).phase.Entered? || s.T(a).phase.Polling?
    case ReadOwner(a) => s.T(a).phase.Granted?
    case WriteOwner(a) => s.T(a).phase.Writing?
    case WriteOwnerFails(a) => s.T(a).phase.Writing?
    case SyncFails(a) => s.T(a).phase.Written?
    case FinishAcquire(a) => s.T(a).phase.Written?
    case ReleaseInner(a) => s.T(a).phase.Outside? && s.T(a).depth > 1
    case StartRelease(a) => s.T(a).phase.Outside? && s.T(a).depth == 1
    case WriteMarker(a) => s.T(a).phase.Releasing? && s.P(a.pid).payload.Some?
    case MarkerFails(a) => s.T(a).phase.Releasing? && s.P(a.pid).payload.Some?
    case Unlock(a) => s.T(a).phase.Marked?
    case FinishRelease(a) => s.T(a).phase.Unlocked?
    case Crash(p) => true
  }

  /** Nobody gets stuck by himself: a thread inside `acquire` or `release` always has a next step, other than
      being interrupted, and one outside can give back a lease it holds, in one way. */
  lemma EveryPhaseHasStep(s: State, a: Actor)
    requires s.T(a).phase.Releasing? ==> s.P(a.pid).payload.Some?
    ensures match s.T(a).phase
      case Outside => s.T(a).depth > 0 ==> (Enabled(s, ReleaseInner(a)) <==> !Enabled(s, StartRelease(a)))
      case Entered => Enabled(s, OpenFile(a)) && Enabled(s, OpenFails(a)) && !Enabled(s, GiveUp(a))
      case Polling => Enabled(s, GiveUp(a)) && (Enabled(s, TryLock(a)) <==> s.kernel.None?)
      case Granted => Enabled(s, ReadOwner(a))
      case Writing(_, _) => Enabled(s, WriteOwner(a)) && Enabled(s, WriteOwnerFails(a))
      case Written(_, _) => Enabled(s, FinishAcquire(a)) && Enabled(s, SyncFails(a))
      case Releasing => Enabled(s, WriteMarker(a)) && Enabled(s, MarkerFails(a))
      case Marked => Enabled(s, Unlock(a))
      case Unlocked => Enabled(s, FinishRelease(a))
  {
  }

  function At(s: State, a: Actor, phase: Phase): State {
    s.(threads := s.threads[a := s.T(a).(phase := phase)])
  }

  /** The `except` branch of `acquire`: close the file, release the thread lock, leave. */
  function Abort(s: State, a: Actor): State {
    At(s, a, Outside).(
      processes := s.processes[a.pid := s.P(a.pid).(rlock := ReleaseR(s.P(a.pid).rlock))],
      kernel := if s.kernel == Some(a) then None else s.kernel)
  }

  function Recovered(m: Metadata): Option<LeaseId> {
    if m.ActiveRecord? then Some(m.id) else None
  }

  function Apply(s: State, act: Action): State
    requires Enabled(s, act)
  {
    match act
    case TakeThreadLock(a) =>
      var t, p := s.T(a), s.P(a.pid);
      s.(processes := s.processes[a.pid := p.(rlock := TakeR(p.rlock, a.tid))],
         threads := s.threads[a := if t.depth > 0 then t.(depth := t.depth + 1) else t.(phase := Entered)])
    case OpenFile(a) => At(s, a, Polling)
    case OpenFails(a) => Abort(s, a)
    case TryLock(a) => At(s, a, Granted).(kernel := Some(a))
    case GiveUp(a) => Abort(s, a)
    case Interrupt(a) => s.(threads := s.threads[a := s.T(a).(phase := Outside, leaked := s.T(a).leaked + 1)])
    case ReadOwner(a) => At(s, a, Writing(s.nextId, Recovered(s.metadata))).(nextId := s.nextId + 1)
    case WriteOwner(a) =>
      var phase := s.T(a).phase;
      At(s, a, Written(phase.id, phase.recovered)).(
        metadata := ActiveRecord(phase.id),
        history := s.history + [OwnerWrite(phase.id, phase.recovered)])
    case WriteOwnerFails(a) => Abort(s, a)
    case SyncFails(a) => Abort(s, a).(abandoned := s.abandoned + {s.T(a).phase.id})
    case FinishAcquire(a) =>
      s.(threads := s.threads[a := s.T(a).(phase := Outside, depth := 1)],
         processes := s.processes[a.pid := s.P(a.pid).(handle := true, payload := Some(s.T(a).phase.id))])
    case ReleaseInner(a) =>
      s.(threads := s.threads[a := s.T(a).(depth := s.T(a).depth - 1)],
         processes := s.processes[a.pid := s.P(a.pid).(rlock := ReleaseR(s.P(a.pid).rlock))])
    case StartRelease(a) => At(s, a, Releasing)
    case WriteMarker(a) =>
      var id := s.P(a.pid).payload.value;
      At(s, a, Marked).(metadata := ReleasedRecord(id), history := s.history + [MarkerWrite(id)])
    case MarkerFails(a) => At(s, a, Marked).(abandoned := s.abandoned + {s.P(a.pid).payload.value})
    case Unlock(a) => At(s, a, Unlocked).(kernel := if s.kernel == Some(a) then None else s.kernel)
    case FinishRelease(a) =>
      s.(threads := s.threads[a := s.T(a).(phase := Outside, depth := 0)],
         processes := s.processes[a.pid := Process(ReleaseR(s.P(a.pid).rlock), false, None)])
    case Crash(p) =>
      s.(threads := map a | a in s.threads && a.pid != p :: s.threads[a],
         processes := s.processes - {p},
         kernel := if s.kernel.Some? && s.kernel.value.pid == p then None else s.kernel,
         abandoned := s.abandoned + Orphaned(s, p))
  }

  /** The owner record a crash of `p` leaves unmarked: the one its kernel-lock holder has written. */
  function Orphaned(s: State, p: Pid): set<LeaseId> {
    if s.kernel.Some? && s.kernel.value.pid == p && s.metadata.ActiveRecord? && Wrote(s, s.kernel.value)
    then {s.metadata.id} else {}
  }

  /** The holder of the kernel lock has put its own owner record in place. */
  predicate Wrote(s: State, a: Actor) {
    s.T(a).phase.Written? || s.T(a).depth > 0
  }

  /** The states a schedule leads through. */
  predicate Schedulable(s: State, acts: seq<Action>)
    decreases |acts|
  {
    acts == [] || (Enabled(s, acts[0]) && Schedulable(Apply(s, acts[0]), acts[1..]))
  }

  function Run(s: State, acts: seq<Action>): State
    requires Schedulable(s, acts)
    decreases |acts|
  {
    if acts == [] then s else Run(Apply(s, acts[0]), acts[1..])
  }
}
