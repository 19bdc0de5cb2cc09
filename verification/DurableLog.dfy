// Appending to a JSONL log under the lease: src/llm_harness/durable_io.py:27-97 as called by
// src/llm_harness/journal.py:103-108 and src/llm_harness/metrics.py:69-75.

/** Threads record events by holding the lease, reading the whole log, and replacing the file by a
    longer one. The file has the content everyone reads and the content that survives a power cut. */
module LogMachine {
  import opened Prelude
  import opened LeaseMachine
  import opened LeaseExclusion

  type Event = nat

  /** What a thread is doing inside `record`. */
  datatype Job =
    | Resting
    | Waiting(event: Event)                        // event made, log not read yet
    | Prepared(event: Event, text: seq<Event>)     // log read, temporary file written and synced
    | Renamed(event: Event)                        // temporary file renamed over the log
    | Synced(event: Event)                         // directory synced
    | Failed(event: Event)                         // an exception is on its way out
  {
    /** Between reading the log and the end of `atomic_write_text`. */
    predicate Appending() {
      Prepared? || Renamed?
    }
  }

  datatype System = System(
    lease: State,
    jobs: map<Actor, Job>,
    visible: seq<Event>,      // the log as any reader sees it
    durable: seq<Event>,      // the log a power cut is sure to leave
    nextEvent: Event,
    returned: set<Event>,     // events whose `record` returned
    raised: set<Event>)       // events whose `record` raised
  {
    function J(a: Actor): Job {
      if a in jobs then jobs[a] else Resting
    }
  }

  const Empty := System(Start, map[], [], [], 0, {}, {})

  datatype Step =
    | Lease(act: Action)        // any step of the lease; a crash also ends the process's jobs
    | Begin(a: Actor)           // journal.py:90-102
    | ReadLog(a: Actor)         // durable_io.py:91-96 and 27-43
    | ReadFails(a: Actor)       // any exception before the rename, or the lease not acquired
    | Rename(a: Actor)          // durable_io.py:44
    | RenameFails(a: Actor)     // 47-54
    | SyncDirectory(a: Actor)   // 46
    | SyncDirectoryFails(a: Actor)
    | Return(a: Actor)          // journal.py:105
    | Propagate(a: Actor)       // the exception leaves `record`
    | WriteBack                 // the system writes the directory on its own account
    | PowerCut(kept: bool)      // every process dies; an unsynced rename is kept or lost

  predicate StepEnabled(s: System, step: Step) {
    match step
    case Lease(act) => Enabled(s.lease, act) && (act.Crash? || !s.J(act.a).Appending())
    case Begin(a) => s.J(a).Resting?
    case ReadLog(a) => s.J(a).Waiting? && Holds(s.lease, a) && s.lease.T(a).phase.Outside?
    case ReadFails(a) => s.J(a).Waiting?
    case Rename(a) => s.J(a).Prepared?
    case RenameFails(a) => s.J(a).Prepared?
    case SyncDirectory(a) => s.J(a).Renamed?
    case SyncDirectoryFails(a) => s.J(a).Renamed?
    case Return(a) => s.J(a).Synced?
    case Propagate(a) => s.J(a).Failed? || s.J(a).Synced?
    case WriteBack => true
    case PowerCut(_) => true
  }

  function Become(s: System, a: Actor, job: Job): System {
    s.(jobs := s.jobs[a := job])
  }

  /** Every process gone at once; the metadata file stays as it is. */
  function AllCrashed(l: State): State {
    l.(threads := map[], processes := map[], kernel := None)
  }

  function Take(s: System, step: Step): System
    requires StepEnabled(s, step)
  {
    match step
    case Lease(act) =>
      s.(lease := Apply(s.lease, act),
         jobs := if act.Crash? then map a | a in s.jobs && a.pid != act.p :: s.jobs[a] else s.jobs)
    case Begin(a) => Become(s, a, Waiting(s.nextEvent)).(nextEvent := s.nextEvent + 1)
    case ReadLog(a) => Become(s, a, Prepared(s.J(a).event, s.visible + [s.J(a).event]))
    case ReadFails(a) => Become(s, a, Failed(s.J(a).event))
    case Rename(a) => Become(s, a, Renamed(s.J(a).event)).(visible := s.J(a).text)
    case RenameFails(a) => Become(s, a, Failed(s.J(a).event))
    case SyncDirectory(a) => Become(s, a, Synced(s.J(a).event)).(durable := s.visible)
    case SyncDirectoryFails(a) => Become(s, a, Failed(s.J(a).event))
    case Return(a) => Become(s, a, Resting).(returned := s.returned + {s.J(a).event})
    case Propagate(a) => Become(s, a, Resting).(raised := s.raised + {s.J(a).event})
    case WriteBack => s.(durable := s.visible)
    case PowerCut(kept) =>
      var left := if kept then s.visible else s.durable;
      s.(lease := AllCrashed(s.lease), jobs := map[], visible := left, durable := left)
  }

  predicate Feasible(s: System, steps: seq<Step>)
    decreases |steps|
  {
    steps == [] || (StepEnabled(s, steps[0]) && Feasible(Take(s, steps[0]), steps[1..]))
  }

  function After(s: System, steps: seq<Step>): System
    requires Feasible(s, steps)
    decreases |steps|
  {
    if steps == [] then s else After(Take(s, steps[0]), steps[1..])
  }
}
