/** Mutual exclusion and the bookkeeping of the locks, in every reachable state. */
module LeaseExclusion {
  import opened Prelude
  import opened LeaseMachine

  /** The phases in which a thread's own open file holds the kernel lock. */
  predicate InKernel(t: Thread) {
    t.phase.Granted? || t.phase.Writing? || t.phase.Written? || (t.depth > 0 && !t.phase.Unlocked?)
  }

  predicate Busy(t: Thread) {
    !t.phase.Outside? || t.depth > 0 || t.leaked > 0
  }

  /** How often a thread holds its process's thread lock. */
  function HeldCount(t: Thread): nat {
    t.depth + t.leaked + if t.phase.Acquiring() then 1 else 0
  }

  ghost predicate ThreadInv(s: State, a: Actor) {
    var t, p := s.T(a), s.P(a.pid);
    && (t.phase.Acquiring() ==> t.depth == 0)
    && (t.phase.Leaving() ==> t.depth == 1)
    && (Busy(t) ==> p.rlock == Owned(a.tid, HeldCount(t)))
    && (t.depth > 0 ==> p.handle)
    && (s.kernel == Some(a) <==> InKernel(t))
  }

  ghost predicate ProcessInv(s: State, p: Pid) {
    var q := s.P(p);
    && (q.rlock.Owned? ==> q.rlock.count > 0 && Busy(s.T(Actor(p, q.rlock.tid))))
    && (q.handle ==> q.rlock.Owned? && s.T(Actor(p, q.rlock.tid)).depth > 0)
    && (q.handle <==> q.payload.Some?)
  }

  ghost predicate LockInv(s: State) {
    && (forall a :: ThreadInv(s, a))
    && (forall p :: ProcessInv(s, p))
  }

  predicate FailedAcquire(act: Action) {
    act.OpenFails? || act.GiveUp? || act.WriteOwnerFails? || act.SyncFails?
  }

  predicate ReleaseAction(act: Action) {
    act.ReleaseInner? || act.StartRelease? || act.WriteMarker? || act.MarkerFails? || act.Unlock? || act.FinishRelease?
  }

  lemma LockInvStep(s: State, act: Action)
    requires LockInv(s) && Enabled(s, act)
    ensures LockInv(Apply(s, act))
  {
    if act.Crash? {
      CrashKeepsLocks(s, act.p);
    } else if FailedAcquire(act) {
      AbortKeepsLocks(s, act);
    } else if ReleaseAction(act) {
      ReleaseKeepsLocks(s, act);
    } else if act.TakeThreadLock? || act.Interrupt? {
      ThreadLockKeepsLocks(s, act);
    } else {
      AcquireKeepsLocks(s, act);
    }
  }

  lemma ThreadLockKeepsLocks(s: State, act: Action)
    requires LockInv(s) && Enabled(s, act) && (act.TakeThreadLock? || act.Interrupt?)
    ensures LockInv(Apply(s, act))
  {
    var s', a := Apply(s, act), act.a;
    assert ThreadInv(s, a) && ProcessInv(s, a.pid);
    forall b ensures ThreadInv(s', b) {
      assert ThreadInv(s, b);
    }
    forall p ensures ProcessInv(s', p) {
      assert ProcessInv(s, p);
    }
  }

  lemma AcquireKeepsLocks(s: State, act: Action)
    requires LockInv(s) && Enabled(s, act) && !act.Crash? && !FailedAcquire(act) && !ReleaseAction(act)
    requires !act.TakeThreadLock? && !act.Interrupt?
    ensures LockInv(Apply(s, act))
  {
    var s', a := Apply(s, act), act.a;
    assert ThreadInv(s, a) && ProcessInv(s, a.pid);
    forall b ensures ThreadInv(s', b) {
      assert ThreadInv(s, b);
    }
    forall p ensures ProcessInv(s', p) {
      assert ProcessInv(s, p);
    }
  }

  lemma AbortKeepsLocks(s: State, act: Action)
    requires LockInv(s) && Enabled(s, act) && FailedAcquire(act)
    ensures LockInv(Apply(s, act))
  {
    var s', a := Apply(s, act), act.a;
    assert ThreadInv(s, a) && ProcessInv(s, a.pid);
    forall b ensures ThreadInv(s', b) {
      assert ThreadInv(s, b);
    }
    forall p ensures ProcessInv(s', p) {
      assert ProcessInv(s, p);
    }
  }

  lemma ReleaseKeepsLocks(s: State, act: Action)
    requires LockInv(s) && Enabled(s, act) && ReleaseAction(act)
    ensures LockInv(Apply(s, act))
  {
    var s', a := Apply(s, act), act.a;
    assert ThreadInv(s, a) && ProcessInv(s, a.pid);
    forall b ensures ThreadInv(s', b) {
      assert ThreadInv(s, b);
    }
    forall p ensures ProcessInv(s', p) {
      assert ProcessInv(s, p);
    }
  }

  lemma CrashKeepsLocks(s: State, p: Pid)
    requires LockInv(s)
    ensures LockInv(Apply(s, Crash(p)))
  {
    var s' := Apply(s, Crash(p));
    forall b ensures ThreadInv(s', b) {
      assert ThreadInv(s, b);
    }
    forall q ensures ProcessInv(s', q) {
      assert ProcessInv(s, q);
    }
  }

  /** The thread has the lease: it is past `acquire` and has not dropped the kernel lock again. */
  predicate Holds(s: State, a: Actor) {
    s.T(a).depth > 0 && !s.T(a).phase.Unlocked?
  }

  lemma {:induction false} LockInvReachable(s: State, acts: seq<Action>)
    requires LockInv(s) && Schedulable(s, acts)
    ensures LockInv(Run(s, acts))
    decreases |acts|
  {
    if acts != [] {
      LockInvStep(s, acts[0]);
      LockInvReachable(Apply(s, acts[0]), acts[1..]);
    }
  }

  /** In any schedule of any processes and threads, with any crashes and failed acquires: at most
      one thread holds the lease; while it is outside `acquire` and `release` its thread-lock count
      is its depth, but for locks leaked by interrupts; every other thread of its process has depth 0 and is outside; and the lock
      file is open in a process exactly while one of its threads is between the two. */
  lemma AtMostOneHolder(acts: seq<Action>, a: Actor)
    requires Schedulable(Start, acts)
    ensures var s := Run(Start, acts);
      && (forall b | Holds(s, a) && Holds(s, b) :: a == b)
      && (Holds(s, a) ==> s.kernel == Some(a))
      && (s.T(a).phase.Outside? && s.T(a).depth > 0 ==> s.P(a.pid).rlock == Owned(a.tid, s.T(a).depth + s.T(a).leaked))
      && (forall b: Actor | b.pid == a.pid && b != a && s.T(a).depth > 0 :: s.T(b) == Thread(Outside, 0, 0))
      && (s.P(a.pid).handle <==> exists tid :: s.T(Actor(a.pid, tid)).depth > 0)
  {
    LockInvReachable(Start, acts);
    var s := Run(Start, acts);
    assert ThreadInv(s, a) && ProcessInv(s, a.pid);
    forall b | Holds(s, a) && Holds(s, b) ensures a == b {
      assert ThreadInv(s, b);
    }
    forall b: Actor | b.pid == a.pid && b != a && s.T(a).depth > 0 ensures s.T(b) == Thread(Outside, 0, 0) {
      assert ThreadInv(s, b);
    }
    if tid :| s.T(Actor(a.pid, tid)).depth > 0 {
      assert ThreadInv(s, Actor(a.pid, tid));
    }
  }

  /** A failed acquire leaves nothing behind in its process: depth 0, no open file, no owner payload, the
      kernel lock not held, and the thread lock free, or, if interrupts have leaked it before, as often
      taken as they left it. */
  lemma FailedAcquireRestores(acts: seq<Action>, act: Action)
    requires Schedulable(Start, acts) && Enabled(Run(Start, acts), act) && FailedAcquire(act)
    ensures var s, s' := Run(Start, acts), Apply(Run(Start, acts), act);
      var leaked := s.T(act.a).leaked;
      && s'.P(act.a.pid) == Process(if leaked == 0 then Free else Owned(act.a.tid, leaked), false, None)
      && s'.T(act.a) == Thread(Outside, 0, leaked)
      && s'.kernel != Some(act.a)
  {
    LockInvReachable(Start, acts);
    var s := Run(Start, acts);
    assert ThreadInv(s, act.a) && ProcessInv(s, act.a.pid);
  }

  /** How an acquire of a thread that holds nothing can end without the lease: it gives the thread lock
      back if and only if what ends it is caught, that is, if it is no interrupt. */
  lemma AcquireRestoresExactlyWhen(acts: seq<Action>, act: Action)
    requires Schedulable(Start, acts) && Enabled(Run(Start, acts), act) && (FailedAcquire(act) || act.Interrupt?)
    requires Run(Start, acts).T(act.a).leaked == 0
    ensures Apply(Run(Start, acts), act).P(act.a.pid).rlock == Free <==> !act.Interrupt?
  {
    LockInvReachable(Start, acts);
    var s := Run(Start, acts);
    assert ThreadInv(s, act.a) && ProcessInv(s, act.a.pid);
  }

  lemma LeakStays(s: State, act: Action, a: Actor)
    requires Enabled(s, act) && s.T(a).leaked > 0 && act != Crash(a.pid)
    ensures Apply(s, act).T(a).leaked > 0
  {
  }

  /** After an interrupt no other thread of the process ever gets the thread lock again, until the process
      ends. */
  lemma {:induction false} InterruptLocksOthersOut(s: State, more: seq<Action>, a: Actor, b: Actor)
    requires LockInv(s) && s.T(a).leaked > 0 && a.pid == b.pid && a != b
    requires Schedulable(s, more) && forall i | 0 <= i < |more| :: more[i] != Crash(a.pid)
    ensures !Enabled(Run(s, more), TakeThreadLock(b))
    decreases |more|
  {
    if more == [] {
      assert ThreadInv(s, a) && ThreadInv(s, b);
    } else {
      LockInvStep(s, more[0]);
      LeakStays(s, more[0], a);
      assert forall i | 0 <= i < |more| - 1 :: more[1..][i] == more[i + 1];
      InterruptLocksOthersOut(Apply(s, more[0]), more[1..], a, b);
    }
  }

  /** In any run: from the moment an interrupt ends the acquire of one thread, no other thread of the process gets
      the thread lock until the process ends. The kernel lock and the lease object stay as they were. */
  lemma InterruptLeaksThreadLock(acts: seq<Action>, more: seq<Action>, a: Actor, b: Actor)
    requires Schedulable(Start, acts) && Enabled(Run(Start, acts), Interrupt(a)) && a.pid == b.pid && a != b
    requires Schedulable(Apply(Run(Start, acts), Interrupt(a)), more) && forall i | 0 <= i < |more| :: more[i] != Crash(a.pid)
    ensures !Enabled(Run(Apply(Run(Start, acts), Interrupt(a)), more), TakeThreadLock(b))
    ensures var s, after := Run(Start, acts), Apply(Run(Start, acts), Interrupt(a));
      after.kernel == s.kernel && after.P(a.pid) == s.P(a.pid) && after.T(a).phase == Outside
  {
    LockInvReachable(Start, acts);
    var s := Run(Start, acts);
    LockInvStep(s, Interrupt(a));
    hide LockInv, Run, Schedulable;
    InterruptLocksOthersOut(Apply(s, Interrupt(a)), more, a, b);
  }
}
