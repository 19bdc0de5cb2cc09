// The polling loop of `FileLease.acquire`, src/llm_harness/coordination.py:104-132, against a clock.

module LeaseTiming {

  function Ceil(x: real): (n: int)
    ensures (n - 1) as real < x <= n as real
  {
    -((-x).Floor)
  }

  function Min(a: real, b: real): real {
    if a <= b then a else b
  }

  function Max(a: real, b: real): real {
    if a <= b then b else a
  }

  /** What the clock and the kernel do to one call: time passes before each clock reading, sleeps may
      overrun but never fall short, and each attempt either wins the kernel lock or does not. */
  datatype Surroundings = Surroundings(lag: nat -> real, overrun: nat -> real, grants: nat -> bool)

  ghost predicate Monotone(e: Surroundings) {
    forall i :: e.lag(i) >= 0.0 && e.overrun(i) >= 0.0
  }

  function Product(n: nat, x: real): real {
    n as real * x
  }

  lemma AtTheStart(timeout: real, poll: real)
    requires timeout >= 0.0 && poll > 0.0
    ensures Product(0, poll) == 0.0 && 0 <= Ceil(timeout / poll)
  {
    assert timeout / poll >= 0.0;
  }

  lemma ProductNext(n: nat, x: real)
    ensures Product(n + 1, x) == Product(n, x) + x
  {
  }

  lemma RoomForAnotherAttempt(failed: nat, poll: real, timeout: real)
    requires poll > 0.0 && Product(failed, poll) < timeout
    ensures failed + 1 <= Ceil(timeout / poll)
  {
    var quotient := timeout / poll;
    assert quotient * poll == timeout;
    if quotient <= failed as real {
      Scale(quotient, failed as real, poll);
    }
    assert failed as real < quotient <= Ceil(quotient) as real;
  }

  lemma Scale(a: real, b: real, c: real)
    requires a <= b && c > 0.0
    ensures a * c <= b * c
  {
    assert (b - a) * c >= 0.0;
  }

  /** The wait for the thread lock: it ends at some moment, and in vain only when the timeout is over. */
  datatype ThreadWait = ThreadWait(granted: bool, ended: real)

  ghost predicate WaitsFor(wait: ThreadWait, started: real, timeout: real) {
    wait.ended >= started && (!wait.granted ==> wait.ended >= started + timeout)
  }

  /** `acquire` up to the owner record: the thread lock, at once if this thread holds the lease already,
      and otherwise the kernel lock. Contention, of either lock, is reported only at or after the
      deadline; the kernel lock is tried at most ceil(timeout / poll) + 1 times, and never without the
      thread lock. */
  method Acquire(timeout: real, poll: real, started: real, wait: ThreadWait, depth: nat, e: Surroundings)
    returns (won: bool, attempts: nat, finished: real)
    requires timeout >= 0.0 && poll > 0.0 && Monotone(e) && WaitsFor(wait, started, timeout)
    ensures !won ==> finished >= started + timeout
    ensures attempts <= Ceil(timeout / poll) + 1
    ensures attempts == 0 <==> !wait.granted || depth > 0
    ensures attempts == 0 ==> (won <==> wait.granted)
    ensures attempts > 0 ==> (won <==> e.grants(attempts - 1)) && forall i: nat | i < attempts - 1 :: !e.grants(i)
  {
    if !wait.granted {
      AtTheStart(timeout, poll);
      return false, 0, wait.ended;
    }
    if depth > 0 {
      AtTheStart(timeout, poll);
      return true, 0, wait.ended;
    }
    won, attempts, finished := PollForLock(timeout, poll, started, wait.ended, e);
  }

  /** With the thread lock taken at `entered`: wins the lock at the first attempt the kernel grants, and
      reports contention only at or after the deadline, after at most ceil(timeout / poll) + 1 attempts. */
  method PollForLock(timeout: real, poll: real, started: real, entered: real, e: Surroundings)
    returns (won: bool, attempts: nat, finished: real)
    requires timeout >= 0.0 && poll > 0.0 && Monotone(e) && entered >= started
    ensures 1 <= attempts <= Ceil(timeout / poll) + 1
    ensures forall i: nat | i < attempts - 1 :: !e.grants(i)
    ensures won <==> e.grants(attempts - 1)
    ensures !won ==> finished >= started + timeout
  {
    hide Product, Ceil;
    AtTheStart(timeout, poll);
    var deadline := started + timeout;
    var now, failed, reading := entered, 0, 0;
    ghost var slept := 0.0;
    while true
      invariant slept == Product(failed, poll) && now >= Min(started + slept, deadline)
      invariant failed == 0 || failed <= Ceil(timeout / poll)
      invariant forall i: nat | i < failed :: !e.grants(i)
      decreases Ceil(timeout / poll) + 1 - failed
    {
      if e.grants(failed) {
        return true, failed + 1, now;
      }
      now, reading := now + e.lag(reading), reading + 1;
      if now >= deadline {
        return false, failed + 1, now;
      }
      RoomForAnotherAttempt(failed, poll, timeout);
      ProductNext(failed, poll);
      now, reading := now + e.lag(reading), reading + 1;
      now := now + Min(poll, Max(0.0, deadline - now)) + e.overrun(failed);
      failed, slept := failed + 1, slept + poll;
    }
  }
}
