/** Retry delays in 64-bit arithmetic, and the loop that sleeps between attempts. */
module Retry {

  newtype Int64 = n: int | -0x8000_0000_0000_0000 <= n < 0x8000_0000_0000_0000

  function Pow2(n: nat): nat {
    if n == 0 then 1 else 2 * Pow2(n - 1)
  }

  lemma {:induction false} Pow2Monotone(m: nat, n: nat)
    requires m <= n
    ensures 1 <= Pow2(m) <= Pow2(n)
    decreases n
  {
    if m < n { Pow2Monotone(m, n - 1); } else if n > 0 { Pow2Monotone(n - 1, n - 1); }
  }

  /** The uncapped delay before attempt n + 1. */
  function Ideal(base: nat, n: nat): nat
    requires n >= 1
  {
    base * Pow2(n - 1)
  }

  lemma IdealMonotone(base: nat, m: nat, n: nat)
    requires 1 <= m <= n
    ensures Ideal(base, m) <= Ideal(base, n)
    ensures m < n ==> 2 * Ideal(base, m) <= Ideal(base, n)
  {
    Pow2Monotone(m - 1, n - 1);
    assert base * Pow2(m - 1) <= base * Pow2(n - 1);
    if m < n {
      Pow2Monotone(m, n - 1);
      assert base * Pow2(m) == 2 * (base * Pow2(m - 1));
      assert base * Pow2(m) <= base * Pow2(n - 1);
    }
  }

  function Attempt(attempt: int): nat {
    if attempt < 1 then 1 else attempt
  }

  /**
   The delay in closed form: the capped exponential, except that a doubling that lands exactly one below
   the maximum is rounded up to it.
   */
  function DelayOf(base: nat, max: nat, attempt: int): nat {
    var n := Attempt(attempt);
    var ideal := Ideal(base, n);
    if n >= 2 && ideal + 1 == max then max else if ideal < max then ideal else max
  }

  /** Two's complement wrap-around to 64 bits. */
  function Wrap(n: int): Int64 {
    ((n + 0x8000_0000_0000_0000) % 0x1_0000_0000_0000_0000 - 0x8000_0000_0000_0000) as Int64
  }

  /** Division by two toward zero. */
  function Half(n: Int64): Int64 {
    (if 0 <= n then n as int / 2 else -(-(n as int) / 2)) as Int64
  }

  /** What the doubling loop returns after at most so many more turns, whatever the signs and the overflow. */
  function Doubled(delay: Int64, max: Int64, turns: nat): Int64
    decreases turns
  {
    if turns == 0 then (if delay > max then max else delay)
    else if delay >= Half(max) then max
    else Doubled(Wrap(2 * (delay as int)), max, turns - 1)
  }

  datatype RetryPolicy = RetryPolicy(attempts: int, baseDelay: Int64, maxDelay: Int64) {
    predicate NonNegative() {
      0 <= baseDelay && 0 <= maxDelay
    }

    function DelayAfter(attempt: int): Int64 {
      Doubled(baseDelay, maxDelay, Attempt(attempt) - 1)
    }

    /** How long a timer with that delay runs; it fires at once when the delay is negative. */
    function Pause(attempt: int): nat {
      if DelayAfter(attempt) < 0 then 0 else DelayAfter(attempt) as nat
    }
  }

  method Delay(p: RetryPolicy, attempt: int) returns (delay: Int64)
    ensures delay == p.DelayAfter(attempt)
  {
    var last := attempt;
    if last < 1 {
      last := 1;
    }
    delay := p.baseDelay;
    var i := 1;
    while i < last
      invariant 1 <= i <= last
      invariant Doubled(delay, p.maxDelay, last - i) == p.DelayAfter(attempt)
      decreases last - i
    {
      if delay >= Half(p.maxDelay) {
        return p.maxDelay;
      }
      delay := Wrap(2 * (delay as int));
      i := i + 1;
    }
    if delay > p.maxDelay {
      return p.maxDelay;
    }
  }

  /** For every policy the delay is at most the maximum. */
  lemma {:induction false} NeverAboveMax(delay: Int64, max: Int64, turns: nat)
    ensures Doubled(delay, max, turns) <= max
    decreases turns
  {
    if turns > 0 && delay < Half(max) { NeverAboveMax(Wrap(2 * (delay as int)), max, turns - 1); }
  }

  /** Doubling a nonnegative delay below half of the maximum does not overflow. */
  lemma DoublesWithin(delay: Int64, max: Int64)
    requires 0 <= delay < Half(max)
    ensures Wrap(2 * (delay as int)) as int == 2 * (delay as int) <= max as int - 2
  {
  }

  lemma {:induction false} DoubledExact(base: nat, max: Int64, delay: Int64, i: nat, last: nat)
    requires 1 <= i <= last && 0 <= max && 0 <= delay && delay as int == Ideal(base, i)
    requires i > 1 ==> delay as int + 2 <= max as int
    ensures Doubled(delay, max, last - i) as int == DelayOf(base, max as int, last)
    decreases last - i
  {
    if i < last {
      if delay >= Half(max) {
        IdealMonotone(base, i, last);
      } else {
        DoublesWithin(delay, max);
        assert base * Pow2(i) == 2 * (base * Pow2(i - 1));
        DoubledExact(base, max, Wrap(2 * (delay as int)), i + 1, last);
      }
    }
  }

  /** For nonnegative delays no doubling overflows: the loop computes the closed form over unbounded integers. */
  lemma DelayExact(p: RetryPolicy, attempt: int)
    requires p.NonNegative()
    ensures p.DelayAfter(attempt) as int == DelayOf(p.baseDelay as int, p.maxDelay as int, attempt)
  {
    assert Pow2(0) == 1;
    DoubledExact(p.baseDelay as int, p.maxDelay, p.baseDelay, 1, Attempt(attempt));
  }

  /** Delays never shrink from one attempt to a later one, and never exceed the maximum. */
  lemma DelayMonotone(base: nat, max: nat, m: int, n: int)
    requires m <= n
    ensures DelayOf(base, max, m) <= DelayOf(base, max, n) <= max
  {
    IdealMonotone(base, Attempt(m), Attempt(n));
  }

  /** The delay is the capped exponential except one below an odd maximum, where it is one more. */
  lemma DelayNearIdeal(base: nat, max: nat, attempt: int)
    ensures var n := Attempt(attempt);
            var capped := if Ideal(base, n) < max then Ideal(base, n) else max;
            && DelayOf(base, max, attempt) == (if n >= 2 && Ideal(base, n) + 1 == max then capped + 1 else capped)
            && (max % 2 == 0 ==> DelayOf(base, max, attempt) == capped)
  {
    var n := Attempt(attempt);
    if n >= 2 {
      assert Pow2(n - 1) == 2 * Pow2(n - 2);
      assert base * Pow2(n - 1) == 2 * (base * Pow2(n - 2));
    }
  }

  // ---------- the retry loop ----------

  /** What the environment does: cancellation before an attempt, the attempt's result, a cancelled sleep. */
  datatype Environment = Environment(
    cancelledBefore: nat -> bool, succeeds: nat -> bool, sleepCutShort: nat -> bool, sleptBeforeCut: nat -> nat)

  datatype Outcome = Succeeded | Exhausted | Cancelled | Refused

  datatype Job = Job(id: string, attempts: int, maxAttempts: int)

  /** The closure around the executor: it counts the attempt in the job, then executes. */
  class Operation {
    var job: Job
    /** The attempt numbers the executor was given. */
    var executed: seq<int>

    constructor (job: Job)
      ensures this.job == job && executed == []
    {
      this.job, executed := job, [];
    }

    method Call(succeeds: bool) returns (ok: bool)
      modifies this
      ensures ok == succeeds
      ensures job == old(job).(attempts := old(job).attempts + 1) && executed == old(executed) + [job.attempts]
    {
      job := job.(attempts := job.attempts + 1);
      executed := executed + [job.attempts];
      return succeeds;
    }
  }

  /** The attempt numbers of the next n calls. */
  function Numbers(attempts: int, n: nat): seq<int> {
    seq(n, k requires 0 <= k < n => attempts + k + 1)
  }

  // ---------- the total sleep ----------

  /** The sleep after the first n calls, none of it cut short. */
  function SleptOver(p: RetryPolicy, n: nat): nat {
    if n == 0 then 0 else SleptOver(p, n - 1) + p.Pause(n)
  }

  /** What is slept after the last call of a cancelled run, less when that sleep is cut short. */
  function Tail(p: RetryPolicy, env: Environment, calls: nat): nat {
    if env.sleepCutShort(calls) && env.sleptBeforeCut(calls) < p.Pause(calls) then env.sleptBeforeCut(calls)
    else p.Pause(calls)
  }

  /** The total sleep of a run. */
  function TotalSleep(p: RetryPolicy, env: Environment, result: Outcome, calls: nat): nat {
    if calls == 0 then 0 else SleptOver(p, calls - 1) + (if result.Cancelled? then Tail(p, env, calls) else 0)
  }

  function Longest(p: RetryPolicy): nat {
    if p.maxDelay < 0 then 0 else p.maxDelay as nat
  }

  lemma PauseAtMost(p: RetryPolicy, n: nat)
    ensures p.Pause(n) <= Longest(p)
  {
    NeverAboveMax(p.baseDelay, p.maxDelay, Attempt(n) - 1);
  }

  lemma OneMore(n: nat, each: nat)
    requires n > 0
    ensures n * each == (n - 1) * each + each
  {
  }

  lemma {:induction false} SleptAtMost(p: RetryPolicy, n: nat)
    ensures SleptOver(p, n) <= n * Longest(p)
  {
    if n > 0 {
      SleptAtMost(p, n - 1);
      PauseAtMost(p, n);
      OneMore(n, Longest(p));
    }
  }

  /**
   A run that is not cancelled sleeps at most the maximum between any two calls; a cancelled one at most once more.
   */
  lemma SleepBounded(p: RetryPolicy, env: Environment, result: Outcome, calls: nat)
    requires calls > 0
    ensures !result.Cancelled? ==> TotalSleep(p, env, result, calls) <= (calls - 1) * Longest(p)
    ensures TotalSleep(p, env, result, calls) <= calls * Longest(p)
  {
    SleptAtMost(p, calls - 1);
    PauseAtMost(p, calls);
    OneMore(calls, Longest(p));
  }

  // ---------- the loop ----------

  /** When a run of so many calls that have all failed ends by cancellation. */
  predicate CancelledAfter(env: Environment, calls: nat) {
    (calls > 0 && env.sleepCutShort(calls)) || env.cancelledBefore(calls + 1)
  }

  /** How the run of a policy in an environment ends, and after how many calls. */
  ghost predicate Ends(p: RetryPolicy, env: Environment, result: Outcome, calls: nat) {
    && (result == Refused <==> p.attempts < 1)
    && (calls == 0 || calls <= p.attempts)
    && (forall k :: 1 <= k < calls ==> !env.succeeds(k))
    && (forall k :: 0 <= k < calls ==> !CancelledAfter(env, k))
    && (result == Succeeded <==> calls > 0 && env.succeeds(calls))
    && (result == Exhausted <==> p.attempts >= 1 && calls == p.attempts && !env.succeeds(calls))
    && (result == Cancelled ==> CancelledAfter(env, calls))
  }

  /** There is only one way it can end. */
  lemma EndsUnique(p: RetryPolicy, env: Environment, result: Outcome, calls: nat, result': Outcome, calls': nat)
    requires Ends(p, env, result, calls) && Ends(p, env, result', calls')
    ensures result == result' && calls == calls'
  {
  }

  /**
   Calls the operation until it succeeds, the attempts run out or the context is cancelled, and sleeps the
   policy's delay between two calls.
   */
  method RunWithRetry(p: RetryPolicy, env: Environment, operation: Operation)
    returns (result: Outcome, calls: nat, slept: nat)
    modifies operation
    ensures operation.executed == old(operation.executed) + Numbers(old(operation.job).attempts, calls)
    ensures operation.job == old(operation.job).(attempts := old(operation.job).attempts + calls)
    ensures Ends(p, env, result, calls)
    ensures slept == TotalSleep(p, env, result, calls)
  {
    if p.attempts < 1 {
      return Refused, 0, 0;
    }
    calls, slept := 0, 0;
    var attempt := 1;
    while true
      invariant 1 <= attempt <= p.attempts && calls == attempt - 1
      invariant forall k :: 1 <= k <= calls ==> !env.succeeds(k)
      invariant forall k :: 0 <= k < calls ==> !CancelledAfter(env, k)
      invariant calls > 0 ==> !env.sleepCutShort(calls)
      invariant slept == SleptOver(p, calls)
      invariant operation.executed == old(operation.executed) + Numbers(old(operation.job).attempts, calls)
      invariant operation.job == old(operation.job).(attempts := old(operation.job).attempts + calls)
      decreases p.attempts - attempt
    {
      if env.cancelledBefore(attempt) {
        return Cancelled, calls, slept;
      }
      var ok := operation.Call(env.succeeds(attempt));
      calls := attempt;
      if ok {
        return Succeeded, calls, slept;
      }
      if attempt == p.attempts {
        return Exhausted, calls, slept;
      }
      var delay := Delay(p, attempt);
      var pause: nat := if delay < 0 then 0 else delay as nat;
      if env.sleepCutShort(attempt) {
        var partial := env.sleptBeforeCut(attempt);
        slept := slept + (if partial < pause then partial else pause);
        return Cancelled, calls, slept;
      }
      slept := slept + pause;
      attempt := attempt + 1;
    }
  }

  /** In no environment does a run sleep longer than the maximum between any two calls. */
  ghost predicate Bounded(p: RetryPolicy) {
    forall env: Environment, result: Outcome, calls: nat {:trigger Ends(p, env, result, calls)} ::
      calls > 0 && Ends(p, env, result, calls) ==> TotalSleep(p, env, result, calls) <= (calls - 1) * Longest(p)
  }

  /** A first delay of zero leaves room for one more. */
  lemma {:induction false} NoFirstPause(p: RetryPolicy, n: nat)
    requires n > 0 && p.Pause(1) == 0
    ensures SleptOver(p, n) <= (n - 1) * Longest(p)
  {
    if n == 1 {
      assert SleptOver(p, 0) == 0;
    } else {
      NoFirstPause(p, n - 1);
      PauseAtMost(p, n);
      OneMore(n - 1, Longest(p));
    }
  }

  /** A policy keeps that bound whatever happens exactly when it never retries or its first delay is zero. */
  lemma BoundedExactly(p: RetryPolicy)
    ensures Bounded(p) <==> p.attempts < 2 || p.Pause(1) == 0
  {
    if p.attempts < 2 || p.Pause(1) == 0 {
      forall env: Environment, result: Outcome, calls: nat | calls > 0 && Ends(p, env, result, calls)
        ensures TotalSleep(p, env, result, calls) <= (calls - 1) * Longest(p)
      {
        SleepBounded(p, env, result, calls);
        if p.Pause(1) == 0 {
          NoFirstPause(p, calls);
        }
      }
    } else {
      FirstSleepCut(p);
    }
  }

  /** Otherwise one failed call and a sleep cut short at its very end exceed it. */
  lemma FirstSleepCut(p: RetryPolicy)
    requires p.attempts >= 2 && p.Pause(1) > 0
    ensures !Bounded(p)
  {
    var pause := p.Pause(1);
    var env := Environment(n => false, n => false, n => n == 1, n => pause);
    assert SleptOver(p, 0) == 0;
    assert CancelledAfter(env, 1);
    assert Ends(p, env, Cancelled, 1);
  }

  /** One failed call, then a cancellation while sleeping: it has slept although it never retried. */
  method CancelledWhileSleeping(p: RetryPolicy, env: Environment, operation: Operation) returns (calls: nat, slept: nat)
    requires p.attempts >= 2 && p.Pause(1) > 0
    requires !env.cancelledBefore(1) && !env.succeeds(1) && env.sleepCutShort(1) && env.sleptBeforeCut(1) > 0
    modifies operation
    ensures calls == 1 && slept > (calls - 1) * Longest(p)
  {
    var result;
    result, calls, slept := RunWithRetry(p, env, operation);
    assert CancelledAfter(env, 1);
    assert !CancelledAfter(env, 0);
    assert SleptOver(p, 0) == 0;
  }

  /** The smaller of the policy's attempts and a positive cap of the job. */
  ghost predicate IsCap(attempts: int, p: RetryPolicy, job: Job) {
    && attempts <= p.attempts && (attempts == p.attempts || attempts == job.maxAttempts)
    && (job.maxAttempts > 0 ==> attempts <= job.maxAttempts) && (job.maxAttempts <= 0 ==> attempts == p.attempts)
  }

  /** A job is executed at most as often as both the policy and its own cap allow, with increasing attempt numbers. */
  method Process(p: RetryPolicy, job: Job, executor: bool, env: Environment)
    returns (result: Outcome, calls: nat, slept: nat, executed: seq<int>)
    ensures job.id == "" || !executor ==> result == Refused && calls == 0
    ensures calls == 0 || calls <= p.attempts
    ensures job.maxAttempts > 0 ==> calls <= job.maxAttempts
    ensures |executed| == calls && forall k :: 0 <= k < calls ==> executed[k] == job.attempts + k + 1
    ensures slept == TotalSleep(p, env, result, calls)
    ensures job.id != "" && executor ==>
              exists attempts :: IsCap(attempts, p, job) && Ends(p.(attempts := attempts), env, result, calls)
    ensures result == Exhausted ==> IsCap(calls, p, job)
    ensures result == Succeeded <==> calls > 0 && env.succeeds(calls)
  {
    if job.id == "" || !executor {
      return Refused, 0, 0, [];
    }
    var policy := p;
    if job.maxAttempts > 0 && policy.attempts > job.maxAttempts {
      policy := policy.(attempts := job.maxAttempts);
    }
    var operation := new Operation(job);
    result, calls, slept := RunWithRetry(policy, env, operation);
    executed := operation.executed;
    assert IsCap(policy.attempts, p, job) && policy == p.(attempts := policy.attempts);
    CapSleepsAlike(p, policy.attempts, env, result, calls);
  }

  /** The number of attempts has no part in the delays. */
  lemma {:induction false} CapSleepsAlike(p: RetryPolicy, attempts: int, env: Environment, result: Outcome, calls: nat)
    ensures TotalSleep(p.(attempts := attempts), env, result, calls) == TotalSleep(p, env, result, calls)
  {
    if calls > 0 { CapSleptAlike(p, attempts, calls - 1); }
  }

  lemma {:induction false} CapSleptAlike(p: RetryPolicy, attempts: int, n: nat)
    ensures SleptOver(p.(attempts := attempts), n) == SleptOver(p, n)
  {
    if n > 0 { CapSleptAlike(p, attempts, n - 1); }
  }
}
