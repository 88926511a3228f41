/**
 * The `useRetry` hook: call an action up to `maxAttempts` times, waiting
 * between failed attempts (doubling the wait when `backoff` is on), and
 * report whether a retry is under way. The action is a function from the
 * attempt number (counting from 1) to its outcome; the waits are recorded
 * instead of slept.
 */
module UseRetry {
  import opened Wrappers

  datatype Outcome<T, E> = Success(value: T) | Failure(error: E)

  /** A rethrown action error, or the hook's own error when no attempt runs. */
  datatype RetryError<E> = Thrown(error: E) | MaxAttemptsReached

  const MaxAttemptsMessage := "Max retry attempts reached"

  /** Options left undefined take the destructuring defaults. */
  datatype RetryOptions = RetryOptions(maxAttempts: Option<int>, delay: Option<int>, backoff: Option<bool>)

  function MaxAttempts(o: RetryOptions): int { if o.maxAttempts.Some? then o.maxAttempts.value else 3 }
  function Delay(o: RetryOptions): int { if o.delay.Some? then o.delay.value else 1000 }
  function Backoff(o: RetryOptions): bool { if o.backoff.Some? then o.backoff.value else true }

  /** How a call of `retry` ends: its result, how often the action ran, and each wait in order. */
  datatype RetryRun<T, E> = RetryRun(result: Result<T, RetryError<E>>, attempts: nat, waits: seq<int>)

  function Pow2(k: nat): nat {
    if k == 0 then 1 else 2 * Pow2(k - 1)
  }

  /** The wait after failed attempt `attempt` (counting from 1). */
  function Wait(delay: int, backoff: bool, attempt: nat): int
    requires attempt >= 1
  {
    if backoff then delay * Pow2(attempt - 1) else delay
  }

  /** The attempts from `attempt` on. */
  function RetryFrom<T, E>(fn: nat -> Outcome<T, E>, attempt: nat, maxAttempts: int, delay: int, backoff: bool)
    : (r: RetryRun<T, E>)
    requires attempt >= 1
    decreases if attempt <= maxAttempts then maxAttempts - attempt + 1 else 0
  {
    if attempt > maxAttempts then RetryRun(Err(MaxAttemptsReached), 0, [])
    else match fn(attempt)
      case Success(v) => RetryRun(Ok(v), 1, [])
      case Failure(e) =>
        if attempt == maxAttempts then RetryRun(Err(Thrown(e)), 1, [])
        else
          var rest := RetryFrom(fn, attempt + 1, maxAttempts, delay, backoff);
          RetryRun(rest.result, 1 + rest.attempts, [Wait(delay, backoff, attempt)] + rest.waits)
  }

  /** `run` preceded by `attempts` failed attempts and their `waits`. */
  function After<T, E>(attempts: nat, waits: seq<int>, run: RetryRun<T, E>): RetryRun<T, E> {
    RetryRun(run.result, attempts + run.attempts, waits + run.waits)
  }

  /** A failed attempt that is not the last one is followed by its wait and the remaining attempts. */
  lemma RetryFromFailure<T, E>(fn: nat -> Outcome<T, E>, a: nat, m: int, d: int, b: bool, done: nat, waits: seq<int>)
    requires 1 <= a < m && fn(a).Failure?
    ensures After(done, waits, RetryFrom(fn, a, m, d, b))
         == After(done + 1, waits + [Wait(d, b, a)], RetryFrom(fn, a + 1, m, d, b))
  {
    var rest := RetryFrom(fn, a + 1, m, d, b);
    assert waits + ([Wait(d, b, a)] + rest.waits) == (waits + [Wait(d, b, a)]) + rest.waits;
  }

  /** The attempt that decides the result adds no wait. */
  lemma RetryFromDecided<T, E>(fn: nat -> Outcome<T, E>, a: nat, m: int, d: int, b: bool, done: nat, waits: seq<int>)
    requires 1 <= a <= m && (fn(a).Success? || a == m)
    ensures After(done, waits, RetryFrom(fn, a, m, d, b))
         == RetryRun(if fn(a).Success? then Ok(fn(a).value) else Err(Thrown(fn(a).error)), done + 1, waits)
  {
    assert waits + [] == waits;
  }

  /** A whole call of `retry`. */
  function Retried<T, E>(fn: nat -> Outcome<T, E>, options: RetryOptions): (r: RetryRun<T, E>)
    ensures r.attempts <= if MaxAttempts(options) > 0 then MaxAttempts(options) else 0
    ensures r.result == Err(MaxAttemptsReached) <==> MaxAttempts(options) <= 0
  {
    RetryFromShape(fn, 1, MaxAttempts(options), Delay(options), Backoff(options));
    RetryFrom(fn, 1, MaxAttempts(options), Delay(options), Backoff(options))
  }

  /**
   * The action runs at most once per remaining attempt; every attempt but the
   * last one failed and was followed by its wait; the last one decided the result.
   */
  lemma {:induction false} RetryFromShape<T, E>(fn: nat -> Outcome<T, E>, a: nat, m: int, d: int, b: bool)
    requires a >= 1
    ensures var r := RetryFrom(fn, a, m, d, b);
      && (a > m ==> r == RetryRun(Err(MaxAttemptsReached), 0, []))
      && (a <= m ==> 1 <= r.attempts <= m - a + 1)
      && |r.waits| == (if r.attempts == 0 then 0 else r.attempts - 1)
      && (forall i :: 0 <= i < |r.waits| ==> r.waits[i] == Wait(d, b, a + i))
      && (forall j :: a <= j < a + r.attempts - 1 ==> fn(j).Failure?)
      && (r.result.Ok? <==> r.attempts >= 1 && fn(a + r.attempts - 1).Success?)
      && (r.result.Ok? ==> fn(a + r.attempts - 1) == Success(r.result.value))
      && (a <= m && r.result.Err? ==> r.attempts == m - a + 1 && fn(m).Failure? && r.result.error == Thrown(fn(m).error))
    decreases if a <= m then m - a + 1 else 0
  {
    if a <= m && fn(a).Failure? && a < m {
      RetryFromShape(fn, a + 1, m, d, b);
      var rest := RetryFrom(fn, a + 1, m, d, b);
      var r := RetryFrom(fn, a, m, d, b);
      assert r.waits == [Wait(d, b, a)] + rest.waits;
      assert forall i :: 1 <= i < |r.waits| ==> r.waits[i] == rest.waits[i - 1];
    }
  }

  /** With no options, the action runs at most three times. */
  lemma DefaultAttempts<T, E>(fn: nat -> Outcome<T, E>)
    ensures MaxAttempts(RetryOptions(None, None, None)) == 3
    ensures Retried(fn, RetryOptions(None, None, None)).attempts <= 3
  {
    RetryFromShape(fn, 1, 3, 1000, true);
  }

  /** With no attempt allowed the action never runs and the hook's own error is thrown. */
  lemma NoAttemptAllowed<T, E>(fn: nat -> Outcome<T, E>, options: RetryOptions)
    requires MaxAttempts(options) <= 0
    ensures Retried(fn, options) == RetryRun(Err(MaxAttemptsReached), 0, [])
  {
  }

  /** The first success within the allowed attempts is returned, and the action is not called again. */
  lemma {:induction false} FirstSuccessReturned<T, E>(fn: nat -> Outcome<T, E>, options: RetryOptions, k: nat)
    requires 1 <= k <= MaxAttempts(options)
    requires fn(k).Success? && forall j :: 1 <= j < k ==> fn(j).Failure?
    ensures Retried(fn, options).result == Ok(fn(k).value)
    ensures Retried(fn, options).attempts == k
  {
    RetryFromShape(fn, 1, MaxAttempts(options), Delay(options), Backoff(options));
  }

  /** When every allowed attempt fails, the last attempt's error is rethrown after `maxAttempts - 1` waits. */
  lemma {:induction false} LastErrorRethrown<T, E>(fn: nat -> Outcome<T, E>, options: RetryOptions)
    requires MaxAttempts(options) >= 1
    requires forall j :: 1 <= j <= MaxAttempts(options) ==> fn(j).Failure?
    ensures Retried(fn, options).result == Err(Thrown(fn(MaxAttempts(options)).error))
    ensures Retried(fn, options).attempts == MaxAttempts(options)
    ensures |Retried(fn, options).waits| == MaxAttempts(options) - 1
  {
    var m := MaxAttempts(options);
    RetryFromShape(fn, 1, m, Delay(options), Backoff(options));
  }

  /** The wait after failed attempt `k` is `delay * 2^(k-1)` with backoff and `delay` without; none follows the last attempt. */
  lemma WaitSchedule<T, E>(fn: nat -> Outcome<T, E>, options: RetryOptions)
    ensures var r := Retried(fn, options);
      && (MaxAttempts(options) <= 0 ==> r.waits == [])
      && (MaxAttempts(options) >= 1 ==> |r.waits| <= MaxAttempts(options) - 1)
      && forall i :: 0 <= i < |r.waits| ==>
           r.waits[i] == (if Backoff(options) then Delay(options) * Pow2(i) else Delay(options))
  {
    var r := Retried(fn, options);
    RetryFromShape(fn, 1, MaxAttempts(options), Delay(options), Backoff(options));
    forall i | 0 <= i < |r.waits|
      ensures r.waits[i] == (if Backoff(options) then Delay(options) * Pow2(i) else Delay(options))
    {
      assert r.waits[i] == Wait(Delay(options), Backoff(options), 1 + i);
    }
  }

  class RetryHook {
    var isRetrying: bool

    constructor ()
      ensures !isRetrying
    {
      isRetrying := false;
    }

    /** `retry`: the attempt loop. */
    method Retry<T, E>(fn: nat -> Outcome<T, E>, options: RetryOptions) returns (run: RetryRun<T, E>)
      modifies this`isRetrying
      ensures run == Retried(fn, options)
      ensures !isRetrying
    {
      var maxAttempts, delay, backoff := MaxAttempts(options), Delay(options), Backoff(options);
      isRetrying := true;
      var attempt: nat := 1;
      var waits: seq<int> := [];
      while attempt <= maxAttempts
        invariant attempt >= 1 && (attempt == 1 || attempt <= maxAttempts)
        invariant |waits| == attempt - 1
        invariant Retried(fn, options) == After(attempt - 1, waits, RetryFrom(fn, attempt, maxAttempts, delay, backoff))
        decreases maxAttempts - attempt + 1
      {
        var outcome := fn(attempt);
        if outcome.Success? {
          RetryFromDecided(fn, attempt, maxAttempts, delay, backoff, attempt - 1, waits);
          isRetrying := false;
          return RetryRun(Ok(outcome.value), attempt, waits);
        }
        if attempt == maxAttempts {
          RetryFromDecided(fn, attempt, maxAttempts, delay, backoff, attempt - 1, waits);
          isRetrying := false;
          return RetryRun(Err(Thrown(outcome.error)), attempt, waits);
        }
        var waitTime := if backoff then delay * Pow2(attempt - 1) else delay;
        RetryFromFailure(fn, attempt, maxAttempts, delay, backoff, attempt - 1, waits);
        waits := waits + [waitTime];
        attempt := attempt + 1;
      }
      isRetrying := false;
      run := RetryRun(Err(MaxAttemptsReached), 0, waits);
    }
  }
}
