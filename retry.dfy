/** The `retry_with_backoff` decorator: a bounded attempt loop with exponential backoff.

    The wrapped function is the map `op` from attempt index to what that call does
    (return a value or raise an error), so a caller can script any sequence of
    outcomes. Delays are in milliseconds. Sleeping is recorded as a `Pause`; the
    coroutine wrapper awaits its pauses, the plain wrapper blocks on them. */
module Retry {
  import opened Wrappers
  import opened Exceptions

  /** What one call of the wrapped function does. */
  type Outcome<T> = Result<T, Error>

  /** The decorator's arguments: `max_retries`, `base_delay` (ms), `exceptions`,
      and whether an `on_retry` callback was given. */
  datatype Policy = Policy(maxRetries: int, baseDelay: nat, catches: seq<ErrorKind>, notify: bool)

  /** One `on_retry(attempt, delay, e)` call. */
  datatype RetryEvent = RetryEvent(attempt: nat, delay: nat, error: Error)

  /** One sleep between attempts: `time.sleep` or `await asyncio.sleep`. */
  datatype Pause = Blocking(delay: nat) | Awaited(delay: nat)

  /** Everything one decorated call does: its outcome, how many times the
      wrapped function ran, the callbacks fired and the pauses taken, in order. */
  datatype RetryRun<T> = RetryRun(outcome: Outcome<T>, calls: nat, callbacks: seq<RetryEvent>, pauses: seq<Pause>)

  /** The error raised when the loop ends without returning or raising. */
  const LoopExitError := Error(RuntimeError, "Retry loop exited unexpectedly")

  function Pow2(i: nat): (r: nat)
    ensures r >= 1
  {
    if i == 0 then 1 else 2 * Pow2(i - 1)
  }

  /** `base_delay * 2 ** attempt`. */
  function Delay(base: nat, attempt: nat): nat {
    base * Pow2(attempt)
  }

  /** The error is one of the caught classes (`except exceptions as e`). */
  predicate Retryable<T>(o: Outcome<T>, catches: seq<ErrorKind>) {
    o.Err? && IsInstance(o.error.kind, catches)
  }

  function PauseFor(isAsync: bool, delay: nat): Pause {
    if isAsync then Awaited(delay) else Blocking(delay)
  }

  /** The loop from attempt `attempt` on. */
  function RunFrom<T>(op: nat -> Outcome<T>, p: Policy, isAsync: bool, attempt: nat): RetryRun<T>
    decreases p.maxRetries - attempt
  {
    if attempt >= p.maxRetries then RetryRun(Err(LoopExitError), 0, [], [])
    else
      var o := op(attempt);
      if !Retryable(o, p.catches) || attempt >= p.maxRetries - 1 then RetryRun(o, 1, [], [])
      else
        var d := Delay(p.baseDelay, attempt);
        var rest := RunFrom(op, p, isAsync, attempt + 1);
        RetryRun(rest.outcome, rest.calls + 1,
                 (if p.notify then [RetryEvent(attempt, d, o.error)] else []) + rest.callbacks,
                 [PauseFor(isAsync, d)] + rest.pauses)
  }

  /** One call of the decorated function. */
  function Run<T>(op: nat -> Outcome<T>, p: Policy, isAsync: bool): RetryRun<T> {
    RunFrom(op, p, isAsync, 0)
  }

  /** The part of a run already done, followed by the rest. */
  function Prefixed<T>(calls: nat, callbacks: seq<RetryEvent>, pauses: seq<Pause>, rest: RetryRun<T>): RetryRun<T> {
    RetryRun(rest.outcome, calls + rest.calls, callbacks + rest.callbacks, pauses + rest.pauses)
  }

  /** One failed, caught attempt that is not the last: its callback and pause, then the rest. */
  lemma UnfoldRetry<T>(op: nat -> Outcome<T>, p: Policy, isAsync: bool, attempt: nat)
    requires attempt < p.maxRetries - 1 && Retryable(op(attempt), p.catches)
    ensures RunFrom(op, p, isAsync, attempt) ==
      Prefixed(1, if p.notify then [RetryEvent(attempt, Delay(p.baseDelay, attempt), op(attempt).error)] else [],
               [PauseFor(isAsync, Delay(p.baseDelay, attempt))], RunFrom(op, p, isAsync, attempt + 1))
  {
  }

  lemma PrefixedTwice<T>(c1: nat, e1: seq<RetryEvent>, q1: seq<Pause>, c2: nat, e2: seq<RetryEvent>, q2: seq<Pause>, r: RetryRun<T>)
    ensures Prefixed(c1, e1, q1, Prefixed(c2, e2, q2, r)) == Prefixed(c1 + c2, e1 + e2, q1 + q2, r)
  {
    assert e1 + (e2 + r.callbacks) == (e1 + e2) + r.callbacks;
    assert q1 + (q2 + r.pauses) == (q1 + q2) + r.pauses;
  }

  /** The decorated call: `decorator(func)(...)`, where `isAsync` says whether `func`
      is a coroutine function and so which of the two wrappers runs. */
  method RetryWithBackoff<T>(op: nat -> Outcome<T>, p: Policy, isAsync: bool) returns (run: RetryRun<T>)
    ensures run == Run(op, p, isAsync)
  {
    var attempt: nat := 0;
    var callbacks: seq<RetryEvent> := [];
    var pauses: seq<Pause> := [];
    while attempt < p.maxRetries
      invariant attempt == 0 || attempt < p.maxRetries
      invariant Prefixed(attempt, callbacks, pauses, RunFrom(op, p, isAsync, attempt)) == Run(op, p, isAsync)
      decreases p.maxRetries - attempt
    {
      var o := op(attempt);
      if !Retryable(o, p.catches) {
        return RetryRun(o, attempt + 1, callbacks, pauses);
      }
      if attempt < p.maxRetries - 1 {
        var d := Delay(p.baseDelay, attempt);
        var fired := if p.notify then [RetryEvent(attempt, d, o.error)] else [];
        UnfoldRetry(op, p, isAsync, attempt);
        PrefixedTwice(attempt, callbacks, pauses, 1, fired, [PauseFor(isAsync, d)], RunFrom(op, p, isAsync, attempt + 1));
        callbacks := callbacks + fired;
        pauses := pauses + [PauseFor(isAsync, d)];
        attempt := attempt + 1;
      } else {
        return RetryRun(o, attempt + 1, callbacks, pauses);
      }
    }
    return RetryRun(Err(LoopExitError), attempt, callbacks, pauses);
  }

  /** The callbacks of failed attempts `lo` .. `hi - 1`. */
  function Events<T>(op: nat -> Outcome<T>, p: Policy, lo: nat, hi: nat): seq<RetryEvent>
    requires forall i :: lo <= i < hi ==> Retryable(op(i), p.catches)
    decreases if lo <= hi then hi - lo else 0
  {
    if lo >= hi then []
    else
      assert Retryable(op(lo), p.catches);
      [RetryEvent(lo, Delay(p.baseDelay, lo), op(lo).error)] + Events(op, p, lo + 1, hi)
  }

  /** The pauses after attempts `lo` .. `hi - 1`. */
  function Pauses(base: nat, isAsync: bool, lo: nat, hi: nat): seq<Pause>
    decreases if lo <= hi then hi - lo else 0
  {
    if lo >= hi then [] else [PauseFor(isAsync, Delay(base, lo))] + Pauses(base, isAsync, lo + 1, hi)
  }

  /** The whole shape of a run. If attempts `attempt` .. `k - 1` raise a caught error and
      attempt `k` does not (or `k` is past the last attempt), then the run stops at attempt
      `last` = min(k, max_retries - 1): it makes `last + 1 - attempt` calls, ends with what
      attempt `last` did (its value, or its error re-raised), fires one callback and one
      pause for every attempt before `last`, with delay base * 2^i, and none after. */
  lemma {:induction false} RunFromShape<T>(op: nat -> Outcome<T>, p: Policy, isAsync: bool, attempt: nat, k: nat)
    requires attempt <= k && attempt < p.maxRetries
    requires forall i :: attempt <= i < k ==> Retryable(op(i), p.catches)
    requires k < p.maxRetries ==> !Retryable(op(k), p.catches)
    ensures var last: nat := if k < p.maxRetries then k else p.maxRetries - 1;
      var r := RunFrom(op, p, isAsync, attempt);
      && r.calls == last + 1 - attempt
      && r.outcome == op(last)
      && r.callbacks == (if p.notify then Events(op, p, attempt, last) else [])
      && r.pauses == Pauses(p.baseDelay, isAsync, attempt, last)
    decreases p.maxRetries - attempt
  {
    var last: nat := if k < p.maxRetries then k else p.maxRetries - 1;
    if attempt < last {
      assert Retryable(op(attempt), p.catches);
      RunFromShape(op, p, isAsync, attempt + 1, k);
    }
  }

  /** A run depends only on what each attempt does. */
  lemma {:induction false} RunDependsOnOutcomes<T>(op1: nat -> Outcome<T>, op2: nat -> Outcome<T>, p: Policy, isAsync: bool, attempt: nat)
    requires forall i :: op1(i) == op2(i)
    ensures RunFrom(op1, p, isAsync, attempt) == RunFrom(op2, p, isAsync, attempt)
    decreases p.maxRetries - attempt
  {
    if attempt < p.maxRetries - 1 && Retryable(op1(attempt), p.catches) {
      RunDependsOnOutcomes(op1, op2, p, isAsync, attempt + 1);
    }
  }

  /** The first attempt at or after `i` that does not raise a caught error, or `bound`. */
  function FirstStop<T>(op: nat -> Outcome<T>, catches: seq<ErrorKind>, i: nat, bound: nat): (k: nat)
    requires i <= bound
    ensures i <= k <= bound
    ensures forall j :: i <= j < k ==> Retryable(op(j), catches)
    ensures k < bound ==> !Retryable(op(k), catches)
    decreases bound - i
  {
    if i == bound || !Retryable(op(i), catches) then i else FirstStop(op, catches, i + 1, bound)
  }

  /** With at least one attempt allowed, a run ends with what its last call did; every
      earlier call raised a caught error, and stopping early means the last one did not. */
  lemma RunEndsWithLastCall<T>(op: nat -> Outcome<T>, p: Policy, isAsync: bool)
    requires p.maxRetries >= 1
    ensures var r := Run(op, p, isAsync);
      && 1 <= r.calls <= p.maxRetries
      && r.outcome == op(r.calls - 1)
      && (forall i :: 0 <= i < r.calls - 1 ==> Retryable(op(i), p.catches))
      && (r.calls < p.maxRetries ==> !Retryable(op(r.calls - 1), p.catches))
  {
    var k := FirstStop(op, p.catches, 0, p.maxRetries as nat);
    RunFromShape(op, p, isAsync, 0, k);
  }

  /** A success returns its value at once: with attempts before `k` failing with a caught
      error and attempt `k` returning, exactly `k + 1` calls are made. */
  lemma SuccessReturnsAtOnce<T>(op: nat -> Outcome<T>, p: Policy, isAsync: bool, k: nat)
    requires k < p.maxRetries && op(k).Ok?
    requires forall i :: 0 <= i < k ==> Retryable(op(i), p.catches)
    ensures Run(op, p, isAsync).outcome == op(k)
    ensures Run(op, p, isAsync).calls == k + 1
    ensures |Run(op, p, isAsync).pauses| == k
  {
    RunFromShape(op, p, isAsync, 0, k);
    PausesLength(p.baseDelay, isAsync, 0, k);
  }

  /** Persistent caught failure re-raises the last error after exactly `max_retries` calls,
      having fired `on_retry(i, base * 2^i, e_i)` after every attempt but the last. */
  lemma PersistentFailure<T>(op: nat -> Outcome<T>, p: Policy, isAsync: bool)
    requires p.maxRetries >= 1
    requires forall i :: 0 <= i < p.maxRetries ==> Retryable(op(i), p.catches)
    ensures Run(op, p, isAsync).outcome == op(p.maxRetries - 1)
    ensures Run(op, p, isAsync).calls == p.maxRetries
    ensures p.notify ==> Run(op, p, isAsync).callbacks == Events(op, p, 0, p.maxRetries - 1)
    ensures !p.notify ==> Run(op, p, isAsync).callbacks == []
  {
    RunFromShape(op, p, isAsync, 0, p.maxRetries);
  }

  /** An error outside the caught classes propagates from the first call, with no retry. */
  lemma UncaughtPropagates<T>(op: nat -> Outcome<T>, p: Policy, isAsync: bool)
    requires p.maxRetries >= 1 && op(0).Err? && !IsInstance(op(0).error.kind, p.catches)
    ensures Run(op, p, isAsync) == RetryRun(op(0), 1, [], [])
  {
  }

  /** `max_retries = 0` (or less) never calls the function and raises `RuntimeError`. */
  lemma NoAttempts<T>(op: nat -> Outcome<T>, p: Policy, isAsync: bool)
    requires p.maxRetries <= 0
    ensures Run(op, p, isAsync) == RetryRun(Err(LoopExitError), 0, [], [])
  {
  }

  /** `max_retries = 1` makes exactly one attempt, whatever it does, and never sleeps. */
  lemma OneAttempt<T>(op: nat -> Outcome<T>, p: Policy, isAsync: bool)
    requires p.maxRetries == 1
    ensures Run(op, p, isAsync) == RetryRun(op(0), 1, [], [])
  {
  }

  /** The j-th callback of a run is `on_retry(j, base * 2^j, e_j)`. */
  lemma {:induction false} EventsAt<T>(op: nat -> Outcome<T>, p: Policy, lo: nat, hi: nat)
    requires forall i :: lo <= i < hi ==> Retryable(op(i), p.catches)
    ensures |Events(op, p, lo, hi)| == (if lo <= hi then hi - lo else 0)
    ensures forall j :: 0 <= j < |Events(op, p, lo, hi)| ==>
      Events(op, p, lo, hi)[j] == RetryEvent(lo + j, p.baseDelay * Pow2(lo + j), op(lo + j).error)
    decreases if lo <= hi then hi - lo else 0
  {
    if lo < hi {
      EventsAt(op, p, lo + 1, hi);
    }
  }

  lemma {:induction false} PausesLength(base: nat, isAsync: bool, lo: nat, hi: nat)
    ensures |Pauses(base, isAsync, lo, hi)| == (if lo <= hi then hi - lo else 0)
    decreases if lo <= hi then hi - lo else 0
  {
    if lo < hi {
      PausesLength(base, isAsync, lo + 1, hi);
    }
  }

  /** The coroutine wrapper runs the same loop as the plain one: same outcome, calls,
      callbacks and delays; only its pauses are awaited instead of blocking. */
  lemma {:induction false} AsyncMatchesSync<T>(op: nat -> Outcome<T>, p: Policy, attempt: nat)
    ensures var a := RunFrom(op, p, true, attempt);
      var s := RunFrom(op, p, false, attempt);
      && a.outcome == s.outcome && a.calls == s.calls && a.callbacks == s.callbacks
      && |a.pauses| == |s.pauses|
      && (forall j :: 0 <= j < |a.pauses| ==> a.pauses[j] == Awaited(s.pauses[j].delay))
      && (forall j :: 0 <= j < |s.pauses| ==> s.pauses[j].Blocking?)
    decreases p.maxRetries - attempt
  {
    if attempt < p.maxRetries - 1 && Retryable(op(attempt), p.catches) {
      AsyncMatchesSync(op, p, attempt + 1);
    }
  }
}
