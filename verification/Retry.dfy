/**
 state/retry.go: the bounded retry loop that wraps every store operation.

 The Go loop takes the operation as a closure. Here the closure is a function from the world and the
 attempt's number to the world it leaves and the error it reports, so an attempt may well change the
 world and report an error.
 */
module Retry {
  import opened Common
  import opened Requests

  predicate KnownPattern(pattern: string) {
    pattern in {"", LINEAR, EXPONENTIAL}
  }

  /** A failed first call is followed by another. */
  predicate RetriesOnFailure(policy: RetryPolicy) {
    KnownPattern(policy.pattern) && policy.threshold >= 2
  }

  datatype RetryError<+E> =
    | UnknownPattern(pattern: string)
    | GaveUp(threshold: int)
    | Single(error: E)

  type Attempt<!S, !E> = (S, nat) -> (S, Option<E>)

  /** The world after the first n attempts. */
  function WorldAfter<S, E>(attempt: Attempt<S, E>, world: S, n: nat): S {
    if n == 0 then world else attempt(WorldAfter(attempt, world, n - 1), n - 1).0
  }

  /** What attempt number i reports. */
  function ErrorOf<S, E>(attempt: Attempt<S, E>, world: S, i: nat): Option<E> {
    attempt(WorldAfter(attempt, world, i), i).1
  }

  function Pow2(k: nat): (r: nat)
    ensures r >= 1
  {
    if k == 0 then 1 else 2 * Pow2(k - 1)
  }

  /** The duration of sleep number k, as exact arithmetic truncated once. */
  function Backoff(policy: RetryPolicy, k: nat): int {
    if policy.pattern == EXPONENTIAL then Wrap64(policy.interval * Pow2(k)) else policy.interval
  }

  /** What the loop makes of its budget: the world it leaves, what it reports and how often it called. */
  ghost predicate Retried<S, E>(policy: RetryPolicy, attempt: Attempt<S, E>, world: S,
                                after: S, err: Option<RetryError<E>>, calls: nat)
  {
    // The world is the one the calls produced, in order.
    && after == WorldAfter(attempt, world, calls)
    // No call at all for an unknown pattern.
    && (calls == 0 <==> !KnownPattern(policy.pattern))
    && (calls == 0 ==> err == Some(UnknownPattern(policy.pattern)))
    // Every call but the last failed: the loop stops at the first success.
    && (forall i :: 0 <= i < calls - 1 ==> ErrorOf(attempt, world, i).Some?)
    && (calls > 0 ==> (err.None? <==> ErrorOf(attempt, world, calls - 1).None?))
    // A non-positive threshold means one call whose error is passed through.
    && (calls > 0 && policy.threshold <= 0 ==>
        && calls == 1
        && (err.Some? ==> err.value == Single(ErrorOf(attempt, world, 0).value)))
    // Otherwise the loop gives up exactly when the whole budget failed.
    && (calls > 0 && policy.threshold > 0 ==>
        && calls <= policy.threshold
        && (err.Some? ==> calls == policy.threshold && err.value == GaveUp(policy.threshold)))
  }

  /**
   SetWithRetries and DeleteWithRetries, which differ only in the type of request they pass on.
   Sleeping is recorded rather than waited for.
   */
  method WithRetries<S, E>(policy: RetryPolicy, attempt: Attempt<S, E>, world: S)
    returns (after: S, err: Option<RetryError<E>>, calls: nat, sleeps: seq<int>)
    requires MIN_INT64 <= policy.interval <= MAX_INT64
    ensures Retried(policy, attempt, world, after, err, calls)
    // The known patterns, the empty one included, call at least once, and no other pattern does.
    ensures calls > 0 <==> policy.pattern in {"", "linear", "exponential"}
    // It sleeps after every failed call, and without a budget not at all.
    ensures policy.threshold <= 0 ==> sleeps == []
    ensures policy.threshold > 0 ==> |sleeps| == if err.None? then calls - 1 else calls
    ensures forall k :: 0 <= k < |sleeps| ==> sleeps[k] == Backoff(policy, k)
    // Every sleep is the interval, unless the pattern is exponential: then the first is, and each doubles the last.
    ensures policy.pattern != "exponential" ==> forall k :: 0 <= k < |sleeps| ==> sleeps[k] == policy.interval
    ensures sleeps != [] ==> sleeps[0] == policy.interval
    ensures policy.pattern == "exponential" ==>
              forall k :: 0 < k < |sleeps| ==> sleeps[k] == Wrap64(2 * sleeps[k - 1])
  {
    hide Backoff, Wrap64;
    BackoffStarts(policy);
    after, err, calls, sleeps := world, None, 0, [];
    if KnownPattern(policy.pattern) {
      if policy.threshold > 0 {
        var duration := policy.interval;
        while calls < policy.threshold
          invariant 0 <= calls <= policy.threshold && |sleeps| == calls
          invariant after == WorldAfter(attempt, world, calls)
          invariant forall i :: 0 <= i < calls ==> ErrorOf(attempt, world, i).Some?
          invariant duration == Backoff(policy, calls)
          invariant calls == 0 || policy.pattern != EXPONENTIAL ==> duration == policy.interval
          invariant calls > 0 && policy.pattern == EXPONENTIAL ==> duration == Wrap64(2 * sleeps[calls - 1])
          invariant sleeps != [] ==> sleeps[0] == policy.interval
          invariant policy.pattern != EXPONENTIAL ==> forall k :: 0 <= k < |sleeps| ==> sleeps[k] == policy.interval
          invariant policy.pattern == EXPONENTIAL ==>
            forall k :: 0 < k < |sleeps| ==> sleeps[k] == Wrap64(2 * sleeps[k - 1])
          invariant forall k :: 0 <= k < |sleeps| ==> sleeps[k] == Backoff(policy, k)
        {
          var (next, e) := attempt(after, calls);
          assert e == ErrorOf(attempt, world, calls);
          after, calls := next, calls + 1;
          if e.None? {
            return;
          }
          sleeps := sleeps + [duration];
          BackoffDoubles(policy, calls - 1);
          if policy.pattern == EXPONENTIAL {
            duration := Wrap64(2 * duration);
          }
        }
        err := Some(GaveUp(policy.threshold));
      } else {
        var (next, e) := attempt(after, 0);
        after, calls := next, 1;
        assert e == ErrorOf(attempt, world, 0);
        if e.Some? {
          err := Some(Single(e.value));
        }
      }
    } else {
      err := Some(UnknownPattern(policy.pattern));
    }
  }

  /** A failure and then a success is a run of the loop for every policy that retries. */
  lemma SecondCallSucceeds<S, E>(policy: RetryPolicy, attempt: Attempt<S, E>, world: S)
    requires RetriesOnFailure(policy)
    requires ErrorOf(attempt, world, 0).Some? && ErrorOf(attempt, world, 1).None?
    ensures Retried(policy, attempt, world, WorldAfter(attempt, world, 2), None, 2)
  {
  }

  /** What the loop does to its duration moves it to the next sleep. */
  lemma BackoffDoubles(policy: RetryPolicy, k: nat)
    ensures policy.pattern == EXPONENTIAL ==> Wrap64(2 * Backoff(policy, k)) == Backoff(policy, k + 1)
    ensures policy.pattern != EXPONENTIAL ==> Backoff(policy, k + 1) == Backoff(policy, k)
  {
    var exact := policy.interval * Pow2(k);
    assert policy.interval * Pow2(k + 1) == 2 * exact;
    DoublingWraps(exact);
  }

  lemma BackoffStarts(policy: RetryPolicy)
    requires MIN_INT64 <= policy.interval <= MAX_INT64
    ensures Backoff(policy, 0) == policy.interval
  {
  }

  /** Truncating before or after doubling makes no difference. */
  lemma DoublingWraps(x: int)
    ensures Wrap64(2 * Wrap64(x)) == Wrap64(2 * x)
  {
    var q := (x - Wrap64(x)) / TWO_TO_THE_64;
    assert x == Wrap64(x) + q * TWO_TO_THE_64;
    WrapPeriodic(2 * Wrap64(x), 2 * q);
  }

  lemma WrapPeriodic(x: int, q: int)
    ensures Wrap64(x + q * TWO_TO_THE_64) == Wrap64(x)
  {
  }

  // ----- Back-off arithmetic -----

  function TotalSleep(policy: RetryPolicy, failures: nat): int {
    if failures == 0 then 0 else TotalSleep(policy, failures - 1) + Backoff(policy, failures - 1)
  }

  lemma {:induction false} Pow2Adds(a: nat, b: nat)
    ensures Pow2(a + b) == Pow2(a) * Pow2(b)
  {
    if b == 0 {
    } else {
      Pow2Adds(a, b - 1);
      assert a + b - 1 == a + (b - 1);
    }
  }

  lemma Pow2Of64()
    ensures Pow2(64) == TWO_TO_THE_64
  {
    assert Pow2(8) == 256;
    Pow2Adds(8, 8);
    assert Pow2(16) == 256 * 256;
    Pow2Adds(16, 16);
    assert Pow2(32) == 65536 * 65536;
    Pow2Adds(32, 32);
  }

  /** From the 65th sleep on, exponential back-off does not wait at all. */
  lemma ExponentialBackoffVanishes(policy: RetryPolicy, k: nat)
    requires policy.pattern == EXPONENTIAL && k >= 64
    ensures Backoff(policy, k) == 0
  {
    Pow2Of64();
    Pow2Adds(64, k - 64);
    var q := policy.interval * Pow2(k - 64);
    assert policy.interval * (TWO_TO_THE_64 * Pow2(k - 64)) == 0 + q * TWO_TO_THE_64;
    WrapPeriodic(0, q);
  }

  predicate Fits64(x: int) {
    MIN_INT64 <= x <= MAX_INT64
  }

  lemma GeometricStep(interval: int, f: nat)
    requires f > 0
    ensures interval * (Pow2(f) - 1) == interval * (Pow2(f - 1) - 1) + interval * Pow2(f - 1)
    ensures interval >= 0 ==> interval * Pow2(f - 1) >= 0
    ensures interval <= 0 ==> interval * Pow2(f - 1) <= 0
    ensures f > 1 ==> interval * Pow2(f - 1) == 2 * (interval * Pow2(f - 2))
  {
    var p := Pow2(f - 1);
    assert Pow2(f) - 1 == (p - 1) + p;
    assert interval * ((p - 1) + p) == interval * (p - 1) + interval * p;
    if f > 1 {
      assert interval * (2 * Pow2(f - 2)) == 2 * (interval * Pow2(f - 2));
    }
  }

  /** Truncation moves a number that does not fit towards zero, or beyond it. */
  lemma WrapShrinks(x: int)
    ensures x >= 0 ==> Wrap64(x) <= x
    ensures x <= 0 ==> Wrap64(x) >= x
    ensures Wrap64(x) == x <==> Fits64(x)
  {
  }

  /** The total never exceeds the geometric sum, and falls short of it as soon as one sleep was truncated. */
  lemma {:induction false} TotalIsAtMostGeometric(policy: RetryPolicy, failures: nat)
    requires policy.pattern == EXPONENTIAL
    ensures policy.interval >= 0 ==> TotalSleep(policy, failures) <= policy.interval * (Pow2(failures) - 1)
    ensures policy.interval <= 0 ==> TotalSleep(policy, failures) >= policy.interval * (Pow2(failures) - 1)
    ensures failures > 0 && !Fits64(policy.interval * Pow2(failures - 1)) ==>
              TotalSleep(policy, failures) != policy.interval * (Pow2(failures) - 1)
  {
    if failures > 0 {
      TotalIsAtMostGeometric(policy, failures - 1);
      GeometricStep(policy.interval, failures);
      WrapShrinks(policy.interval * Pow2(failures - 1));
    }
  }

  /**
   f failures under exponential back-off sleep interval * (2^f - 1) in total, negative intervals included,
   exactly when the last, longest sleep still fits a 64-bit duration.
   */
  lemma {:induction false} ExponentialTotal(policy: RetryPolicy, failures: nat)
    requires policy.pattern == EXPONENTIAL
    ensures TotalSleep(policy, failures) == policy.interval * (Pow2(failures) - 1)
       <==> failures == 0 || Fits64(policy.interval * Pow2(failures - 1))
  {
    TotalIsAtMostGeometric(policy, failures);
    if failures > 0 && Fits64(policy.interval * Pow2(failures - 1)) {
      GeometricStep(policy.interval, failures);
      ExponentialTotal(policy, failures - 1);
    }
  }
}
