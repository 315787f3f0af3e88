/** `retry_on_api_error`: call a function up to `max_retries` times, retrying
    only on the two transient exception classes and sleeping with exponential
    backoff between attempts.

    The wrapped call is a function from the 0-based attempt index to what that
    attempt does, so a script of successes and failures is any such function.
    Delays are integer milliseconds (the default `delay=1.0` second is 1000);
    sleeps are recorded in a ghost log instead of being waited out. */
module Retry {
  import opened Outcomes

  const DEFAULT_MAX_RETRIES: int := 3
  const DEFAULT_DELAY_MS: nat := 1000

  /** What `raise last_exception` raises when no attempt was made:
      `last_exception` is still `None`. */
  const NothingToReraise: Exception :=
    Exception(TypeError, "exceptions must derive from BaseException")

  /** The classes caught by `except (RequestException, BinanceAPIException)`. */
  predicate IsTransient(e: Exception) {
    e.kind == RequestException || e.kind == BinanceApiException
  }

  predicate FailedTransiently<T>(o: Outcome<T>) {
    o.Raised? && IsTransient(o.error)
  }

  /** The number of iterations of `for attempt in range(max_retries)`. */
  function Attempts(maxRetries: int): nat {
    if maxRetries > 0 then maxRetries else 0
  }

  function Pow2(k: nat): (p: nat)
    ensures p >= 1
  {
    if k == 0 then 1 else 2 * Pow2(k - 1)
  }

  /** The sleeps made after the first `n` failed attempts: attempt `k` is
      followed by a sleep of `delay * 2^k`. */
  function Backoff(delay: nat, n: nat): (s: seq<nat>)
    ensures |s| == n
    ensures forall k :: 0 <= k < n ==> s[k] == delay * Pow2(k)
  {
    if n == 0 then [] else Backoff(delay, n - 1) + [delay * Pow2(n - 1)]
  }

  /** The wrapper. `calls` is the number of times the wrapped function was
      invoked and `sleeps` the durations slept, in order. */
  method RetryOnApiError<T>(maxRetries: int, delay: nat, call: nat -> Outcome<T>)
    returns (result: Outcome<T>, calls: nat, ghost sleeps: seq<nat>)
    // never more than max_retries invocations, and at least one when max_retries > 0
    ensures calls <= Attempts(maxRetries)
    ensures maxRetries > 0 ==> calls > 0
    // every invocation but the last failed transiently
    ensures forall k :: 0 <= k < calls - 1 ==> FailedTransiently(call(k))
    // the last invocation's value is returned, or its exception re-raised
    ensures calls > 0 ==> result == call(calls - 1)
    // a transient failure is the final answer only on the last allowed attempt
    ensures calls > 0 && FailedTransiently(call(calls - 1)) ==> calls == maxRetries
    ensures calls == 0 ==> result == Raised(NothingToReraise)
    // one sleep after each transient failure except the last attempt's
    ensures sleeps == Backoff(delay, if calls > 0 then calls - 1 else 0)
  {
    calls := 0;
    sleeps := [];
    var lastException: Exception := NothingToReraise;
    var attempt := 0;
    while attempt < maxRetries
      invariant 0 <= attempt && calls == attempt
      invariant attempt <= Attempts(maxRetries)
      invariant forall k :: 0 <= k < attempt ==> FailedTransiently(call(k))
      invariant attempt > 0 ==> lastException == call(attempt - 1).error
      invariant attempt == 0 ==> lastException == NothingToReraise
      invariant sleeps == Backoff(delay, if attempt > 0 && attempt == maxRetries then attempt - 1 else attempt)
    {
      var outcome := call(attempt);
      calls := calls + 1;
      match outcome {
        case Returned(_) =>
          result := outcome;
          return;
        case Raised(e) =>
          if !IsTransient(e) {
            result := outcome;
            return;
          }
          lastException := e;
          if attempt < maxRetries - 1 {
            sleeps := sleeps + [delay * Pow2(attempt)];
          }
      }
      attempt := attempt + 1;
    }
    result := Raised(lastException);
  }

  lemma {:induction false} Pow2Monotone(i: nat, j: nat)
    requires i <= j
    ensures Pow2(i) <= Pow2(j)
  {
    if i < j {
      Pow2Monotone(i, j - 1);
    }
  }

  lemma ScaleMonotone(d: nat, a: nat, b: nat)
    requires a <= b
    ensures d * a <= d * b
  {
  }

  /** Backoff durations never decrease. */
  lemma BackoffNonDecreasing(delay: nat, n: nat)
    ensures forall i, j :: 0 <= i <= j < n ==> Backoff(delay, n)[i] <= Backoff(delay, n)[j]
  {
    forall i, j | 0 <= i <= j < n
      ensures Backoff(delay, n)[i] <= Backoff(delay, n)[j]
    {
      Pow2Monotone(i, j);
      ScaleMonotone(delay, Pow2(i), Pow2(j));
    }
  }

  /** Each backoff is twice the one before it. */
  lemma BackoffDoubles(delay: nat, n: nat, k: nat)
    requires k + 1 < n
    ensures Backoff(delay, n)[k + 1] == 2 * Backoff(delay, n)[k]
  {
  }

  /** With the defaults (three attempts, one second), a call that always fails
      transiently is made three times with sleeps of 1 s and 2 s between. */
  method AlwaysTransientWithDefaults<T>(call: nat -> Outcome<T>)
    returns (result: Outcome<T>, calls: nat, ghost sleeps: seq<nat>)
    requires forall k :: FailedTransiently(call(k))
    ensures calls == 3 && result == call(2)
    ensures sleeps == [1000, 2000]
  {
    result, calls, sleeps := RetryOnApiError(DEFAULT_MAX_RETRIES, DEFAULT_DELAY_MS, call);
    assert sleeps == Backoff(1000, 2);
  }
}
