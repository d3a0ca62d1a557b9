/**
 * The bounded retry-with-fallback policy that each flow writes out inline:
 * call the remote model; accept a good output at once; after a retryable
 * failure on attempt k < maxAttempts wait `baseDelay * k` ms and try again;
 * after any other failure, or any failure on the last attempt, stop and
 * answer with the flow's fixed fallback. Waiting is not modelled as time:
 * each requested wait is recorded in `delays`.
 */
module RetryPolicy {

  /** How a flow judges the outcome of one attempt. */
  datatype Verdict<T> =
    | Accept(output: T)        // return this output immediately
    | Reject(retryable: bool)  // a failure; `retryable` when it may be retried

  /** Where the returned value came from (not visible to the flow's caller). */
  datatype Provenance = FromModel | FromFallback

  /** The observable effect of one flow invocation. */
  datatype Run<T> = Run(value: T, provenance: Provenance, attempts: nat, delays: seq<nat>)

  /** `r`, preceded by the waits already requested in `earlier`. */
  function Resume<T>(earlier: seq<nat>, r: Run<T>): Run<T> {
    r.(delays := earlier + r.delays)
  }

  /** The linear backoff schedule `baseDelay * 1, ..., baseDelay * n`. */
  function Backoff(baseDelay: nat, n: nat): (ds: seq<nat>)
    ensures |ds| == n
    ensures forall i :: 0 <= i < n ==> ds[i] == baseDelay * (i + 1)
  {
    if n == 0 then [] else Backoff(baseDelay, n - 1) + [baseDelay * n]
  }

  /** The total waiting time of a list of delays. */
  function TotalDelay(ds: seq<nat>): nat {
    if |ds| == 0 then 0 else TotalDelay(ds[..|ds| - 1]) + ds[|ds| - 1]
  }

  /** The linear schedule waits `baseDelay * n * (n + 1) / 2` in all. */
  lemma {:induction false} BackoffTotal(baseDelay: nat, n: nat)
    ensures 2 * TotalDelay(Backoff(baseDelay, n)) == baseDelay * n * (n + 1)
  {
    if n > 0 {
      var ds := Backoff(baseDelay, n);
      assert ds[..n - 1] == Backoff(baseDelay, n - 1);
      BackoffTotal(baseDelay, n - 1);
      calc {
        2 * TotalDelay(ds);
        2 * TotalDelay(Backoff(baseDelay, n - 1)) + 2 * (baseDelay * n);
        baseDelay * (n - 1) * n + 2 * (baseDelay * n);
        { assert baseDelay * (n - 1) * n == baseDelay * n * (n - 1); }
        baseDelay * n * (n - 1) + baseDelay * n * 2;
        baseDelay * n * (n + 1);
      }
    }
  }

  /**
   * How a run ended: with the output of its last attempt, or with the
   * fallback after a last attempt that failed and was not retried.
   */
  ghost predicate Concludes<T>(verdicts: seq<Verdict<T>>, maxAttempts: nat, fallback: T, r: Run<T>) {
    && 1 <= r.attempts <= |verdicts|
    && match r.provenance
       case FromModel => verdicts[r.attempts - 1] == Accept(r.value)
       case FromFallback =>
         && r.value == fallback
         && verdicts[r.attempts - 1].Reject?
         && (!verdicts[r.attempts - 1].retryable || r.attempts == maxAttempts)
  }

  /**
   * The policy stated declaratively: `r` is what a run over `verdicts` must
   * look like. Every attempt before the last failed retryably, each of them
   * was followed by its linear backoff wait, and the last one concluded.
   */
  ghost predicate Explains<T>(verdicts: seq<Verdict<T>>, maxAttempts: nat, baseDelay: nat, fallback: T, r: Run<T>) {
    && 1 <= r.attempts <= maxAttempts <= |verdicts|
    && r.delays == Backoff(baseDelay, r.attempts - 1)
    && (forall j :: 0 <= j < r.attempts - 1 ==> verdicts[j] == Reject(true))
    && Concludes(verdicts, maxAttempts, fallback, r)
  }

  /** The loop, resumed at `attempt` (1-based). */
  function RetryFrom<T>(verdicts: seq<Verdict<T>>, maxAttempts: nat, baseDelay: nat, fallback: T, attempt: nat): (r: Run<T>)
    requires 1 <= attempt <= maxAttempts <= |verdicts|
    ensures attempt <= r.attempts <= maxAttempts
    ensures |r.delays| == r.attempts - attempt
    ensures forall i :: 0 <= i < |r.delays| ==> r.delays[i] == baseDelay * (attempt + i)
    ensures forall j :: attempt - 1 <= j < r.attempts - 1 ==> verdicts[j] == Reject(true)
    ensures Concludes(verdicts, maxAttempts, fallback, r)
    decreases maxAttempts - attempt
  {
    match verdicts[attempt - 1]
    case Accept(output) => Run(output, FromModel, attempt, [])
    case Reject(retryable) =>
      if retryable && attempt < maxAttempts then
        Resume([baseDelay * attempt], RetryFrom(verdicts, maxAttempts, baseDelay, fallback, attempt + 1))
      else
        Run(fallback, FromFallback, attempt, [])
  }

  /** A retryable failure before the last attempt: one wait, then the next attempt. */
  lemma RetryFromContinues<T>(verdicts: seq<Verdict<T>>, maxAttempts: nat, baseDelay: nat, fallback: T, attempt: nat, earlier: seq<nat>)
    requires 1 <= attempt < maxAttempts <= |verdicts|
    requires verdicts[attempt - 1] == Reject(true)
    ensures Resume(earlier, RetryFrom(verdicts, maxAttempts, baseDelay, fallback, attempt))
         == Resume(earlier + [baseDelay * attempt], RetryFrom(verdicts, maxAttempts, baseDelay, fallback, attempt + 1))
  {
    var rest := RetryFrom(verdicts, maxAttempts, baseDelay, fallback, attempt + 1);
    assert earlier + ([baseDelay * attempt] + rest.delays) == (earlier + [baseDelay * attempt]) + rest.delays;
  }

  /** An accepted output ends the run on this attempt with that output. */
  lemma RetryFromAccepts<T>(verdicts: seq<Verdict<T>>, maxAttempts: nat, baseDelay: nat, fallback: T, attempt: nat, earlier: seq<nat>)
    requires 1 <= attempt <= maxAttempts <= |verdicts|
    requires verdicts[attempt - 1].Accept?
    ensures Resume(earlier, RetryFrom(verdicts, maxAttempts, baseDelay, fallback, attempt))
         == Run(verdicts[attempt - 1].output, FromModel, attempt, earlier)
  {
    assert earlier + [] == earlier;
  }

  /** A failure that is not retried ends the run on this attempt with the fallback. */
  lemma RetryFromStops<T>(verdicts: seq<Verdict<T>>, maxAttempts: nat, baseDelay: nat, fallback: T, attempt: nat, earlier: seq<nat>)
    requires 1 <= attempt <= maxAttempts <= |verdicts|
    requires verdicts[attempt - 1].Reject?
    requires !verdicts[attempt - 1].retryable || attempt == maxAttempts
    ensures Resume(earlier, RetryFrom(verdicts, maxAttempts, baseDelay, fallback, attempt))
         == Run(fallback, FromFallback, attempt, earlier)
  {
    assert earlier + [] == earlier;
  }

  /** A whole run of the policy, from attempt 1. */
  function Retry<T>(verdicts: seq<Verdict<T>>, maxAttempts: nat, baseDelay: nat, fallback: T): (r: Run<T>)
    requires 1 <= maxAttempts <= |verdicts|
    ensures Explains(verdicts, maxAttempts, baseDelay, fallback, r)
  {
    RetryFrom(verdicts, maxAttempts, baseDelay, fallback, 1)
  }

  /** At most one run fits the declarative description. */
  lemma ExplainsUnique<T>(verdicts: seq<Verdict<T>>, maxAttempts: nat, baseDelay: nat, fallback: T, r1: Run<T>, r2: Run<T>)
    requires Explains(verdicts, maxAttempts, baseDelay, fallback, r1)
    requires Explains(verdicts, maxAttempts, baseDelay, fallback, r2)
    ensures r1 == r2
  {
  }

  /** `Retry` computes exactly the run the declarative description admits. */
  lemma RetryCharacterized<T>(verdicts: seq<Verdict<T>>, maxAttempts: nat, baseDelay: nat, fallback: T, r: Run<T>)
    requires 1 <= maxAttempts <= |verdicts|
    ensures r == Retry(verdicts, maxAttempts, baseDelay, fallback) <==> Explains(verdicts, maxAttempts, baseDelay, fallback, r)
  {
    if Explains(verdicts, maxAttempts, baseDelay, fallback, r) {
      ExplainsUnique(verdicts, maxAttempts, baseDelay, fallback, r, Retry(verdicts, maxAttempts, baseDelay, fallback));
    }
  }

  /**
   * What happens on attempt `k + 1` once the first `k` attempts all failed
   * retryably: an accepted output is returned at once; a failure that may
   * not be retried, or any failure on the last attempt, ends in the fallback;
   * a retryable failure before the last attempt waits `baseDelay * (k + 1)`
   * and leads to a further attempt.
   */
  lemma RetryStep<T>(verdicts: seq<Verdict<T>>, maxAttempts: nat, baseDelay: nat, fallback: T, k: nat)
    requires k < maxAttempts <= |verdicts|
    requires forall j :: 0 <= j < k ==> verdicts[j] == Reject(true)
    ensures var r := Retry(verdicts, maxAttempts, baseDelay, fallback);
      && r.attempts > k
      && (verdicts[k].Accept? ==> r == Run(verdicts[k].output, FromModel, k + 1, Backoff(baseDelay, k)))
      && (verdicts[k].Reject? && (!verdicts[k].retryable || k + 1 == maxAttempts) ==>
            r == Run(fallback, FromFallback, k + 1, Backoff(baseDelay, k)))
      && (verdicts[k] == Reject(true) && k + 1 < maxAttempts ==>
            r.attempts > k + 1 && r.delays[k] == baseDelay * (k + 1))
  {
    var r := Retry(verdicts, maxAttempts, baseDelay, fallback);
    if r.attempts > k + 1 {
      assert verdicts[k] == Reject(true);
    }
  }

  /** A model that keeps failing retryably is called exactly `maxAttempts` times. */
  lemma ExhaustsWhenAlwaysRetryable<T>(verdicts: seq<Verdict<T>>, maxAttempts: nat, baseDelay: nat, fallback: T)
    requires 1 <= maxAttempts <= |verdicts|
    requires forall j :: 0 <= j < maxAttempts ==> verdicts[j] == Reject(true)
    ensures Retry(verdicts, maxAttempts, baseDelay, fallback)
         == Run(fallback, FromFallback, maxAttempts, Backoff(baseDelay, maxAttempts - 1))
  {
    RetryStep(verdicts, maxAttempts, baseDelay, fallback, maxAttempts - 1);
  }
}
