/**
 * The recommendations flow (`generatePersonalizedRecommendationsFlow`): up to
 * three calls, 1500 ms linear backoff after a rate-limit error, and a fixed
 * list of three generic recommendations as fallback. A call that returns no
 * list, or an empty one, is not retried: the loop breaks to the fallback.
 */
module Recommendations {
  import opened Wrappers
  import opened Prompt
  import opened RateLimit
  import opened RetryPolicy

  datatype Priority = High | Medium | Low

  /** One entry of the flow's output schema. */
  datatype Recommendation = Recommendation(priority: Priority, icon: string, title: string, action: string)

  const MaxAttempts: nat := 3
  const BaseDelay: nat := 1500

  /** What the flow returns once it gives up; no request field (sensor reading, crop, place) plays a part. */
  const FallbackList: seq<Recommendation> := [
    Recommendation(High, "\U{1F4A7}", "Manual Moisture Check",
      "Quickly check soil moisture near roots and water if under 65%."),
    Recommendation(Medium, "\U{1F33E}", "Routine Check",
      "Sensor data looks typical. Continue standard irrigation cycles."),
    Recommendation(Low, "\U{2600}\U{FE0F}", "Weather Watch",
      "Monitor today\U{2019}s forecast; delay irrigation if heavy rain is expected.")
  ]

  /** `output && output.length > 0`: the attempt produced a list worth returning. */
  predicate Usable(o: Outcome<seq<Recommendation>>) {
    o.Ok? && |o.output| > 0
  }

  /** The attempt threw and the catch block judged the error a rate-limit hit. */
  predicate Throttled(o: Outcome<seq<Recommendation>>) {
    o.Err? && IsRateLimit(o.message)
  }

  function Judge(o: Outcome<seq<Recommendation>>): Verdict<seq<Recommendation>> {
    if Usable(o) then Accept(o.output) else Reject(Throttled(o))
  }

  function Verdicts(outcomes: seq<Outcome<seq<Recommendation>>>): seq<Verdict<seq<Recommendation>>> {
    seq(|outcomes|, i requires 0 <= i < |outcomes| => Judge(outcomes[i]))
  }

  /** The flow over the remote call's successive outcomes. */
  function RecommendFlow(outcomes: seq<Outcome<seq<Recommendation>>>): (r: Run<seq<Recommendation>>)
    requires |outcomes| >= MaxAttempts
    ensures 1 <= r.attempts <= MaxAttempts
    ensures forall j :: 0 <= j < r.attempts - 1 ==> Throttled(outcomes[j])
    ensures r.delays == [1500, 3000][..r.attempts - 1]
    ensures r.provenance == FromModel <==> Usable(outcomes[r.attempts - 1])
    ensures r.provenance == FromModel ==> r.value == outcomes[r.attempts - 1].output
    ensures r.provenance == FromFallback ==> r.value == FallbackList
    ensures r.provenance == FromFallback ==> !Throttled(outcomes[r.attempts - 1]) || r.attempts == MaxAttempts
    ensures |r.value| > 0
  {
    var r := Retry(Verdicts(outcomes), MaxAttempts, BaseDelay, FallbackList);
    assert Backoff(BaseDelay, 2) == [1500, 3000];
    r
  }

  /**
   * The flow's `for` loop, statement by statement: `prompt` is
   * `outcomes[attempt - 1]`, `sleep(delay)` appends `delay` to `delays`,
   * and `calls` counts the calls made.
   */
  method GeneratePersonalizedRecommendations(outcomes: seq<Outcome<seq<Recommendation>>>) returns (r: Run<seq<Recommendation>>)
    requires |outcomes| >= MaxAttempts
    ensures r == RecommendFlow(outcomes)
  {
    ghost var verdicts := Verdicts(outcomes);
    ghost var target := Retry(verdicts, MaxAttempts, BaseDelay, FallbackList);
    assert target == RecommendFlow(outcomes);
    var delays: seq<nat> := [];
    var calls: nat := 0;
    var attempt: nat := 1;
    while attempt <= MaxAttempts
      invariant 1 <= attempt <= MaxAttempts
      invariant calls == attempt - 1
      invariant target == Resume(delays, RetryFrom(verdicts, MaxAttempts, BaseDelay, FallbackList, attempt))
    {
      var outcome := outcomes[attempt - 1];
      calls := attempt;
      if outcome.Ok? && |outcome.output| > 0 {
        RetryFromAccepts(verdicts, MaxAttempts, BaseDelay, FallbackList, attempt, delays);
        return Run(outcome.output, FromModel, calls, delays);
      } else if outcome.Err? {
        if IsRateLimit(outcome.message) && attempt < MaxAttempts {
          RetryFromContinues(verdicts, MaxAttempts, BaseDelay, FallbackList, attempt, delays);
          delays := delays + [BaseDelay * attempt];
          attempt := attempt + 1;
          continue;
        }
      }
      RetryFromStops(verdicts, MaxAttempts, BaseDelay, FallbackList, attempt, delays);
      break;
    }
    r := Run(FallbackList, FromFallback, calls, delays);
  }

  /** The fallback is three recommendations, ranked High, Medium, Low. */
  lemma FallbackShape()
    ensures |FallbackList| == 3
    ensures FallbackList[0].priority == High
    ensures FallbackList[1].priority == Medium
    ensures FallbackList[2].priority == Low
  {
  }

  /** The first attempt that yields a non-empty list returns it unchanged, and no further call is made. */
  lemma ReturnsFirstList(outcomes: seq<Outcome<seq<Recommendation>>>, k: nat)
    requires |outcomes| >= MaxAttempts
    requires k < MaxAttempts
    requires forall j :: 0 <= j < k ==> Throttled(outcomes[j])
    requires Usable(outcomes[k])
    ensures RecommendFlow(outcomes) == Run(outcomes[k].output, FromModel, k + 1, Backoff(BaseDelay, k))
  {
    RetryStep(Verdicts(outcomes), MaxAttempts, BaseDelay, FallbackList, k);
  }

  /** A missing or empty list is not retried: the fallback comes back after exactly that call. */
  lemma EmptyOrMissingStops(outcomes: seq<Outcome<seq<Recommendation>>>, k: nat)
    requires |outcomes| >= MaxAttempts
    requires k < MaxAttempts
    requires forall j :: 0 <= j < k ==> Throttled(outcomes[j])
    requires outcomes[k] == NullOut || outcomes[k] == Ok([])
    ensures RecommendFlow(outcomes) == Run(FallbackList, FromFallback, k + 1, Backoff(BaseDelay, k))
  {
    RetryStep(Verdicts(outcomes), MaxAttempts, BaseDelay, FallbackList, k);
  }

  /** A rate-limit error on attempt `k + 1 < 3` waits `1500 * (k + 1)` ms and leads to attempt `k + 2`. */
  lemma ThrottledAttemptRetried(outcomes: seq<Outcome<seq<Recommendation>>>, k: nat)
    requires |outcomes| >= MaxAttempts
    requires k + 1 < MaxAttempts
    requires forall j :: 0 <= j <= k ==> Throttled(outcomes[j])
    ensures RecommendFlow(outcomes).attempts > k + 1
    ensures RecommendFlow(outcomes).delays[k] == 1500 * (k + 1)
  {
    RetryStep(Verdicts(outcomes), MaxAttempts, BaseDelay, FallbackList, k);
  }

  /** An error that is not throttling, or any error on attempt 3, ends the flow with the fallback. */
  lemma StopsOnError(outcomes: seq<Outcome<seq<Recommendation>>>, k: nat)
    requires |outcomes| >= MaxAttempts
    requires k < MaxAttempts
    requires forall j :: 0 <= j < k ==> Throttled(outcomes[j])
    requires outcomes[k].Err?
    requires !IsRateLimit(outcomes[k].message) || k + 1 == MaxAttempts
    ensures RecommendFlow(outcomes) == Run(FallbackList, FromFallback, k + 1, Backoff(BaseDelay, k))
  {
    RetryStep(Verdicts(outcomes), MaxAttempts, BaseDelay, FallbackList, k);
  }

  /** An error without a message is never retried. */
  lemma MessagelessErrorStops(outcomes: seq<Outcome<seq<Recommendation>>>)
    requires |outcomes| >= MaxAttempts
    requires outcomes[0] == Err(None)
    ensures RecommendFlow(outcomes) == Run(FallbackList, FromFallback, 1, [])
  {
    StopsOnError(outcomes, 0);
  }

  /** The flow never waits more than 1500 + 3000 ms in all. */
  lemma TotalWaitBounded(outcomes: seq<Outcome<seq<Recommendation>>>)
    requires |outcomes| >= MaxAttempts
    ensures TotalDelay(RecommendFlow(outcomes).delays) <= 4500
  {
    var r := RecommendFlow(outcomes);
    var n := r.attempts - 1;
    assert r.delays == Backoff(BaseDelay, n);
    BackoffTotal(BaseDelay, n);
    assert BaseDelay * n * (n + 1) <= 9000 by {
      assert n == 0 || n == 1 || n == 2;
    }
  }

  /**
   * An empty list on the first call followed by a good list on the second:
   * the flow does not make the second call and answers with the fallback.
   */
  lemma EmptyThenListFallsBack(outcomes: seq<Outcome<seq<Recommendation>>>, good: seq<Recommendation>)
    requires |outcomes| >= MaxAttempts
    requires outcomes[0] == Ok([]) && outcomes[1] == Ok(good) && |good| == 3
    ensures RecommendFlow(outcomes) == Run(FallbackList, FromFallback, 1, [])
  {
    EmptyOrMissingStops(outcomes, 0);
  }
}
