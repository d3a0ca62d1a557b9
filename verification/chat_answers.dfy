/**
 * The chat flow (`answerFarmingQuestionsViaChatFlow`): up to three calls of
 * the remote prompt, linear backoff of 2000 ms per attempt after a
 * rate-limit error, and a fixed apology as fallback. A missing output is
 * turned into a thrown error whose message goes through the same classifier.
 */
module ChatAnswers {
  import opened Wrappers
  import opened Prompt
  import opened RateLimit
  import opened RetryPolicy

  /** The flow's output schema: one answer text. */
  datatype Answer = Answer(answer: string)

  const MaxAttempts: nat := 3
  const BaseDelay: nat := 2000

  /** The message of the error thrown when the call returns no output. */
  const NullOutputMessage: string := "AI failed to generate a response."

  /** What the flow returns once it gives up; the request plays no part in it. */
  const FallbackAnswer: Answer :=
    Answer("I'm a bit busy right now. Please try again in a minute or contact your local Krishi Vigyan Kendra for urgent help.")

  /** The message the catch block reads for a failed attempt. */
  function FailureMessage(o: Outcome<Answer>): Option<string>
    requires !o.Ok?
  {
    if o.NullOut? then Some(NullOutputMessage) else o.message
  }

  /** The attempt failed and the catch block judged the failure a rate-limit hit. */
  predicate Throttled(o: Outcome<Answer>) {
    !o.Ok? && IsRateLimit(FailureMessage(o))
  }

  function Judge(o: Outcome<Answer>): Verdict<Answer> {
    if o.Ok? then Accept(o.output) else Reject(Throttled(o))
  }

  function Verdicts(outcomes: seq<Outcome<Answer>>): seq<Verdict<Answer>> {
    seq(|outcomes|, i requires 0 <= i < |outcomes| => Judge(outcomes[i]))
  }

  /**
   * The flow over the remote call's successive outcomes (one per possible
   * call; later entries are never consulted once the flow has stopped).
   */
  function AnswerFlow(outcomes: seq<Outcome<Answer>>): (r: Run<Answer>)
    requires |outcomes| >= MaxAttempts
    ensures 1 <= r.attempts <= MaxAttempts
    ensures forall j :: 0 <= j < r.attempts - 1 ==> Throttled(outcomes[j])
    ensures r.delays == [2000, 4000][..r.attempts - 1]
    ensures r.provenance == FromModel <==> outcomes[r.attempts - 1].Ok?
    ensures r.provenance == FromModel ==> r.value == outcomes[r.attempts - 1].output
    ensures r.provenance == FromFallback ==> r.value == FallbackAnswer
    ensures r.provenance == FromFallback ==> !Throttled(outcomes[r.attempts - 1]) || r.attempts == MaxAttempts
  {
    var r := Retry(Verdicts(outcomes), MaxAttempts, BaseDelay, FallbackAnswer);
    assert Backoff(BaseDelay, 2) == [2000, 4000];
    r
  }

  /**
   * The flow's `for` loop, statement by statement: `prompt` is
   * `outcomes[attempt - 1]`, `sleep(delay)` appends `delay` to `delays`,
   * and `calls` counts the calls made.
   */
  method AnswerFarmingQuestions(outcomes: seq<Outcome<Answer>>) returns (r: Run<Answer>)
    requires |outcomes| >= MaxAttempts
    ensures r == AnswerFlow(outcomes)
  {
    ghost var verdicts := Verdicts(outcomes);
    ghost var target := Retry(verdicts, MaxAttempts, BaseDelay, FallbackAnswer);
    assert target == AnswerFlow(outcomes);
    var delays: seq<nat> := [];
    var calls: nat := 0;
    var attempt: nat := 1;
    while attempt <= MaxAttempts
      invariant 1 <= attempt <= MaxAttempts
      invariant calls == attempt - 1
      invariant target == Resume(delays, RetryFrom(verdicts, MaxAttempts, BaseDelay, FallbackAnswer, attempt))
    {
      var outcome := outcomes[attempt - 1];
      calls := attempt;
      var message: Option<string>;
      if outcome.Ok? {
        RetryFromAccepts(verdicts, MaxAttempts, BaseDelay, FallbackAnswer, attempt, delays);
        return Run(outcome.output, FromModel, calls, delays);
      } else if outcome.NullOut? {
        message := Some(NullOutputMessage);
      } else {
        message := outcome.message;
      }
      assert verdicts[attempt - 1] == Reject(IsRateLimit(message));
      if IsRateLimit(message) && attempt < MaxAttempts {
        RetryFromContinues(verdicts, MaxAttempts, BaseDelay, FallbackAnswer, attempt, delays);
        delays := delays + [BaseDelay * attempt];
        attempt := attempt + 1;
        continue;
      }
      RetryFromStops(verdicts, MaxAttempts, BaseDelay, FallbackAnswer, attempt, delays);
      break;
    }
    r := Run(FallbackAnswer, FromFallback, calls, delays);
  }

  /** The message thrown for a missing output contains "rate" (in "generate"), so the classifier calls it throttling. */
  lemma NullOutputIsThrottled()
    ensures IsRateLimit(Some(NullOutputMessage))
    ensures Throttled(NullOut)
  {
    assert Lower(NullOutputMessage)[17..21] == "rate";
    KeywordMakesRateLimit(NullOutputMessage, "rate", 17);
  }

  /** The first attempt that yields an output returns it unchanged, and no further call is made. */
  lemma ReturnsFirstOutput(outcomes: seq<Outcome<Answer>>, k: nat)
    requires |outcomes| >= MaxAttempts
    requires k < MaxAttempts
    requires forall j :: 0 <= j < k ==> Throttled(outcomes[j])
    requires outcomes[k].Ok?
    ensures AnswerFlow(outcomes) == Run(outcomes[k].output, FromModel, k + 1, Backoff(BaseDelay, k))
  {
    RetryStep(Verdicts(outcomes), MaxAttempts, BaseDelay, FallbackAnswer, k);
  }

  /** A throttled failure on attempt `k + 1 < 3` waits `2000 * (k + 1)` ms and leads to attempt `k + 2`. */
  lemma ThrottledAttemptRetried(outcomes: seq<Outcome<Answer>>, k: nat)
    requires |outcomes| >= MaxAttempts
    requires k + 1 < MaxAttempts
    requires forall j :: 0 <= j <= k ==> Throttled(outcomes[j])
    ensures AnswerFlow(outcomes).attempts > k + 1
    ensures AnswerFlow(outcomes).delays[k] == 2000 * (k + 1)
  {
    RetryStep(Verdicts(outcomes), MaxAttempts, BaseDelay, FallbackAnswer, k);
  }

  /** A missing output on attempt 1 or 2 is retried like a rate-limit error. */
  lemma NullOutputRetried(outcomes: seq<Outcome<Answer>>, k: nat)
    requires |outcomes| >= MaxAttempts
    requires k + 1 < MaxAttempts
    requires forall j :: 0 <= j < k ==> Throttled(outcomes[j])
    requires outcomes[k] == NullOut
    ensures AnswerFlow(outcomes).attempts > k + 1
    ensures AnswerFlow(outcomes).delays[k] == 2000 * (k + 1)
  {
    NullOutputIsThrottled();
    ThrottledAttemptRetried(outcomes, k);
  }

  /** A failure that is not throttling, or any failure on attempt 3, ends the flow with the fallback. */
  lemma StopsOnFailure(outcomes: seq<Outcome<Answer>>, k: nat)
    requires |outcomes| >= MaxAttempts
    requires k < MaxAttempts
    requires forall j :: 0 <= j < k ==> Throttled(outcomes[j])
    requires !outcomes[k].Ok?
    requires !Throttled(outcomes[k]) || k + 1 == MaxAttempts
    ensures AnswerFlow(outcomes) == Run(FallbackAnswer, FromFallback, k + 1, Backoff(BaseDelay, k))
  {
    RetryStep(Verdicts(outcomes), MaxAttempts, BaseDelay, FallbackAnswer, k);
  }

  /** The flow never waits more than 2000 + 4000 ms in all. */
  lemma TotalWaitBounded(outcomes: seq<Outcome<Answer>>)
    requires |outcomes| >= MaxAttempts
    ensures TotalDelay(AnswerFlow(outcomes).delays) <= 6000
  {
    var r := AnswerFlow(outcomes);
    var n := r.attempts - 1;
    assert r.delays == Backoff(BaseDelay, n);
    BackoffTotal(BaseDelay, n);
    assert BaseDelay * n * (n + 1) <= 12000 by {
      assert n == 0 || n == 1 || n == 2;
    }
  }

  /** A quota error on every call: three calls, waits of 2 s and 4 s, then the fixed apology. */
  lemma QuotaOnEveryAttempt(outcomes: seq<Outcome<Answer>>)
    requires outcomes == [Err(Some("quota exceeded")), Err(Some("quota exceeded")), Err(Some("quota exceeded"))]
    ensures AnswerFlow(outcomes) == Run(FallbackAnswer, FromFallback, 3, [2000, 4000])
    ensures AnswerFlow(outcomes).value.answer
         == "I'm a bit busy right now. Please try again in a minute or contact your local Krishi Vigyan Kendra for urgent help."
  {
    assert Lower("quota exceeded")[..5] == "quota";
    KeywordMakesRateLimit("quota exceeded", "quota", 0);
    StopsOnFailure(outcomes, 2);
  }

  /** Two "429" failures and then an answer: three calls, waits of 2 s and 4 s, and that answer. */
  lemma TwoThrottlesThenAnswer(outcomes: seq<Outcome<Answer>>, a: Answer)
    requires outcomes == [Err(Some("429 Too Many Requests")), Err(Some("429 Too Many Requests")), Ok(a)]
    ensures AnswerFlow(outcomes) == Run(a, FromModel, 3, [2000, 4000])
  {
    assert Lower("429 Too Many Requests")[..3] == "429";
    KeywordMakesRateLimit("429 Too Many Requests", "429", 0);
    ReturnsFirstOutput(outcomes, 2);
  }

  /** An "internal error" is not retried: one call, no wait, the fallback. */
  lemma InternalErrorNotRetried(outcomes: seq<Outcome<Answer>>)
    requires |outcomes| >= MaxAttempts
    requires outcomes[0] == Err(Some("internal error"))
    ensures AnswerFlow(outcomes) == Run(FallbackAnswer, FromFallback, 1, [])
  {
    InternalErrorIsNotRateLimit();
    StopsOnFailure(outcomes, 0);
  }
}
