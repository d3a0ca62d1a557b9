# AgriSense AI assistant flows: retry-with-fallback model

This project models, in Dafny, the decision logic of the AgriSense AI
assistant's three model-backed flows and its Gemini model selector:

- the **chat flow** (`answerFarmingQuestionsViaChatFlow`): up to 3 calls of the
  remote prompt, 2000 ms × attempt linear backoff after a rate-limit error, and
  a fixed apology as fallback. A missing output is thrown as
  `'AI failed to generate a response.'` and classified like any other error;
- the **recommendations flow** (`generatePersonalizedRecommendationsFlow`): up
  to 3 calls, 1500 ms × attempt backoff, and a fixed list of three
  recommendations (High, Medium, Low) as fallback. A missing or empty list
  breaks straight to the fallback;
- the **crop-disease flow** (`diagnoseCropDiseaseFlow`): one call, no retry, a
  fixed "Analysis Unavailable" diagnosis on any failure;
- the **rate-limit classifier** both retrying flows carry a copy of: an error is
  a rate-limit hit iff its lower-cased message contains `quota`, `limit`,
  `429` or `rate`; a missing message reads as `''`;
- the **model selector** (`getNextModel`, `getModel`, `GEMINI_MODELS`): a
  round-robin counter over three model names, and a fixed name mapping.

The remote call `prompt(input)` is the only input of a flow: it is given as
the sequence of outcomes its successive calls produce
(`Prompt.Outcome`: `Ok(output)`, `NullOut`, or `Err(message)`). An empty
recommendations list is `Ok([])`, since the code tests its length. A flow
returns a `RetryPolicy.Run`: the value the caller receives, whether it came
from the model or the fallback (the caller cannot see this), the number of
calls made, and the waits requested, in order. Sleeping is not modelled as
time; each `sleep(delay)` appends `delay` to that list. The retrying flows
take one outcome per possible call (`|outcomes| >= 3`). Any behaviour of the
remote call over the at most three calls can be written that way.

Layout, one module per file:

| file | module | models |
|---|---|---|
| wrappers.dfy | `Wrappers` | `Option` (missing values, `??`) |
| prompt.dfy | `Prompt` | the outcome of one remote call |
| rate_limit.dfy | `RateLimit` | `toLowerCase` (ASCII), `includes`, the `isRateLimit` test |
| retry_policy.dfy | `RetryPolicy` | the shared retry/backoff/fallback loop, stated once, with a declarative description (`Explains`) it is proved to meet uniquely |
| chat_answers.dfy | `ChatAnswers` | the chat flow, as a function and as the literal `for` loop |
| recommendations.dfy | `Recommendations` | the recommendations flow, as a function and as the literal `for` loop |
| diagnosis.dfy | `Diagnosis` | the crop-disease flow |
| genkit.dfy | `Genkit` | the round-robin selector and `getModel` |

Each retrying flow is the shared `RetryPolicy.Retry` applied to a per-flow
judgement of each outcome: accept it, or reject it as retryable or not. Each
flow also has a method that follows the source loop statement by statement,
with `continue` and `break`. That method is proved to return exactly what
the function returns.

Two behaviours of the code are worth stating plainly. In the
recommendations flow an empty or missing list is not retried: the loop
breaks and the fallback is returned after that one call
(generate-personalized-recommendations.ts:63, 81-82, as the comment at line
81 says); `Recommendations.EmptyThenListFallsBack` proves this. In the chat
flow a missing output is retried on attempts 1 and 2, because the thrown
message contains "rate" inside "generate"
(`ChatAnswers.NullOutputIsThrottled`).

## Model

| member | source | states |
|---|---|---|
| RateLimit.ContainsIff | src/ai/flows/answer-farming-questions-via-chat.ts:50-53 | the scanning substring test holds exactly when the keyword occurs at some position of the message |
| RateLimit.IsRateLimit | src/ai/flows/answer-farming-questions-via-chat.ts:48-53 | a missing message (read as `''`) is never a rate-limit hit |
| RateLimit.IsRateLimitIff | src/ai/flows/answer-farming-questions-via-chat.ts:48-53 | an error is a rate-limit hit iff one of quota/limit/429/rate occurs in its lower-cased message |
| RateLimit.NormalizedMessage | src/ai/flows/generate-personalized-recommendations.ts:65 | each character of the message is its ASCII lower-case form (so no upper-case ASCII remains, length kept) and a missing message becomes `''` |
| RateLimit.CaseInsensitive | src/ai/flows/generate-personalized-recommendations.ts:65-70 | a message and its lower-cased form classify alike |
| RateLimit.SubstringQuirks | src/ai/flows/generate-personalized-recommendations.ts:65-70 | "Quota exceeded" counts, and so does an unrelated word containing "rate" ("generate") |
| RateLimit.InternalErrorIsNotRateLimit | src/ai/flows/answer-farming-questions-via-chat.ts:48-53 | "internal error" contains no keyword and is not a rate-limit hit |
| RetryPolicy.Backoff | src/ai/flows/answer-farming-questions-via-chat.ts:56 | the schedule has one entry per retry and entry k is baseDelay × (k + 1) |
| RetryPolicy.BackoffTotal | src/ai/flows/generate-personalized-recommendations.ts:73 | the linear schedule of n waits totals baseDelay × n × (n + 1) / 2 |
| RetryPolicy.RetryFrom | src/ai/flows/answer-farming-questions-via-chat.ts:42-65 | resumed at an attempt, the loop makes between that attempt and maxAttempts calls, waits baseDelay × k after each retried attempt k, retries only retryable failures, and ends with an accepted output or the fallback after a failure that was not retried |
| RetryPolicy.Retry | src/ai/flows/generate-personalized-recommendations.ts:60-83 | a run meets the declarative description: 1..maxAttempts calls, all but the last failed retryably, the waits are the linear schedule, and the last call's output or the fallback is returned |
| RetryPolicy.ExplainsUnique | src/ai/flows/answer-farming-questions-via-chat.ts:42-65 | at most one run meets the declarative description |
| RetryPolicy.RetryCharacterized | src/ai/flows/generate-personalized-recommendations.ts:60-83 | a run is the loop's result iff it meets the declarative description |
| RetryPolicy.RetryStep | src/ai/flows/answer-farming-questions-via-chat.ts:42-64 | after k retryable failures, attempt k + 1 returns an accepted output at once; a failure that is not retried, or one on the last attempt, gives the fallback after exactly k + 1 calls; a retryable failure before the last attempt waits baseDelay × (k + 1) and leads to another call |
| RetryPolicy.ExhaustsWhenAlwaysRetryable | src/ai/flows/generate-personalized-recommendations.ts:60-83 | a model that always fails retryably is called exactly maxAttempts times, then the fallback is returned |
| RetryPolicy.RetryFromAccepts | src/ai/flows/answer-farming-questions-via-chat.ts:44-46 | an accepted output on the current attempt ends the run with that output, keeping the waits already made |
| RetryPolicy.RetryFromContinues | src/ai/flows/answer-farming-questions-via-chat.ts:55-59 | a retryable failure before the last attempt adds one wait of baseDelay × attempt and moves to the next attempt |
| RetryPolicy.RetryFromStops | src/ai/flows/answer-farming-questions-via-chat.ts:60-70 | a failure that is not retried ends the run on this attempt with the fallback |
| ChatAnswers.AnswerFlow | src/ai/flows/answer-farming-questions-via-chat.ts:36-71 | 1 to 3 calls; every call before the last was a throttled failure; the waits are a prefix of [2000, 4000]; the model's output is returned iff the last call produced one; otherwise the fixed apology, after a non-throttled failure or on attempt 3 |
| ChatAnswers.AnswerFarmingQuestions | src/ai/flows/answer-farming-questions-via-chat.ts:36-71 | the literal loop, with its continue/break, returns exactly what AnswerFlow describes |
| ChatAnswers.NullOutputIsThrottled | src/ai/flows/answer-farming-questions-via-chat.ts:45-53 | the error thrown for a missing output is classified as a rate-limit hit |
| ChatAnswers.ReturnsFirstOutput | src/ai/flows/answer-farming-questions-via-chat.ts:42-46 | the first call that yields an output returns it unchanged, after exactly that many calls |
| ChatAnswers.ThrottledAttemptRetried | src/ai/flows/answer-farming-questions-via-chat.ts:55-59 | a throttled failure on attempt k < 3 waits exactly 2000 × k ms and leads to attempt k + 1 |
| ChatAnswers.NullOutputRetried | src/ai/flows/answer-farming-questions-via-chat.ts:44-59 | a missing output on attempt 1 or 2 is retried after a wait of 2000 × attempt ms |
| ChatAnswers.StopsOnFailure | src/ai/flows/answer-farming-questions-via-chat.ts:47-70 | a non-throttled failure, or any failure on attempt 3, ends the flow with the fallback after exactly that many calls |
| ChatAnswers.TotalWaitBounded | src/ai/flows/answer-farming-questions-via-chat.ts:55-59 | the flow waits at most 6000 ms in all |
| ChatAnswers.QuotaOnEveryAttempt | src/ai/flows/answer-farming-questions-via-chat.ts:42-70 | a quota error on every call gives 3 calls, waits of 2000 and 4000 ms, and the literal fallback text |
| ChatAnswers.TwoThrottlesThenAnswer | src/ai/flows/answer-farming-questions-via-chat.ts:42-59 | two 429 errors then an answer give 3 calls, waits of 2000 and 4000 ms, and that answer |
| ChatAnswers.InternalErrorNotRetried | src/ai/flows/answer-farming-questions-via-chat.ts:47-70 | an "internal error" gives one call, no wait, and the fallback |
| Recommendations.RecommendFlow | src/ai/flows/generate-personalized-recommendations.ts:53-106 | 1 to 3 calls; every call before the last threw a rate-limit error; the waits are a prefix of [1500, 3000]; a non-empty list from the last call is returned iff there was one; otherwise the fixed list; the result is never empty |
| Recommendations.GeneratePersonalizedRecommendations | src/ai/flows/generate-personalized-recommendations.ts:53-106 | the literal loop, with its continue/break, returns exactly what RecommendFlow describes |
| Recommendations.FallbackShape | src/ai/flows/generate-personalized-recommendations.ts:86-105 | the fallback is three recommendations with priorities High, Medium, Low in that order |
| Recommendations.ReturnsFirstList | src/ai/flows/generate-personalized-recommendations.ts:60-63 | the first call that yields a non-empty list returns it unchanged, after exactly that many calls |
| Recommendations.EmptyOrMissingStops | src/ai/flows/generate-personalized-recommendations.ts:60-83 | a missing or empty list is not retried: the fallback comes back after exactly that call |
| Recommendations.ThrottledAttemptRetried | src/ai/flows/generate-personalized-recommendations.ts:72-76 | a rate-limit error on attempt k < 3 waits exactly 1500 × k ms and leads to attempt k + 1 |
| Recommendations.StopsOnError | src/ai/flows/generate-personalized-recommendations.ts:64-83 | a non-rate-limit error, or any error on attempt 3, ends the flow with the fallback after exactly that many calls |
| Recommendations.MessagelessErrorStops | src/ai/flows/generate-personalized-recommendations.ts:64-83 | an error without a message is not retried |
| Recommendations.TotalWaitBounded | src/ai/flows/generate-personalized-recommendations.ts:72-76 | the flow waits at most 4500 ms in all |
| Recommendations.EmptyThenListFallsBack | src/ai/flows/generate-personalized-recommendations.ts:60-83 | an empty list on the first call ends the flow with the fallback even though the second call would give a good list |
| Diagnosis.DiagnoseFlow | src/ai/flows/diagnose-crop-disease.ts:44-60 | exactly one call and no wait; the model's output is returned unchanged iff there was one; on a missing output or any error the fallback has confidence 0 and severity Low |
| Diagnosis.SingleAttemptPolicy | src/ai/flows/diagnose-crop-disease.ts:45-59 | the flow is the retry policy with a single attempt, whatever the classification of the failure |
| Diagnosis.ErrorsNeverEscape | src/ai/flows/diagnose-crop-disease.ts:47-58 | every error, whatever its message, and a missing output give the same fixed diagnosis |
| Genkit.GetNextModel | src/ai/genkit.ts:20-24 | the returned model is one of the three and the index stays within the list |
| Genkit.NextModels | src/ai/genkit.ts:20-24 | n calls return n models |
| Genkit.After | src/ai/genkit.ts:19-23 | the index stays within [0, 3) across any number of calls |
| Genkit.AfterIndex | src/ai/genkit.ts:19-23 | after n calls the index is the starting index + n, modulo 3 |
| Genkit.NextModelsAt | src/ai/genkit.ts:12-23 | call i of a run returns the model at (starting index + i) modulo 3: the model under the index before the call, then one step on |
| Genkit.Periodic | src/ai/genkit.ts:12-23 | the sequence of returned models has period 3 |
| Genkit.RotateThree | src/ai/genkit.ts:22 | a three-element list rotated left by k, element by element |
| Genkit.ThreeCallsRotate | src/ai/genkit.ts:12-23 | three consecutive calls return the model list rotated to start at the current index |
| Genkit.ThreeCallsCoverAllModels | src/ai/genkit.ts:12-23 | any three consecutive calls return each of the three models exactly once |
| Genkit.FirstCallFromStart | src/ai/genkit.ts:12-21 | from process start the first call returns googleai/gemini-2.5-flash-lite |
| Genkit.GetModel | src/ai/genkit.ts:27-36 | every short name maps to one of the three models |
| Genkit.GetModelInjective | src/ai/genkit.ts:27-36 | different short names map to different models |
| Genkit.GetModelCoversModels | src/ai/genkit.ts:12-36 | every model in the list is reached by some short name |

## Left out

- The genkit, zod and Google GenAI libraries (`ai.definePrompt`, `ai.defineFlow`, `genkit(...)`, schema validation): foreign code. The remote call is its sequence of outcomes, and outputs are opaque values of the output schema.
- The request objects and the prompt and system texts: they reach only the remote call, whose behaviour is already an input. Every fallback is a constant, so no fallback can depend on a request field.
- `sleep`/`setTimeout`, Promises and `async`: each wait is a recorded delay value, not elapsed time.
- `console.warn` and `console.error` logging: output only.
- The API-key lookup in process.env (genkit.ts:6-9) and the `GENKIT_MODEL` override at module load (genkit.ts:41): process environment I/O.
- The exported wrappers `answerFarmingQuestionsViaChat`, `diagnoseCropDisease` and `generatePersonalizedRecommendations`: each only forwards to its flow.
- Unicode case folding: `toLowerCase` is modelled as ASCII-only lowering. An error whose `message` is present but not a string is modelled as a missing message, which is what `?.toLowerCase?.()` yields for it.
- The JavaScript number `confidence` and the numeric sensor fields: they are only passed through; `confidence` is a `real`.
- Genkit.GetNextModel: its own contract says only that the model is one of the three and that the index stays valid. The exact model and the next index are stated by Genkit.NextModelsAt and Genkit.AfterIndex.
- Genkit.GetNextModel: the module-level mutable `modelIndex` is passed in and returned as a `Selector` value rather than kept in shared state.
