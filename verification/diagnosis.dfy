/**
 * The crop-disease flow (`diagnoseCropDiseaseFlow`): one call of the remote
 * prompt, no retry. A missing output is thrown and caught like any other
 * error, and every error ends in a fixed "analysis unavailable" diagnosis,
 * so no error ever leaves the flow.
 */
module Diagnosis {
  import opened Wrappers
  import opened Prompt
  import opened RetryPolicy

  datatype Severity = Low | Medium | High

  /**
   * The flow's output schema. `confidence` is a JavaScript number the flow
   * only passes through; it is modelled as a real.
   */
  datatype CropDiagnosis = CropDiagnosis(
    identification: string,
    confidence: real,
    description: string,
    organicTreatment: string,
    severity: Severity)

  /** What the flow returns on any failure; neither the photo nor the crop type plays a part. */
  const FallbackDiagnosis: CropDiagnosis := CropDiagnosis(
    "Analysis Unavailable",
    0.0,
    "Unable to analyze image at this time due to service connectivity. Please ensure the image is clear and try again.",
    "Consult a local expert.",
    Low)

  /** The flow over the outcome of its single remote call. */
  function DiagnoseFlow(outcome: Outcome<CropDiagnosis>): (r: Run<CropDiagnosis>)
    ensures r.attempts == 1 && r.delays == []
    ensures r.provenance == FromModel <==> outcome.Ok?
    ensures outcome.Ok? ==> r.value == outcome.output
    ensures !outcome.Ok? ==> r.value.confidence == 0.0 && r.value.severity == Low
  {
    match outcome
    case Ok(output) => Run(output, FromModel, 1, [])
    case _ => Run(FallbackDiagnosis, FromFallback, 1, [])
  }

  /**
   * A single try is the retry policy with one attempt allowed: whatever a
   * classifier would say about the failure (`retryable`), and whatever the
   * backoff base, the result is the same.
   */
  lemma SingleAttemptPolicy(outcome: Outcome<CropDiagnosis>, retryable: bool, baseDelay: nat)
    ensures var verdict := if outcome.Ok? then Accept(outcome.output) else Reject(retryable);
      DiagnoseFlow(outcome) == Retry([verdict], 1, baseDelay, FallbackDiagnosis)
  {
    var verdict := if outcome.Ok? then Accept(outcome.output) else Reject(retryable);
    RetryStep([verdict], 1, baseDelay, FallbackDiagnosis, 0);
  }

  /** Whatever the error says, the caller gets the same fixed diagnosis and nothing is thrown. */
  lemma ErrorsNeverEscape(m1: Option<string>, m2: Option<string>)
    ensures DiagnoseFlow(Err(m1)) == DiagnoseFlow(Err(m2)) == DiagnoseFlow(NullOut)
    ensures DiagnoseFlow(NullOut).value == FallbackDiagnosis
  {
  }
}
