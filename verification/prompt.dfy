/**
 * The remote model call `prompt(input)`, abstracted to what a single call can
 * produce. The request, the prompt text and the schema validation all live on
 * the far side of this interface; a flow only sees one `Outcome` per call.
 */
module Prompt {
  import opened Wrappers

  /** What one awaited call of the remote prompt produced. */
  datatype Outcome<T> =
    | Ok(output: T)                  // a present, schema-valid output
    | NullOut                        // the call returned, but `output` is missing
    | Err(message: Option<string>)   // the call threw; the error's message, if it has one
}
