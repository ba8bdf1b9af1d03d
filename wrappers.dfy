/** Failure-carrying result types shared by every stage of the evaluation run. */
module Wrappers {

  datatype Option<+T> = None | Some(value: T)

  datatype Result<+T, +E> = Ok(value: T) | Err(error: E)

  /** The run's fatal exits, one per `SystemExit` or uncaught exception of the script. */
  datatype Failure =
    | MissingQuestionColumn   // the question list has no `question` column
    | MissingGoldColumns      // the gold table lacks `question` or `answer`
    | NoOverlap               // no listed question occurs among the gold questions
    | MissingApiKey           // the API key is unset or empty
    | AnswerServiceFailed     // a chat-completion request raised
    | ShapeMismatch           // reference and prediction counts differ or are zero

  function Min(a: nat, b: nat): (m: nat)
    ensures m <= a && m <= b && (m == a || m == b)
  {
    if a <= b then a else b
  }
}
