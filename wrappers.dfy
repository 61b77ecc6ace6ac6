/** Small value wrappers shared by the model. */
module Wrappers {

  /** A value that may be absent: the source's `null`, or a fetch whose attempts all failed. */
  datatype Option<+T> = None | Some(value: T)

  /** What one network attempt produced: a parsed response, or an error thrown by `fetch`
      or by `response.json()` (or by reading the parsed response inside the same `try`). */
  datatype Outcome<+T> = Ok(value: T) | Fail
}
