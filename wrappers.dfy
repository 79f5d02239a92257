/** Small wrapper datatypes shared by the match-statistics model. */
module Wrappers {

  /** A value that may be absent (a JavaScript `undefined` or `null` field). */
  datatype Option<+T> = None | Some(value: T)

  /** The outcome of evaluating JavaScript code that may throw: either the
      value it produced, or the fact that it threw (a `TypeError` from
      reading a property of a missing object). */
  datatype Result<+T> = Ok(value: T) | Threw
}
