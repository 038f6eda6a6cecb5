/** Option and Result, the two failure-carrying shapes the rest of the model uses. */
module Wrappers {

  /** A value that may be absent: `undefined`/`null` in the source, or a key left out of an input object. */
  datatype Option<+T> = None | Some(value: T)

  /** A value or the error that took its place (a thrown exception in the source). */
  datatype Result<+T, +E> = Success(value: T) | Failure(error: E)
}
