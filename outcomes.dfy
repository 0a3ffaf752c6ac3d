/** Optional values and results with an error, used across the model. */
module Outcomes {

  /** A value that may be absent (a Java `Optional`, or a reference that may be null). */
  datatype Option<+T> = None | Some(value: T)

  /** The outcome of an operation that may throw: a value, or the error it raises. */
  datatype Result<+T, +E> = Success(value: T) | Failure(error: E)
}
