/** Optional values and tagged outcomes used across the model. */
module Wrappers {

  /** A value that may be absent (Python's `None`). */
  datatype Option<+T> = None | Some(value: T)

  /** The outcome of an operation that either succeeds or fails with an error. */
  datatype Result<+R, +E> = Success(value: R) | Failure(error: E)
}
