/** Failure-compatible wrappers used across the model. */
module Wrappers {

  /** A value that may be absent: JavaScript's `undefined` where the engine reads past an array. */
  datatype Option<+T> = None | Some(value: T)

  /** The outcome of an operation that can fail with an error of type `E`. */
  datatype Result<+R, +E> = Success(value: R) | Failure(error: E)
}
