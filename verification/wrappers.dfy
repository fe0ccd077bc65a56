/** Failure-compatible wrappers used throughout the model. */
module Wrappers {

  /** A value that may be absent: a missing tag, a failed translation, an unset input path. */
  datatype Option<+T> = None | Some(value: T)

  /** The outcome of an operation that can fail with an error of type `E`. */
  datatype Result<+R, +E> = Success(value: R) | Failure(error: E)
}
