/** Option and Result, the failure-carrying values used throughout the model. */
module Wrappers {

  /** A value that may be absent: a missing JSON key, a failed fetch, no match. */
  datatype Option<+T> = None | Some(value: T)

  /** The outcome of a step that either yields a value or rejects the request. */
  datatype Result<+R, +E> = Success(value: R) | Failure(error: E)
}
