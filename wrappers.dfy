/** Option and Result, the two failure-carrying datatypes the task model uses. */
module Wrappers {

  /** A value that may be missing: `None` stands for JavaScript's `null` or `undefined`. */
  datatype Option<+T> = None | Some(value: T)

  /** The outcome of a call that may throw: `Failure` carries the error message. */
  datatype Result<+T, +E> = Success(value: T) | Failure(error: E)
}
