/** Failure-carrying values shared by every module of the model. */
module Wrappers {

  /** A value that may be absent: an unset header, a missing key, a failed match. */
  datatype Option<+T> = None | Some(value: T)

  /** The outcome of an operation that either yields a value or raises an error. */
  datatype Result<+T, +E> = Success(value: T) | Failure(error: E)

  /** The outcome of an operation that yields nothing but may raise an error. */
  datatype Outcome<+E> = Pass | Fail(error: E)
}
