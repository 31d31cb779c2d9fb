/** Failure-carrying values used in place of exceptions and null references. */
module Wrappers {

  /** A reference that may be null. */
  datatype Option<+T> = None | Some(value: T)

  /** The outcome of an operation that may throw: a value or the error it throws. */
  datatype Result<+T, +E> = Success(value: T) | Failure(error: E)
}
