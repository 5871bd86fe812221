/** Failure-carrying values used in place of Python's `None` returns and raised exceptions. */
module Wrappers {

  /** A value that may be absent, like a Python `Optional`. */
  datatype Option<+T> = None | Some(value: T)

  /** The outcome of an operation that yields a value or fails with an error. */
  datatype Result<+T, +E> = Success(value: T) | Failure(error: E)

  /** The outcome of a check that yields nothing on success. */
  datatype Outcome<+E> = Pass | Fail(error: E)
}
