/** Null-or-value and value-or-error types: Python's `None` and the exceptions that abort a run. */
module Wrappers {

  /** A value that may be missing, as Python's `None` stands for a missing field. */
  datatype Option<+T> = None | Some(value: T)

  /** A computation that either yields a value or stops on an uncaught error. */
  datatype Result<+R, +E> = Success(value: R) | Failure(error: E)
}
