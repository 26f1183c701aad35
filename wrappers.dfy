/** Option and result types standing in for Python's None and raised exceptions. */
module Wrappers {

  datatype Option<+T> = None | Some(value: T)

  /** The outcome of an operation that returns nothing when it succeeds. */
  datatype Outcome<+E> = Pass | Fail(error: E)

  /** The outcome of an operation that returns a value when it succeeds. */
  datatype Result<+T, +E> = Success(value: T) | Failure(error: E)
}
