/** Failure-carrying result types used across the model. */
module Wrappers {

  /** A value that may be absent (a missing dictionary key, a `None`). */
  datatype Option<+T> = None | Some(value: T) {
    function GetOr(default: T): T {
      match this
      case Some(v) => v
      case None => default
    }
  }

  /** The outcome of an operation that returns a value or raises an error. */
  datatype Result<+R, +E> = Success(value: R) | Failure(error: E)

  /** The outcome of a check that returns nothing or raises an error. */
  datatype Outcome<+E> = Pass | Fail(error: E)
}
