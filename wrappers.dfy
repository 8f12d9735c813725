/** Optional values and pass/fail outcomes, standing in for Python's `None` and
    for WTForms' `ValidationError`. */
module Wrappers {

  /** A value that may be absent (Python `None`). */
  datatype Option<+T> = None | Some(value: T) {
    function GetOr(default: T): T {
      match this
      case Some(v) => v
      case None => default
    }
  }

  /** The outcome of a validator: it passes, or it raises with a message. */
  datatype Outcome<+E> = Pass | Fail(error: E)

  /** A computation that returns a value or raises an exception. */
  datatype Result<+R, +E> = Success(value: R) | Failure(error: E)
}
