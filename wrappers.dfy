/** Option and Outcome, the two failure-carrying shapes the model needs. */
module Wrappers {

  /** A value that may be absent: Python's `None` or the value itself. */
  datatype Option<+T> = None | Some(value: T) {

    /** The value when present, `default` otherwise. */
    function GetOr(default: T): (r: T)
      ensures Some? ==> r == value
    {
      match this
      case Some(v) => v
      case None => default
    }
  }

  /** The value computed by a call, or the error `E` it raises. */
  datatype Result<+T, +E> = Success(value: T) | Failure(error: E)

  /** The outcome of a call that returns nothing but may raise `E`. */
  datatype Outcome<+E> = Pass | Fail(error: E)
}
