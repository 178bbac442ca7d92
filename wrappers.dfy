/** Failure-carrying datatypes used to model the exceptions the program raises. */
module Wrappers {

  datatype Option<+T> = None | Some(value: T) {
    /** The value, or `default` when there is none (Python's `dict.get(k, default)`). */
    function GetOr(default: T): T {
      match this
      case Some(v) => v
      case None => default
    }
  }

  /** The value of a computation that either returns or raises. */
  datatype Result<+R, +E> = Ok(value: R) | Err(error: E)

  /** The outcome of a procedure that returns nothing or raises. */
  datatype Outcome<+E> = Pass | Fail(error: E)
}
