/** Option and Result, the failure-carrying values used throughout the model. */
module Wrappers {

  /** A value that may be missing: Python's `None` versus a present value. */
  datatype Option<+T> = None | Some(value: T) {

    /** The value, or `default` when missing (Python's `x or default` for non-falsy values). */
    function GetOr(default: T): T {
      match this
      case Some(v) => v
      case None => default
    }
  }

  /** The outcome of a computation that can raise: a value or the error it raises. */
  datatype Result<+R, +E> = Ok(value: R) | Err(error: E)
}
