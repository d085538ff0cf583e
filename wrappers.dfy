// Failure-compatible wrappers shared by every module of the model: an optional
// value (Python's `None`) and a result that is either a value or an error.
module Wrappers {

  /** Python's `x | None`. */
  datatype Option<+T> = None | Some(value: T) {

    /** `x if x is not None else default` */
    function GetOr(default: T): T
    {
      match this
      case Some(v) => v
      case None => default
    }
  }

  /** A value, or the message of the exception that was raised instead. */
  datatype Result<+T, +E> = Ok(value: T) | Err(error: E)
}
