/** Failure-compatible wrappers shared by every module of the model. */
module Wrappers {

  /** An optional value (Swift's `Optional`). */
  datatype Option<+T> = None | Some(value: T) {
    function GetOr(default: T): T {
      match this
      case Some(v) => v
      case None => default
    }
  }

  /** The outcome of a throwing call: a value, or the error it threw. */
  datatype Result<+T, +E> = Ok(value: T) | Err(error: E)
}
