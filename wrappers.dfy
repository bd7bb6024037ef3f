/** Option and Result, the two failure-carrying shapes used throughout the model. */
module Wrappers {
  datatype Option<+T> = None | Some(value: T) {
    function GetOr(default: T): T {
      match this
      case Some(v) => v
      case None => default
    }
  }

  /** A computation that either returns a value or throws the error `error`. */
  datatype Result<+T, +E> = Ok(value: T) | Err(error: E)
}
