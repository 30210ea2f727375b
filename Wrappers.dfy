/** Option and Result, the two failure-carrying wrappers the model uses. */
module Wrappers {

  /** A value that may be missing (Python's `None`). */
  datatype Option<+T> = None | Some(value: T) {
    function GetOr(default: T): T {
      match this
      case Some(v) => v
      case None => default
    }
  }

  /** The outcome of an operation that may raise (`Err` stands for the exception). */
  datatype Result<+T, +E> = Ok(value: T) | Err(error: E)
}
