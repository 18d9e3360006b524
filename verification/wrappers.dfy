/** Failure-carrying result types used across the model: Python's `None`
    returns and raised exceptions become explicit values. */
module Wrappers {

  /** A value that may be absent (Python `Optional[T]`). */
  datatype Option<+T> = None | Some(value: T) {
    function GetOr(default: T): T {
      match this
      case Some(v) => v
      case None => default
    }
  }

  /** Either a value or the error a Python `raise` would have produced. */
  datatype Result<+T, +E> = Ok(value: T) | Err(error: E)
}
