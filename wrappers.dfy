/** Failure-carrying values shared by every module of the crawler model:
    `Option` for Python's `None`-or-value, `Result` for a value or a raised error. */
module Wrappers {

  datatype Option<+T> = None | Some(value: T) {
    function GetOr(default: T): T {
      match this
      case Some(v) => v
      case None => default
    }
  }

  datatype Result<+T, +E> = Ok(value: T) | Err(error: E)
}
