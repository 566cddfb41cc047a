/** Option and Result values used across the model in place of Python's
    None and raised exceptions. */
module Wrappers {

  datatype Option<+T> = None | Some(value: T) {
    function GetOr(default: T): T {
      match this
      case Some(v) => v
      case None => default
    }
  }

  /** Err carries the message of the exception the source raises. */
  datatype Result<+T> = Ok(value: T) | Err(msg: string)
}
