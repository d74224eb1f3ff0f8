/** Option and Result: absent values and failing operations. */
module Wrappers {

  /** A value that may be absent (JavaScript's `null` / `undefined`). */
  datatype Option<+T> = None | Some(value: T) {
    function GetOr(default: T): T {
      match this
      case Some(v) => v
      case None => default
    }
  }

  /** The outcome of an operation that may throw: the value, or the error message. */
  datatype Result<+T> = Ok(value: T) | Err(error: string)
}
