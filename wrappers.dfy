/** Optional values and results with an error message, used for every nullable
    field of a backend row and every reply of the backend. */
module Wrappers {

  datatype Option<+T> = None | Some(value: T) {
    /** The value, or `default` when absent (the source's `x ?? d`). */
    function GetOr(default: T): T {
      match this
      case Some(v) => v
      case None => default
    }
  }

  /** A backend reply: the rows or value it returned, or the error's message. */
  datatype Result<+T> = Ok(value: T) | Err(message: string)
}
