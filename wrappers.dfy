/** Optional values and success-or-error results, used for the source's
    `null`/`None`, its thrown exceptions and its HTTP error replies. */
module Wrappers {

  datatype Option<+T> = None | Some(value: T) {
    function GetOr(default: T): T {
      match this
      case Some(v) => v
      case None => default
    }
  }

  datatype Result<+R, +E> = Ok(value: R) | Err(error: E)
}
