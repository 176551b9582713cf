/** Optional values and results with an error kind, used by every module. */
module Wrappers {

  /** A value that may be absent: a missing request field, `null`, `undefined`. */
  datatype Option<+T> = None | Some(value: T) {
    function GetOr(default: T): T {
      match this
      case Some(v) => v
      case None => default
    }
  }

  /** The outcome of a route handler: the response body, or an error kind. */
  datatype Result<+R, +E> = Success(value: R) | Failure(error: E)
}
