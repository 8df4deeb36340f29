/** Optional values and the coarse outcome of a route handler. */
module Wrappers {

  /** A value that a JSON document may leave out. */
  datatype Option<+T> = None | Some(value: T) {
    function GetOr(default: T): T {
      match this
      case Some(v) => v
      case None => default
    }
  }

  /** The failures a route reports: 409 (Conflict) and 500 (Internal). */
  datatype Failure = Conflict | Internal

  /** The outcome of one route handler: a success value or a failure. */
  datatype Result<+T> = Ok(value: T) | Err(failure: Failure)
}
