/** Optional values and error returns, used where the source returns
    `undefined`/`null` or throws an `Error`. */
module Wrappers {

  datatype Option<+T> = None | Some(value: T) {
    function GetOr(default: T): T {
      match this
      case Some(v) => v
      case None => default
    }
  }

  /** `Failure` carries the message of the `Error` the source throws. */
  datatype Result<+R> = Success(value: R) | Failure(error: string)
}
