/** Optional values, standing for PHP's null and for JavaScript's "no value". */
module Wrappers {

  datatype Option<+T> = None | Some(value: T) {

    /** The value, or `default` when there is none (PHP's `??`). */
    function GetOr(default: T): T {
      match this
      case Some(v) => v
      case None => default
    }
  }

  /** A result of a step that may fail with a message (a caught exception). */
  datatype Result<+R> = Success(value: R) | Failure(error: string)
}
