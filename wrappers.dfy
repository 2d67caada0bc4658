/** Option and Result: the absent value and the error paths of the model. */
module Wrappers {

  datatype Option<+T> = None | Some(value: T) {
    /** The held value, or `default` when there is none (PHP's `??`). */
    function GetOr(default: T): T {
      match this
      case Some(v) => v
      case None => default
    }
  }

  /** A value or the error that the PHP code raises instead of returning. */
  datatype Result<+R, +E> = Success(value: R) | Failure(error: E)
}
