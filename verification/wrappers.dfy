/** Optional values and results with a failure, used for Swift optionals and runtime traps. */
module Wrappers {

  /** Swift's `T?`. */
  datatype Option<+T> = None | Some(value: T) {

    /** The value, or `default` when absent (Swift's `??`). */
    function GetOr(default: T): T {
      match this
      case Some(v) => v
      case None => default
    }
  }

  /** A computation that either produces a value or stops the program. */
  datatype Result<+T, +E> = Success(value: T) | Failure(error: E)
}
