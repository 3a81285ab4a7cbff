/** Optional values and results, the two Swift wrappers the core returns. */
module Common {

  /** Swift's `Optional`. */
  datatype Option<+T> = None | Some(value: T) {

    /** `self ?? default` */
    function GetOr(default: T): T {
      match this
      case Some(v) => v
      case None => default
    }
  }

  /** Swift's `Result<Success, Failure>`. */
  datatype Result<+T, +E> = Success(value: T) | Failure(error: E)
}
