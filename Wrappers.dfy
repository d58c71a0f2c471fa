/** Option and Result, the failure-carrying values the other modules share. */
module Wrappers {

  /** An optional value: `None` stands for the source's `null` and `undefined`. */
  datatype Option<+T> = None | Some(value: T) {

    /** The value, or `fallback` when there is none (the source's `?? fallback`). */
    function GetOr(fallback: T): T {
      match this
      case Some(v) => v
      case None => fallback
    }
  }

  /** The outcome of an operation that either returns a value or throws an error. */
  datatype Result<+R, +E> = Success(value: R) | Failure(error: E)
}
