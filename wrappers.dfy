/** Option and Result, the failure-carrying values used across the model. */
module Wrappers {

  /** A value that may be absent; `None` stands for PHP's `null`. */
  datatype Option<+T> = None | Some(value: T) {
    /** The value, or `default` when absent (PHP's `??`). */
    function GetOr(default: T): T {
      match this
      case Some(v) => v
      case None => default
    }
  }

  /** A computation that either returns a value or throws an exception. */
  datatype Result<+T, +E> = Ok(value: T) | Err(error: E)
}
