/** Optional values and results with an error, used for PHP's `null` and for
    the exceptions the transport can raise. */
module Wrappers {

  /** A value that may be absent: PHP's `null` or a missing array key. */
  datatype Option<+T> = None | Some(value: T)

  /** The outcome of an operation that can fail with an error value. */
  datatype Result<+T, +E> = Ok(value: T) | Err(error: E)
}
