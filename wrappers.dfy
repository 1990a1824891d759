/** Optional values and error-carrying results, used where the modelled code
    returns `undefined` or throws. */
module Wrappers {

  /** A value that may be absent: `None` plays the role of `undefined`. */
  datatype Option<+T> = None | Some(value: T)

  /** The outcome of an operation that may throw instead of returning. */
  datatype Result<+R, +E> = Success(value: R) | Failure(error: E)
}
