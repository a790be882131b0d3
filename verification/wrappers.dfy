/** Optional values and results with an error, shared by every module. */
module Wrappers {

  /** A value that may be missing: JavaScript's `null` / `undefined`. */
  datatype Option<+T> = None | Some(value: T)

  /** The outcome of an operation that can fail with an error message. */
  datatype Result<+R, +E> = Success(value: R) | Failure(error: E)
}
