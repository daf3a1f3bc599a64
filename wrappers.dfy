/** Optional values and error-or-value results shared by the other modules. */
module Wrappers {

  /** A value that may be absent, as a Go pointer that may be nil. */
  datatype Option<+T> = None | Some(value: T)

  /** A value or the error that stopped its computation, as Go's `(T, error)` pair. */
  datatype Result<+T, +E> = Success(value: T) | Failure(error: E)
}
