/** Optional values and results with an error, used for the nullable references and the
    exceptions of the cache. */
module Wrappers {

  /** A reference that may be null. */
  datatype Option<+T> = None | Some(value: T)

  /** The outcome of an operation that may throw: a value, or the error that escaped. */
  datatype Result<+T, +E> = Success(value: T) | Failure(error: E)
}
