/** Optional values and success-or-error results, shared by the other modules. */
module Wrappers {

  datatype Option<+T> = None | Some(value: T)

  /** The outcome of an operation that may throw: its value, or the message of the error thrown. */
  datatype Result<+R, +E> = Success(value: R) | Failure(error: E)
}
