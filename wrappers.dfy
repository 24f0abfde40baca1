/** Optional values and success-or-error results shared by the other modules. */
module Wrappers {

  /** A value that may be absent: JavaScript's `undefined` for a missing field or key. */
  datatype Option<+T> = None | Some(value: T)

  /** The outcome of a call that either returns a value or throws an error. */
  datatype Result<+T, +E> = Success(value: T) | Failure(error: E)
}
