/** Optional values and success-or-error results shared by the other modules. */
module Wrappers {

  /** A value that may be absent: a missing JSON key, a `null` ref, an empty form field. */
  datatype Option<+T> = None | Some(value: T)

  /** The outcome of an operation that either produces a value or rejects its input. */
  datatype Result<+T, +E> = Success(value: T) | Failure(error: E)
}
