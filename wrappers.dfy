/** Failure-carrying wrappers used where the Java code returns null or fails a call. */
module Wrappers {

  /** A value that may be missing: a JSON field that is absent or null. */
  datatype Option<+T> = None | Some(value: T)

  /** The outcome of an operation that either returns a value or reports an error. */
  datatype Result<+T, +E> = Success(value: T) | Failure(error: E)
}
