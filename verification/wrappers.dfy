/** Failure-carrying values used by the relay and the presence client. */
module Wrappers {

  /** A value that may be missing: JavaScript's `null`/`undefined` slot. */
  datatype Option<+T> = None | Some(value: T)

  /** The outcome of a handler that may throw. */
  datatype Result<+R, +E> = Success(value: R) | Failure(error: E)
}
