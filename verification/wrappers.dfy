/** Failure-compatible wrappers shared by the other modules. */
module Wrappers {

  /** A value that may be absent: an unset option, a regular expression with no match. */
  datatype Option<+T> = None | Some(value: T)

  /** The outcome of an operation that may throw a `TypeError` in the JavaScript. */
  datatype Result<+R, +E> = Success(value: R) | Failure(error: E)
}
