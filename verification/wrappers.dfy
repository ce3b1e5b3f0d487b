/** Failure-compatible wrappers shared by the modules of this project. */
module Wrappers {

  /** An optional value: `None` plays the part of JavaScript's `null`. */
  datatype Option<+T> = None | Some(value: T)

  /** A value or the error that was raised instead of producing it. */
  datatype Result<+T, +E> = Success(value: T) | Failure(error: E)
}
