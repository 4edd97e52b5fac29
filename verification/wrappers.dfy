/** Stand-ins for the source's `null` and exceptions. */
module Wrappers {

  /** A value or the source's `null`. */
  datatype Option<+T> = None | Some(value: T)

  /** The value computed, or the exception the call throws instead. */
  datatype Result<+R, +E> = Success(value: R) | Failure(error: E)
}
