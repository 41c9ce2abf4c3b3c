/** Failure-carrying values used in place of the source's panics. */
module Wrappers {

  /** An optional value. */
  datatype Option<+T> = None | Some(value: T)

  /** Either a value or the reason the operation could not produce one. */
  datatype Result<+R, +E> = Success(value: R) | Failure(error: E)
}
