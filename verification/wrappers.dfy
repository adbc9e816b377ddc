/** Failure-carrying value types shared by the other modules. */
module Wrappers {

  /** A value that may be absent. */
  datatype Option<+T> = None | Some(value: T)

  /** Either a computed value or an error. */
  datatype Result<+T, +E> = Success(value: T) | Failure(error: E)
}
