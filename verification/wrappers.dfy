/** Option and Result, the two failure-carrying shapes the model needs. */
module Wrappers {

  /** A value that may be missing; Python's `None` is `None` here. */
  datatype Option<+T> = None | Some(value: T)

  /** A value, or the reason it could not be produced. */
  datatype Result<+T, +E> = Success(value: T) | Failure(error: E)
}
