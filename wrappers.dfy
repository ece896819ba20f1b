/** Option and Result values used throughout the model. */
module Wrappers {

  /** Python's `None` or a value. */
  datatype Option<T> = None | Some(value: T)

  /** A value or the exception the source would raise instead. */
  datatype Result<T, E> = Success(value: T) | Failure(error: E)
}
