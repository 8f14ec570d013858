/** Option and Result values for lookups and fallible steps. */
module Wrappers {

  datatype Option<+T> = None | Some(value: T)

  /** The outcome of a step that can fail with an error detail of type E. */
  datatype Result<+T, +E> = Success(value: T) | Failure(error: E)
}
