/** Option and Result types shared by the model. */
module Wrappers {

  /** An optional value: a search that may find nothing. */
  datatype Option<+T> = None | Some(value: T)

  /** A value or the error that the source raises instead of returning one. */
  datatype Result<+T, +E> = Success(value: T) | Failure(error: E)
}
