/** The optional-value and outcome datatypes shared by every module of the model. */
module Wrappers {

  /** A value that may be absent: a NULL column, a parse that failed, a row that was not found. */
  datatype Option<+T> = None | Some(value: T)

  /** A result that is either a value or the reason it could not be produced. */
  datatype Result<+T, +E> = Success(value: T) | Failure(error: E)
}
