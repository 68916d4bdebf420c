/** Failure-carrying datatypes shared by the rest of the model. */
module Wrappers {

  /** A value that may be absent: Python's `Optional[...]` and `None`. */
  datatype Option<+T> = None | Some(value: T)

  /** Either a value or the error an operation raised instead of returning. */
  datatype Result<+T, +E> = Success(value: T) | Failure(error: E)
}
