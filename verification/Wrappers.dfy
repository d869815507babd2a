/** The two failure-carrying datatypes the other modules share. */
module Wrappers {
  /** std::optional, and a lookup that may find nothing. */
  datatype Option<+T> = None | Some(value: T)

  /** A computation that either returns a value or throws. */
  datatype Result<+T, +E> = Success(value: T) | Failure(error: E)
}
