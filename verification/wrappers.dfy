/** Small failure-carrying datatypes shared by the other modules. */
module Wrappers {

  /** A value that may be absent: a missing key, or a JSON null. */
  datatype Option<+T> = None | Some(value: T)

  /** The outcome of an operation that raises an error in the source. */
  datatype Result<+T, +E> = Success(value: T) | Failure(error: E)
}
