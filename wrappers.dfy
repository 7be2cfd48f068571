/** Option and Result, the two failure-carrying datatypes the model uses. */
module Wrappers {

  /** A value that may be absent: a missing query parameter, a string that does not parse. */
  datatype Option<+T> = None | Some(value: T)

  /** The outcome of a handler: its value, or the exception it lets propagate. */
  datatype Result<+R, +E> = Success(value: R) | Failure(error: E)
}
