/** Option and Result, the two failure-carrying datatypes the model uses. */
module Wrappers {

  /** A value that may be absent: SQL NULL is `None`. */
  datatype Option<+T> = None | Some(value: T)

  /** The outcome of a call into the store: a value, or the store's error message. */
  datatype Result<+T, +E> = Success(value: T) | Failure(error: E)
}
