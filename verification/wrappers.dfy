/** Failure-carrying values shared by the rest of the model. */
module Wrappers {

  /** A value that may be absent: a parse that did not succeed, a request that was never sent. */
  datatype Option<+T> = None | Some(value: T)

  /** The outcome of an operation that returns either a value or an error, as Go's `(T, error)` pairs do. */
  datatype Result<+T, +E> = Success(value: T) | Failure(error: E)
}
