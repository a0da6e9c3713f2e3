/** Small failure-carrying datatypes shared by the other modules. */
module Wrappers {

  /** A value that may be absent; `None` plays the role of Python's `None`. */
  datatype Option<+T> = None | Some(value: T)

  /** The outcome of an operation that can raise: the value it returns, or the error it raises. */
  datatype Result<+T, +E> = Success(value: T) | Failure(error: E)
}
