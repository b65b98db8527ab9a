/** Option and Result, the two failure-carrying shapes used across the model. */
module Wrappers {

  /** A value that may be missing: Python's `Optional[T]`. */
  datatype Option<+T> = None | Some(value: T)

  /** An operation that either produces a value or raises with a message. */
  datatype Result<+T> = Ok(value: T) | Raised(message: string)
}
