/** Option and Result values shared by every module of the model. */
module Wrappers {
  /** A value that may be absent: the model's stand-in for a Java `null`. */
  datatype Option<T> = None | Some(value: T)

  /** The outcome of an operation that can throw: a value or the error thrown. */
  datatype Result<T, E> = Ok(value: T) | Err(error: E)
}
