/** Optional values and outcomes with an error, shared by every module. */
module Wrappers {
  datatype Option<T> = None | Some(value: T)

  /** The outcome of an operation that may raise: `Err` carries the error message. */
  datatype Result<T, E> = Ok(value: T) | Err(error: E)
}
