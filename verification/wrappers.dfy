/** Optional values and error returns shared by the model's modules. */
module Wrappers {

  /** A value that may be absent (Python's `None`). */
  datatype Option<T> = None | Some(value: T)

  /** The outcome of an operation that the source can abort with an exception. */
  datatype Result<T, E> = Ok(value: T) | Err(error: E)
}
