/** Optional values and results with an error, shared by every module of the model. */
module Wrappers {

  /** A value that may be absent; `None` also stands for a pandas NaN cell. */
  datatype Option<+T> = None | Some(value: T)

  /** The outcome of an operation that can raise: the value, or the exception it raises. */
  datatype Result<+T, +E> = Ok(value: T) | Err(error: E)
}
