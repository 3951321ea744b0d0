/** Optional values and results with an error case, shared by every module of the model. */
module Wrappers {

  /** A value that may be missing: Python's `None` is `None` here. */
  datatype Option<+T> = None | Some(value: T)

  /** The outcome of an operation that either returns a value or raises an exception. */
  datatype Result<+T, +E> = Ok(value: T) | Err(error: E)
}
