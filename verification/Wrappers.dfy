/** Optional values and results, shared by every module of the model. */
module Wrappers {
  datatype Option<+T> = None | Some(value: T)

  /** Go's pair of a value and an error, of which exactly one is meaningful. */
  datatype Result<+T, +E> = Ok(value: T) | Err(error: E)
}
