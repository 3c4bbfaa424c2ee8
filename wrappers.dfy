/** Optional values and results with an error, used by every other module. */
module Wrappers {

  /** A value that may be absent: a missing JSON field, a row a query did not find. */
  datatype Option<+T> = None | Some(value: T)

  /** The outcome of a step that either yields a value or stops with an error. */
  datatype Result<+T, +E> = Ok(value: T) | Err(error: E)
}
