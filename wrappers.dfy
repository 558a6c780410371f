/** Optional values and results with an error side. */
module Wrappers {

  /** A value that may be absent; `None` ends a token stream. */
  datatype Option<+T> = None | Some(value: T)

  /** Either a value or an error. */
  datatype Result<+T, +E> = Ok(value: T) | Err(error: E)
}
