/** Optional values and results with an error channel, shared by every module. */
module Wrappers {

  /** A value that may be absent (JavaScript `undefined`/`null`, Python `None`). */
  datatype Option<+T> = None | Some(value: T)

  /** Either a value or the error that the source raises or throws instead. */
  datatype Result<+T, +E> = Ok(value: T) | Err(error: E)
}
