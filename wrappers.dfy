/** Optional values and results with an error, used for Go's nil pointers and error returns. */
module Wrappers {

  /** A Go pointer field: None is nil. */
  datatype Option<+T> = None | Some(value: T)

  /** A value or the error that replaced it. */
  datatype Result<+T, +E> = Ok(value: T) | Err(error: E)
}
