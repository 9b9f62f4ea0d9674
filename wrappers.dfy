/** Optional values and results with an error, used wherever the source has `null`/`undefined` or a failing promise. */
module Wrappers {
  datatype Option<+T> = None | Some(value: T)

  datatype Result<+R, +E> = Success(value: R) | Failure(error: E)
}
