/** Optional values and error-carrying results shared by the whole model. */
module Wrappers {

  /** A value that may be absent: `undefined` on the TypeScript side. */
  datatype Option<+T> = None | Some(value: T)

  /** The outcome of an operation that can raise: the value or the error raised. */
  datatype Result<+T, +E> = Success(value: T) | Failure(error: E)
}
