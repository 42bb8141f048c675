/** Optional values and success/failure results, standing in for the
    `null`/`undefined` values and thrown exceptions of the TypeScript code. */
module Wrappers {

  datatype Option<+T> = None | Some(value: T)

  datatype Result<+R, +E> = Success(value: R) | Failure(error: E)
}
