/** Optional values and success/failure results, used for absent request fields and for
    the error paths of every handler. */
module Wrappers {

  datatype Option<+T> = None | Some(value: T)

  datatype Result<+T, +E> = Success(value: T) | Failure(error: E)
}
