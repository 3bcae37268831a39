/** Optional values and success/failure results, used wherever the system
    either produces a value or reports an error. */
module Wrappers {

  datatype Option<+T> = None | Some(value: T)

  datatype Result<+R, +E> = Success(value: R) | Failure(error: E)
}
