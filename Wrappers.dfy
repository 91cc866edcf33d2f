/** Optional values and results with an error, used for a regex match that may fail
    and for a service call that may raise. */
module Wrappers {

  datatype Option<T> = None | Some(value: T)

  datatype Result<T, E> = Success(value: T) | Failure(error: E)
}
