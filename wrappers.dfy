/** Optional values and results, used for the attributes the window sets
    lazily and for the exceptions its slots can raise. */
module Wrappers {

  datatype Option<+T> = None | Some(value: T)

  datatype Result<+T, +E> = Success(value: T) | Failure(error: E)
}
