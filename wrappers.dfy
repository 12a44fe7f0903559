/** Optional values and results that carry an error, used wherever the source
    tests for a missing attribute or key, or raises. */
module Wrappers {

  datatype Option<+T> = None | Some(value: T)

  datatype Result<+T, +E> = Success(value: T) | Failure(error: E)
}
