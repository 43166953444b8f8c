/** Optional values and results with an error, as the service's callers see them:
    a missing user or document is `None`, a rejected query is `Failure`. */
module Wrappers {

  datatype Option<+T> = None | Some(value: T)

  datatype Result<+T, +E> = Success(value: T) | Failure(error: E)
}
