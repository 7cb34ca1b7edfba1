/** Optional values and results, the Dafny counterparts of Swift's `Optional`
    and `Result<Success, Failure>`. */
module Wrappers {

  datatype Option<+T> = None | Some(value: T)

  datatype Result<+T, +E> = Success(value: T) | Failure(error: E)
}
