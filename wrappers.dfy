/** Optional values and results with an error, used where the scripts read a
    possibly missing entry or reject a user input. */
module Wrappers {

  datatype Option<+T> = None | Some(value: T)

  datatype Result<+T, +E> = Success(value: T) | Failure(error: E)
}
