/** Optional values and success/failure outcomes, used wherever the program
    deals with `null`, a missing key, or a caught exception. */
module Wrappers {

  datatype Option<+T> = None | Some(value: T)

  datatype Result<+R, +E> = Success(value: R) | Failure(error: E)
}
