/** Optional values and results with an error, used for the JavaScript
    code's `null`/`undefined` values and its thrown errors. */
module Wrappers {

  datatype Option<+T> = None | Some(value: T)

  datatype Result<+R, +E> = Success(value: R) | Failure(error: E)

}
