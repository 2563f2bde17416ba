/** Option and Result, used for the error paths of the model (a JavaScript
    `throw` becomes a `Failure`, a missing value becomes `None`). */
module Wrappers {

  datatype Option<+T> = None | Some(value: T)

  datatype Result<+R, +E> = Success(value: R) | Failure(error: E)
}
