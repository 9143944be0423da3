/** Option and Result, used for the launcher's "may be missing" values and
    for the error returns of the launch button. */
module Wrappers {

  datatype Option<+T> = None | Some(value: T)

  datatype Result<+R, +E> = Success(value: R) | Failure(error: E)
}
