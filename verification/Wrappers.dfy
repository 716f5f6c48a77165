/** The two result shapes the models share: a value that may be absent, and a value or the
    reason the source raised. */
module Wrappers {

  datatype Option<+T> = None | Some(value: T)

  datatype Result<+T, +E> = Success(value: T) | Failure(error: E)
}
