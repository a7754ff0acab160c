/** Optional values and results with an error side, used for Python's `None` and for
    exceptions that the model turns into values. */
module Wrappers {

  datatype Option<+T> = None | Some(value: T)

  datatype Result<+T, +E> = Success(value: T) | Failure(error: E)
}
