/** Optional values and results that carry an error: the shapes the server's
    Python code expresses with `None` and with raised exceptions. */
module Wrappers {

  datatype Option<+T> = None | Some(value: T)

  datatype Result<+R, +E> = Success(value: R) | Failure(error: E)
}
