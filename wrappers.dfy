/** Optional values and results with an error, used for the source's
    `(value, error)` returns and its `ok`/`found` flags. */
module Wrappers {

  datatype Option<+T> = None | Some(value: T)

  datatype Result<+R, +E> = Success(value: R) | Failure(error: E)
}
