/** Optional values and failure-carrying results, used wherever the source
    has a value that may be `undefined`/`None` or an operation that may raise. */
module Wrappers {

  datatype Option<+T> = None | Some(value: T)

  datatype Result<+R, +E> = Success(value: R) | Failure(error: E)
}
