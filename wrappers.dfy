/** Optional values (Python's `None`) and results with an error status (an HTTP error raised
    by an endpoint). */
module Wrappers {

  datatype Option<+T> = None | Some(value: T)

  datatype Result<+R> = Success(value: R) | Failure(status: int)
}
