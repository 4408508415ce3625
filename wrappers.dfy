/** Optional values and fallible results, used for the optional fields of a
    product record and for the replies of the backend. */
module Wrappers {

  datatype Option<+T> = None | Some(value: T)

  datatype Result<+R, +E> = Success(value: R) | Failure(error: E)
}
