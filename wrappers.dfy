/** Option and Result: "nothing" where a lookup may miss, and a value or the
    text of the exception the source would raise. */
module Wrappers {

  datatype Option<+T> = None | Some(value: T)

  datatype Result<+R, +E> = Success(value: R) | Failure(error: E)
}
