/** Option and Result: absent values and operations that either succeed or raise one of the
    structured exceptions. */
module Wrappers {

  datatype Option<+T> = None | Some(value: T)

  datatype Result<+T, +E> = Success(value: T) | Failure(error: E)
}
