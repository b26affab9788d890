/** Failure-carrying results used wherever the source reports an error
    (a thrown exception, a `Log::Fail`, an assertion on shapes). */
module Wrappers {

  datatype Option<+T> = None | Some(value: T)

  datatype Result<+T, +E> = Ok(value: T) | Err(error: E)
}
