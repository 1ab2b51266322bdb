/** Optional values and results with an error, used wherever the controller
    either produces a value or reports why it could not. */
module Wrappers {

  datatype Option<+T> = None | Some(value: T)

  datatype Result<+T, +E> = Ok(value: T) | Err(error: E)
}
