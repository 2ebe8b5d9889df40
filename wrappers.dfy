/** Optional values and results with an error code, used where the source
    returns `None`, omits a key, or raises an HTTP error. */
module Wrappers {

  datatype Option<+T> = None | Some(value: T)

  datatype Result<+T> = Ok(value: T) | Err(code: int)
}
