/** Optional values and results with an error case, used for the source's
    `None` returns and for the exceptions it raises or catches. */
module Wrappers {

  datatype Option<+T> = None | Some(value: T)

  datatype Result<+T, +E> = Ok(value: T) | Err(error: E)
}
