/** Optional values and results that carry an error, used in place of the
    exceptions the adapter raises or swallows. */
module Wrappers {

  datatype Option<T> = None | Some(value: T)

  datatype Result<T, E> = Ok(value: T) | Err(error: E)
}
