/** Optional values and results with an error, for `undefined` and for the
    exceptions the migration script throws. */
module Wrappers {

  datatype Option<+T> = None | Some(value: T)

  datatype Result<+T, +E> = Ok(value: T) | Err(error: E)
}
