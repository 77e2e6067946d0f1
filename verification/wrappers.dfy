/** Optional values and results used throughout the model: `Option` for
    JavaScript's `undefined`/`null`-or-value, `Result` for a value or a thrown error. */
module Wrappers {

  datatype Option<+T> = None | Some(value: T)

  datatype Result<+R, +E> = Ok(value: R) | Err(error: E)
}
