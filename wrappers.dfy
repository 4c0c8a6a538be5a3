/** Optional values and the success/failure shapes that replace Python's
    `None` and raised exceptions in this model. */
module Wrappers {

  datatype Option<+T> = None | Some(value: T)

  /** The result of a step that either passes or raises `error`. */
  datatype Outcome<+E> = Pass | Fail(error: E)

  /** The result of a step that either returns `value` or raises `error`. */
  datatype Result<+T, +E> = Ok(value: T) | Err(error: E)
}
