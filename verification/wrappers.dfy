/** Failure-carrying result types shared by every module of the model.
    - Option<T>: a value that may be absent (Go's `(T, bool)` or a nil pointer);
    - Result<T, E>: a value or an error (Go's `(T, error)`);
    - Outcome<E>: success or an error with no value (Go's bare `error`). */
module Wrappers {

  datatype Option<+T> = None | Some(value: T)

  datatype Result<+T, +E> = Ok(value: T) | Err(error: E)

  datatype Outcome<+E> = Pass | Fail(error: E)
}
