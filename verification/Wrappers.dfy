/** Plain option, result and pass/fail types shared by the whole model.
    - Option<T>: a value that may be absent (Python's `None`).
    - Result<T, E>: the outcome of a call that may raise; `Failure` carries
      what the exception said.
    - Outcome<E>: a check that either passes or fails with an error. */
module Wrappers {

  datatype Option<+T> = None | Some(value: T)

  datatype Result<+T, +E> = Success(value: T) | Failure(error: E)

  datatype Outcome<+E> = Pass | Fail(error: E)
}
