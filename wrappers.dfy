/** Wrappers shared by every module of the model. */
module Wrappers {

  /** A value that may be absent (Python's `None`). */
  datatype Option<+T> = None | Some(value: T)

  /** The outcome of an operation that raises instead of returning in Python. */
  datatype Result<+T, +E> = Success(value: T) | Failure(error: E)

  function Min(a: nat, b: nat): nat
  {
    if a <= b then a else b
  }
}
