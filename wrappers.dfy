/** Optional values and results shared by every module of the model. */
module Wrappers {

  datatype Option<+T> = None | Some(value: T) {

    predicate IsFailure() { None? }

    function PropagateFailure<U>(): Option<U>
      requires None?
    {
      None
    }

    function Extract(): T
      requires Some?
    {
      value
    }
  }

  /** The outcome of an operation that can fail with an error of type E,
      as Go's `(value, error)` pairs are used throughout the backend. */
  datatype Result<+T, +E> = Ok(value: T) | Err(error: E)
}
