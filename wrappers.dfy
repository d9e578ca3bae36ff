/** Option and Result values shared by every module of the model. */
module Wrappers {

  /** A value that may be absent: Python's `Optional[T]`, with `None` for a missing value. */
  datatype Option<+T> = None | Some(value: T) {

    /** The value, or `default` when it is absent (Python's `x if x is not None else default`). */
    function GetOr(default: T): T {
      match this
      case Some(v) => v
      case None => default
    }
  }

  /** The outcome of an operation that either returns a value or raises an error. */
  datatype Result<+T, +E> = Ok(value: T) | Err(error: E) {

    predicate IsFailure() {
      Err?
    }

    function PropagateFailure<U>(): Result<U, E>
      requires Err?
    {
      Err(error)
    }

    function Extract(): T
      requires Ok?
    {
      value
    }
  }

  /** Python truthiness of an optional sequence or string: present and non-empty. */
  predicate Truthy<T>(o: Option<seq<T>>) {
    o.Some? && o.value != []
  }
}
