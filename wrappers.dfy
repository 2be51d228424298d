/** Option and Result, the two failure-carrying datatypes the rest of the model uses:
    `None` stands for Python's `None`, `Err` for a raised exception. */
module Wrappers {

  datatype Option<+T> = None | Some(value: T) {
    /** The value, or `default` when there is none. */
    function GetOr(default: T): T {
      match this
      case Some(v) => v
      case None => default
    }
  }

  /** Used with `:-`, a `Result` stops an evaluation at the first `Err`, the way a raised
      exception leaves the rest of a Python block unevaluated. */
  datatype Result<+T, +E> = Ok(value: T) | Err(error: E) {
    predicate IsFailure() {
      Err?
    }

    function PropagateFailure<U>(): Result<U, E>
      requires Err?
    {
      Err(error)
    }

    function Extract(): T
      requires Ok?
    {
      value
    }
  }
}
