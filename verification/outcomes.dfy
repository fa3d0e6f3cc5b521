/** Failure-compatible wrappers shared by the three parts of the model. */
module Outcomes {

  datatype Option<+T> = None | Some(value: T)

  /** A computation that either produced a value or raised the error the
      Python code would have raised at that point. */
  datatype Result<+T, +E> = Ok(value: T) | Err(error: E) {

    predicate IsFailure() {
      Err?
    }

    function PropagateFailure<U>(): Result<U, E>
      requires Err?
    {
      Err(error)
    }

    function Extract(): T
      requires Ok?
    {
      value
    }
  }
}
