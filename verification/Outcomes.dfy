/** Values that stand for the optional results and raised exceptions of the modelled code. */
module Outcomes {
  datatype Option<+T> = None | Some(value: T)

  /** `Err` stands for a raised exception; the error value names which one. */
  datatype Result<+T, +E> = Ok(value: T) | Err(error: E) {
    predicate IsFailure() {
      Err?
    }

    function PropagateFailure<U>(): Result<U, E>
      requires Err?
    {
      Err(error)
    }

    function Extract(): T
      requires Ok?
    {
      value
    }
  }
}
