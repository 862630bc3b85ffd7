/** Failure-compatible wrappers shared by every stage of the pipeline. */
module Common {

  datatype Option<+T> = None | Some(value: T)

  /** A value, or the error that stopped the stage that computed it. */
  datatype Result<+T, +E> = Ok(value: T) | Err(error: E) {

    predicate IsFailure() {
      Err?
    }

    function PropagateFailure<U>(): Result<U, E>
      requires Err?
    {
      Err(error)
    }

    function Extract(): T
      requires Ok?
    {
      value
    }
  }
}
