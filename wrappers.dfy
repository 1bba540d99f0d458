/** The two wrappers the model uses: Option for a field that may be nil, Result for a call that may fail. */
module Wrappers {

  datatype Option<+T> = None | Some(value: T)

  datatype Result<+T, +E> = Ok(value: T) | Err(error: E) {

    predicate IsFailure() {
      Err?
    }

    function PropagateFailure<U>(): Result<U, E>
      requires Err?
    {
      Err(error)
    }

    function Extract(): T
      requires Ok?
    {
      value
    }
  }

  /** The outcome of a check: Go's `error` result, where Pass stands for nil. */
  datatype Outcome<+E> = Pass | Fail(error: E)
}
