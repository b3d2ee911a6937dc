/** Failure-carrying values. The host framework reports failures by raising
    exceptions; the model returns them instead. */
module Outcomes {

  /** An optional value. */
  datatype Option<+T> = None | Some(value: T)

  /** Either a value or the failure that was raised instead of producing it.
      Usable with `:-`. */
  datatype Result<+T, +E> = Ok(value: T) | Err(error: E) {

    predicate IsFailure() {
      Err?
    }

    function PropagateFailure<U>(): Result<U, E>
      requires Err?
    {
      Err(error)
    }

    function Extract(): T
      requires Ok?
    {
      value
    }
  }

  /** The outcome of a check that produces no value: it passes or raises. */
  datatype Outcome<+E> = Pass | Fail(error: E)
}
