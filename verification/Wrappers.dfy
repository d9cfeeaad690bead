/** The datatypes used throughout the project: two that may fail, and what a poll returns. */
module Wrappers {

  datatype Option<+T> = None | Some(value: T)

  datatype Poll<+T> = Ready(value: T) | Pending

  datatype Result<+T, +E> = Ok(value: T) | Err(error: E) {
    predicate IsFailure() {
      Err?
    }

    function PropagateFailure<U>(): Result<U, E>
      requires Err?
    {
      Err(error)
    }

    function Extract(): T
      requires Ok?
    {
      value
    }
  }
}
