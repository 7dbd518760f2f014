/** Optional values, and values or errors. */
module Outcomes {

  datatype Option<+T> = None | Some(value: T)

  datatype Fallible<+T, +E> = Ok(value: T) | Err(error: E) {
    predicate IsFailure() { Err? }

    function PropagateFailure<U>(): Fallible<U, E>
      requires Err?
    {
      Err(error)
    }

    function Extract(): T
      requires Ok?
    {
      value
    }
  }
}
