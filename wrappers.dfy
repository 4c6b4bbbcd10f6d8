/** Option and Result values used for the nullable fields and the exceptions of the parser. */
module Wrappers {

  datatype Option<+T> = None | Some(value: T)

  /** A value or the reason an operation of the parser threw instead of producing one. */
  datatype Result<+T, +E> = Ok(value: T) | Err(error: E) {
    predicate IsFailure() { Err? }

    function PropagateFailure<U>(): Result<U, E>
      requires Err?
    {
      Err(error)
    }

    function Extract(): T
      requires Ok?
    {
      value
    }
  }
}
