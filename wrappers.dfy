/** Option and Result values: the converter's thrown exceptions become `Err`. */
module Wrappers {
  datatype Option<T> = None | Some(value: T)

  /** A computation that either yields a value or stops with the message the converter throws. */
  datatype Result<T> = Ok(value: T) | Err(message: string)
  {
    predicate IsFailure() { Err? }

    function PropagateFailure<U>(): Result<U>
      requires Err?
    {
      Err(message)
    }

    function Extract(): T
      requires Ok?
    {
      value
    }
  }
}
