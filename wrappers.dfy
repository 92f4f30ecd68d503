// Option and Result: the absent values (`null`, `undefined`) and the thrown
// errors of the TypeScript sources, as values.
module Wrappers {
  datatype Option<T> = None | Some(value: T)

  datatype Result<T> = Ok(value: T) | Err(error: string)
  {
    predicate IsFailure() { Err? }

    function PropagateFailure<U>(): Result<U>
      requires Err?
    {
      Err(error)
    }

    function Extract(): T
      requires Ok?
    {
      value
    }
  }

  /** The result of an operation that returns nothing but may throw. */
  datatype Outcome = Pass | Fail(error: string)
}
