/** Optional values, the .NET exception kinds the modelled code raises, and results that carry one of them. */
module Wrappers {

  datatype Option<+T> = None | Some(value: T)

  /** The exceptions the modelled C# code can throw, named after their .NET types. */
  datatype Exception =
    | IndexOutOfRange
    | ArgumentOutOfRange
    | ArgumentNull
    | Argument
    | InvalidOperation
    | Overflow
    | Format
    | EndOfStream
    | DivideByZero
    | NullReference
    | NotImplemented
    | IO
    | AssertFailed

  datatype Result<+T> = Ok(value: T) | Err(error: Exception)
  {
    predicate IsFailure() { Err? }

    function PropagateFailure<U>(): Result<U>
      requires Err?
    {
      Err(error)
    }

    function Extract(): T
      requires Ok?
    {
      value
    }
  }

  /** The outcome of an operation that returns nothing but may throw. */
  datatype Outcome = Pass | Fail(error: Exception)
}
