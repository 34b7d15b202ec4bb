// Option and Result, the usual wrappers for values that may be missing and for
// operations that throw in the C# source.
module Wrappers {
  datatype Option<+T> = None | Some(value: T)

  datatype Result<+T> = Success(value: T) | Failure(error: Error)
  {
    predicate IsFailure() { Failure? }
  }

  /** The exception classes the modelled code throws. */
  datatype Error =
    | ArgumentNull
    | Argument
    | ArgumentOutOfRange
    | InvalidOperation
    | IndexOutOfRange
}
