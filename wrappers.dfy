/** Option stands for a .NET reference that may be null; Result for a call
    that either returns a value or throws one of the exceptions the SDK
    raises or lets escape. */
module Wrappers {

  datatype Option<+T> = None | Some(value: T)

  /** The exception kinds that the modelled code throws or lets through. */
  datatype Error =
    | ArgumentNull(param: string, message: string := "")
    | ArgumentOutOfRange(param: string)
    | Argument(message: string)
    | NullReference
    | NotImplemented
    | Format(message: string)
    | Overflow
    | Serialization(message: string)
    | Transport(message: string)
    | Unmodelled(message: string)

  datatype Result<+T> = Success(value: T) | Failure(error: Error) {
    predicate IsFailure() { Failure? }
    function PropagateFailure<U>(): Result<U>
      requires Failure?
    {
      Failure(error)
    }
    function Extract(): T
      requires Success?
    {
      value
    }
  }
}
