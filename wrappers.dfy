/** Results and the Java exceptions that the modelled code can throw. */
module Wrappers {

  /** The exception kinds raised by the modelled classes. */
  datatype Exception =
    | IOException(message: string)
    | IllegalArgument(message: string)
    | IndexOutOfBounds

  datatype Option<+T> = None | Some(value: T)

  /** Either a normal return value or the exception thrown instead. */
  datatype Result<+T> = Success(value: T) | Failure(error: Exception) {
    predicate IsFailure() { Failure? }

    function PropagateFailure<U>(): Result<U>
      requires Failure?
    {
      Failure(error)
    }

    function Extract(): T
      requires Success?
    {
      value
    }
  }
}
