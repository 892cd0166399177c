/** Nullable values, the .NET exceptions the modelled code throws, and results that carry one of them. */
module Wrappers {

  /** A value that may be null. */
  datatype Option<+T> = None | Some(value: T) {
    function GetOr(default: T): T
    {
      match this
      case Some(v) => v
      case None => default
    }

    /** The value when there is one, and otherwise the other option. */
    function Or(other: Option<T>): Option<T>
    {
      if Some? then this else other
    }
  }

  /** The exception types thrown by the modelled code. */
  datatype Exception =
    | ArgumentNullException
    | ArgumentException
    | NotSupportedException
    | NotImplementedException
    | InvalidOperationException
    | NullReferenceException
    | KeyNotFoundException
    | OverflowException
    | IOException
    | JsonException

  /** Either the value an operation returns or the exception it throws. */
  datatype Result<+T> = Success(value: T) | Failure(error: Exception)
}
