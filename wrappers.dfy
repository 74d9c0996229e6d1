// Option and outcome types shared by the whole model, and the .NET exceptions
// the modelled code throws or catches, reduced to their kind and message.
module Wrappers {

  datatype Option<T> = None | Some(value: T)

  /** The result of an operation that either returns a value or throws. */
  datatype Result<T> = Success(value: T) | Failure(error: Error)

  /** The result of an operation that returns nothing or throws. */
  datatype Outcome = Pass | Fail(error: Error)

  /** The exceptions thrown by the modelled code (message text as the code builds it). */
  datatype Error =
    | ArgumentNull(paramName: string)
    | Argument(message: string, paramName: string)  // paramName "" when none was given
    | InvalidOperation(message: string)
    | KeyNotFound(message: string)
    | FileNotFound(message: string)
    | DirectoryNotFound(message: string)
    | IOFailure(message: string)
    | ArgumentOutOfRange(message: string, paramName: string)
    | NullReference
    | NotImplemented
    | Other(message: string)

  /** `Exception.Message` of each kind, in the format .NET produces. */
  function Message(e: Error): string
  {
    match e
    case ArgumentNull(p) => "Value cannot be null. (Parameter '" + p + "')"
    case Argument(m, p) => if p == "" then m else m + " (Parameter '" + p + "')"
    case InvalidOperation(m) => m
    case KeyNotFound(m) => m
    case FileNotFound(m) => m
    case DirectoryNotFound(m) => m
    case IOFailure(m) => m
    case ArgumentOutOfRange(m, p) => m + " (Parameter '" + p + "')"
    case NullReference => "Object reference not set to an instance of an object."
    case NotImplemented => "The method or operation is not implemented."
    case Other(m) => m
  }
}
