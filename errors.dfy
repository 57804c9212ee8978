/** The error conditions raised by the modelled code.

    `OneBaseException(code, **args)` becomes one constructor per code with its
    arguments as fields; Python's own exceptions that the code can raise are
    separate constructors. The human-readable text loaded from the errors CSV
    is not modelled. */
module Errors {
  import opened Wrappers
  import Auth

  datatype Error =
    // OneBaseException('E-100', expected=…, given=…): a value longer than allowed
    | SizeExceeded(expected: int, given: int)
    // OneBaseException('E-101', message="Invalid format")
    | InvalidFormat
    // OneBaseException('E-101', document=self): saving a read-only document
    | ReadOnlyDocument
    // OneBaseException('E-102', keys=[…]): a required body key missing or falsy
    | MissingKeys(keys: seq<string>)
    // OneBaseException('E-200', user=user): the user lacks a permission
    | PermissionDenied(user: Auth.User)
    // OneBaseException(response.json()): the remote validator's body used as the code
    | RemoteRejected(body: string)
    // mongoengine ValidationError naming the offending fields
    | ValidationError(fields: set<string>)
    // Python built-in exceptions
    | NotImplementedError(what: string)
    | TypeError(message: string)
    | ValueError(message: string)
    | IndexError(message: string)
    | AttributeError(name: string)
    | UnboundLocalError(name: string)
    | OverflowError(message: string)
  {
    /** The code a OneBaseException carries; None for Python's own exceptions. */
    function Code(): (c: Option<string>)
      ensures c.Some? <==> (SizeExceeded? || InvalidFormat? || ReadOnlyDocument? || MissingKeys?
                            || PermissionDenied? || RemoteRejected?)
    {
      match this
      case SizeExceeded(_, _) => Some("E-100")
      case InvalidFormat => Some("E-101")
      case ReadOnlyDocument => Some("E-101")
      case MissingKeys(_) => Some("E-102")
      case PermissionDenied(_) => Some("E-200")
      case RemoteRejected(body) => Some(body)
      case _ => None
    }
  }
}
