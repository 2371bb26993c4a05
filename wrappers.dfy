/** Option and the abstract outcome of one call into the Kubernetes API (or
    any other callee whose behaviour the model does not see). */
module Wrappers {

  datatype Option<+T> = None | Some(value: T) {
    predicate IsFailure() { None? }

    function PropagateFailure<U>(): Option<U>
      requires None?
    {
      None
    }

    function Extract(): T
      requires Some?
    {
      value
    }

    function GetOr(default: T): T {
      if Some? then value else default
    }
  }

  /** The class of an exception that is not an ApiException, as far as the
      handlers tell them apart: the operator's InvalidSpecError,
      ResourceConflictError and ResourceNotFoundError, kopf's PermanentError
      and TemporaryError (with its delay), and everything else. */
  datatype ErrorKind = InvalidSpec | ResourceConflict | ResourceNotFound | Permanent | Temporary(delay: nat) | Other

  /** What one call returned: a value, an ApiException carrying an HTTP
      status (404 not found, 409 conflict, ...), or any other exception with
      its class and its str(). */
  datatype Call<+T> = Ok(value: T) | ApiError(status: int) | Raised(kind: ErrorKind, message: string) {
    predicate IsNotFound() { ApiError? && status == 404 }
    predicate IsConflict() { ApiError? && status == 409 }

    /** str() of the exception. The text of an ApiException (status,
        reason, body) is not modelled and reads as a fixed text. */
    function Message(): string
      requires !Ok?
    {
      if ApiError? then API_EXCEPTION_TEXT else message
    }
  }

  const API_EXCEPTION_TEXT := "ApiException"

  const NOT_FOUND := 404
  const CONFLICT := 409
}

/** What a kopf event handler hands back to the framework. */
module Kopf {

  /** A status condition; lastTransitionTime is a clock reading and is left
      out. */
  datatype Condition = Condition(kind: string, status: string, reason: string, message: string)

  /** The handler returned a status patch, or raised kopf.PermanentError (no
      retry) or kopf.TemporaryError (retry after `delay` seconds). */
  datatype Handled<+S> = Done(status: S) | PermanentError(message: string) | TemporaryError(message: string, delay: nat)
}
