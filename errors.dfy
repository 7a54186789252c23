/**
 * The error values the network package returns (the gerr package).
 * Only the kinds the proxy and its helpers raise or inspect are modelled.
 */
module Errors {

  import opened Wrappers

  /** An underlying Go error: io.EOF, or any other failure described by its message. */
  datatype Cause = Eof | IoError(message: string) {
    /** The text Error() gives for this cause. */
    function Message(): (m: string) {
      match this
      case Eof => "EOF"
      case IoError(m) => m
    }
  }

  datatype GatewayDError =
    | PoolExhausted
    | ClientNotFound
    | ClientNotConnected
    | CastFailed
      /** what the pool's Put reports when a bounded pool is full */
    | PoolCapacityExceeded
    | NetworkNotSupported
    | ResolveFailed(cause: Cause)
    | ServerSendFailed(wrapped: Option<GatewayDError>)
      /** an error raised by a collaborator (backend client, hook pipeline), with what it wraps */
    | Collaborator(message: string, wraps: Option<Cause>)
  {
    /** errors.Is(e.Unwrap(), io.EOF): the wrapped error chain reaches io.EOF. */
    predicate UnwrapsToEof() {
      match this
      case ResolveFailed(c) => c == Eof
      case Collaborator(_, c) => c == Some(Eof)
      case ServerSendFailed(Some(e)) => e.UnwrapsToEof()
      case _ => false
    }
  }
}
