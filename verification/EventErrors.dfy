/** What the event stream's server and transport can answer, and which answers are worth a
    reconnect (events/client.go). */
module EventErrors {
  import opened Options

  // gRPC status codes, as numbered by google.golang.org/grpc/codes.
  const UNKNOWN := 2
  const INTERNAL := 13
  const UNAVAILABLE := 14

  /** Errors as `errors.Is` and `status.Code` can tell them apart: a clean end of stream, a
      gRPC status, the two rejections, the two context errors, and any other local error. */
  datatype StreamError =
    | EndOfStream | Status(code: nat) | AuthFailed | ConnectionLimit | Canceled | DeadlineExceeded | Local

  datatype EventType = SubscribeSuccess | Ping | AuthError | NumOfConnExceed | SubscribeExpired | Business(kind: nat)

  datatype Response = Response(eventType: EventType, payload: string)

  /** An error that carries no status counts as Unknown. */
  function StatusCode(e: StreamError): nat {
    if e.Status? then e.code else UNKNOWN
  }

  predicate Retryable(e: StreamError) {
    if e.EndOfStream? then true
    else if StatusCode(e) == UNAVAILABLE || StatusCode(e) == INTERNAL then true
    else StatusCode(e) == UNKNOWN && e.Status?
  }

  predicate IsTerminal(e: StreamError) {
    e.AuthFailed? || e.ConnectionLimit? || e.Canceled? || e.DeadlineExceeded? || !Retryable(e)
  }

  function ControlError(resp: Response): Option<StreamError> {
    match resp.eventType
    case AuthError => Some(AuthFailed)
    case NumOfConnExceed => Some(ConnectionLimit)
    case _ => None
  }

  /** The four explicit cases of `isTerminal` add nothing to its last one: retried are a
      clean end of stream and three statuses, and every other connect error ends the stream. */
  lemma TerminalExactly(e: StreamError)
    ensures IsTerminal(e) <==> !Retryable(e)
    ensures Retryable(e) <==> e == EndOfStream || e in {Status(UNKNOWN), Status(INTERNAL), Status(UNAVAILABLE)}
  {
  }
}
