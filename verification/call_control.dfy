/** The out-of-band hang-up request both telephony serializers issue, and the
    outcome the serializer logs for it. Nothing here is sent: the network reply
    is an input. */
module CallControl {
  import opened Wrappers

  datatype Method = Delete

  datatype Auth =
    /** HTTP basic authentication with a login and a password. */
    | BasicAuth(login: string, password: string)
    /** Explicit request headers (bearer-token schemes). */
    | Headers(headers: map<string, string>)

  datatype HttpRequest = HttpRequest(verb: Method, url: string, auth: Auth)

  /** What the HTTP client produced: a status code, or an exception (timeout,
      refused connection, DNS failure, ...). */
  datatype Reply = Status(code: int) | Raised

  /** The branch of the hang-up routine that ran; each only logs. */
  datatype Outcome =
    | NotSent
    | Terminated
    | AlreadyTerminated
    | Rejected(status: int)
    | Failed
  {
    /** Outcomes logged at error or warning level. */
    predicate IsError() {
      Rejected? || Failed?
    }
  }

  /** The shape both hang-up routines share: without a request nothing is
      sent; an exception from the client is swallowed and logged as a
      failure; otherwise the vendor's classification of the status decides. */
  function Settle(request: Option<HttpRequest>, reply: Reply, classify: int -> Outcome): (r: Outcome)
    ensures request.None? ==> r == NotSent
    ensures request.Some? && reply.Raised? ==> r == Failed
    ensures request.Some? && reply.Status? ==> r == classify(reply.code)
  {
    match request
    case None => NotSent
    case Some(_) =>
      match reply
      case Raised => Failed
      case Status(code) => classify(code)
  }
}
