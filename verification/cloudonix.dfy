/** The Cloudonix serializer. Its audio path is inherited from the Twilio
    serializer, which is not part of this model; what it adds is the mapping of
    its constructor arguments onto the parent's, and a bearer-token hang-up
    against the Cloudonix session API. */
module Cloudonix {
  import opened Wrappers
  import opened CallControl
  import Json

  /** Twilio's `InputParams`, passed through untouched. */
  datatype TwilioParams = TwilioParams(fields: Json.Dict)

  datatype Config = Config(
    callId: string,
    streamSid: string,
    domainId: Option<string>,
    bearerToken: Option<string>,
    region: Option<string>,
    edge: Option<string>,
    params: Option<TwilioParams>)

  /** The keyword arguments handed to `TwilioFrameSerializer.__init__`. */
  datatype TwilioArgs = TwilioArgs(
    streamSid: string,
    callSid: string,
    accountSid: Option<string>,
    authToken: Option<string>,
    region: Option<string>,
    edge: Option<string>,
    params: Option<TwilioParams>)

  const ApiBase := "https://api.cloudonix.io"

  /** Python truthiness of an optional string: present and non-empty. */
  predicate Given(o: Option<string>) {
    o.Some? && |o.value| > 0
  }

  function ParentArgs(c: Config): (a: TwilioArgs)
    ensures a.callSid == c.callId
    ensures a.accountSid == c.domainId
    ensures a.authToken == c.bearerToken
    ensures a.streamSid == c.streamSid && a.region == c.region && a.edge == c.edge && a.params == c.params
  {
    TwilioArgs(c.streamSid, c.callId, c.domainId, c.bearerToken, c.region, c.edge, c.params)
  }

  function SessionUrl(domainId: string, callId: string): string {
    ApiBase + "/customers/self/domains/" + domainId + "/sessions/" + callId
  }

  /** The DELETE request `_hang_up_call` sends, or none when it returns early. */
  function HangUpRequest(c: Config): (r: Option<HttpRequest>)
    ensures |c.callId| == 0 ==> r.None?
    ensures !Given(c.domainId) || !Given(c.bearerToken) ==> r.None?
    ensures r.Some? <==> |c.callId| > 0 && Given(c.domainId) && Given(c.bearerToken)
    ensures r.Some? ==> r.value.verb == Delete
    ensures r.Some? ==> r.value.url == SessionUrl(c.domainId.value, c.callId)
    ensures r.Some? ==> r.value.auth.Headers? && "Authorization" in r.value.auth.headers && r.value.auth.headers["Authorization"] == "Bearer " + c.bearerToken.value
    ensures r.Some? ==> r.value.auth.Headers? && "Content-Type" in r.value.auth.headers && r.value.auth.headers["Content-Type"] == "application/json"
  {
    if |c.callId| == 0 then None
    else if !Given(c.domainId) || !Given(c.bearerToken) then None
    else
      Some(HttpRequest(Delete, SessionUrl(c.domainId.value, c.callId),
        Headers(map["Authorization" := "Bearer " + c.bearerToken.value,
                    "Content-Type" := "application/json"])))
  }

  /** 200, 204 and 404 are all logged as success; anything else is a warning. */
  function Classify(status: int): (r: Outcome)
    ensures r == Terminated <==> status in {200, 204, 404}
    ensures r.IsError() <==> status !in {200, 204, 404}
    ensures r.IsError() ==> r == Rejected(status)
    ensures r != AlreadyTerminated
  {
    if status == 200 || status == 204 || status == 404 then Terminated else Rejected(status)
  }

  function HangUp(c: Config, reply: Reply): (r: Outcome)
    ensures HangUpRequest(c).None? <==> r == NotSent
    ensures HangUpRequest(c).Some? && reply.Raised? ==> r == Failed
    ensures HangUpRequest(c).Some? && reply.Status? ==> r == Classify(reply.code)
  {
    Settle(HangUpRequest(c), reply, Classify)
  }

  /** The request addresses exactly the call the parent serializer was given:
      its `call_sid` and `account_sid` appear in the URL and its `auth_token`
      in the bearer header. */
  lemma HangUpTargetsParentCall(c: Config)
    requires HangUpRequest(c).Some?
    ensures var a := ParentArgs(c);
      var req := HangUpRequest(c).value;
      && a.accountSid.Some? && a.authToken.Some?
      && req.url == SessionUrl(a.accountSid.value, a.callSid)
      && req.auth.Headers?
      && "Authorization" in req.auth.headers
      && req.auth.headers["Authorization"] == "Bearer " + a.authToken.value
  {
  }

  /** A 404 is treated like a 204: the session is gone and teardown goes on. */
  lemma NotFoundIsLikeNoContent()
    ensures Classify(404) == Classify(204) == Terminated
  {
  }
}

/** Facts comparing the two telephony vendors' hang-up handling. */
module HangUpPolicies {
  import Asterisk
  import Cloudonix

  /** Both vendors log exactly the same statuses as failures. They differ only
      in that Asterisk reports 404 as "already terminated". */
  lemma VendorsAgreeOnErrors(status: int)
    ensures Asterisk.Classify(status).IsError() == Cloudonix.Classify(status).IsError()
    ensures status == 404 ==> Asterisk.Classify(status).AlreadyTerminated? && Cloudonix.Classify(status).Terminated?
  {
  }
}
