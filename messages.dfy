/**
 * The messages exchanged over the event bus with the context management
 * service and the access-control service, and what a handler sends back.
 */
module Messages {
  import opened Wrappers
  import opened JavaLang
  import opened Rdf

  /** The operations of the context management service (the Java record names are kept). */
  datatype ContextMessage =
    | ValidateContextBasecAccess(accessRequesterURI: string, accessedResourceURI: string)
    | GetStaticContext
    | GetProfiledContext(contextAssertionType: string)
    | ContextStreamUpdate(streamURI: string, updateContent: string, updateTimestamp: Int64)
    | VerifyContextStreamSubscription(streamURI: string)

  /** The operations of the access-control service. */
  datatype WACMessage =
    | GetWACResource(accessedResourceURI: string)
    | AuthorizeAccess(accessedResourceURI: string, agentURI: string, accessType: string)

  /** The body of a reply. */
  datatype Body =
    | BoolBody(b: bool)
    | TextBody(text: string)
    | StatementsBody(statements: seq<Statement>)

  /** One answer to a request message: message.reply(body) or message.fail(code, text). */
  datatype Response =
    | Reply(body: Body)
    | Fail(code: int, message: string)

  /** The status codes the handlers use. */
  const SC_OK: int := 200
  const SC_BAD_REQUEST: int := 400
  const SC_UNAUTHORIZED: int := 401
  const SC_FORBIDDEN: int := 403
  const SC_NOT_FOUND: int := 404
  const SC_INTERNAL_SERVER_ERROR: int := 500

  /**
   * What the sender of a request learns: success, a ReplyException carrying
   * a failure code and perhaps a message, a reply timeout (no answer came), or
   * a failure of another kind.
   */
  datatype ServiceOutcome =
    | Succeeded
    | ReplyFailed(code: int, message: Option<string>)
    | TimedOut
    | OtherFailure

  /** The failure code Vert.x gives a reply timeout. */
  const TIMEOUT_FAILURE_CODE: int := -1

  /** The sender sees the first answer only; with none, the request times out. */
  function BusOutcome(responses: seq<Response>): (o: ServiceOutcome)
    ensures |responses| == 0 <==> o == TimedOut
    ensures |responses| > 0 && responses[0].Reply? ==> o == Succeeded
    ensures |responses| > 0 && responses[0].Fail? ==>
      o == ReplyFailed(responses[0].code, Some(responses[0].message))
  {
    if |responses| == 0 then TimedOut
    else match responses[0]
      case Reply(_) => Succeeded
      case Fail(code, message) => ReplyFailed(code, Some(message))
  }
}
