/**
 * The HTTP side of access control: serving the Web Access Control document of
 * an entity, and the filter that lets a request to a write-protected artifact
 * through only when the access-control service grants it.
 */
module WACHandlers {
  import opened Wrappers
  import opened JavaLang
  import opened Messages
  import opened Utils
  import opened AuthorizationAccessType
  import opened Registry
  import WAC
  import ContextMgmtHandlers

  const TURTLE_CONTENT_TYPE: string := "text/turtle"
  const CONTENT_TYPE: string := "Content-Type"
  const LINK: string := "Link"
  const VALIDATE_AUTHORIZATION: string := "org.hyperagents.yggdrasil.eventbus.headers.methods.validateAuthorization"
  /** AuthorizationAccessType.WRITE.toString(): the constant name, not the access-mode name "Write". */
  const WRITE_CONSTANT_NAME: string := "WRITE"

  /**
   * baseUri followed by the request path up to its last '/'. None where the
   * path has no '/', as substring(0, -1) throws.
   */
  function EntityIRI(baseUri: string, path: string): (r: Option<string>)
    ensures r.None? <==> '/' !in path
    ensures r.Some? ==> exists k :: 0 <= k < |path| && path[k] == '/' && '/' !in path[k + 1..] && r.value == baseUri + path[..k]
  {
    var k := LastIndexOf(path, '/');
    if k < 0 then None else Some(baseUri + path[..k])
  }

  /** The request path of an action on an entity: the entity's path, '/', then one last segment. */
  lemma EntityIRIOfAction(baseUri: string, entityPath: string, action: string)
    requires '/' !in action
    ensures EntityIRI(baseUri, entityPath + "/" + action) == Some(baseUri + entityPath)
  {
    var p := entityPath + "/" + action;
    var k := |entityPath|;
    assert p[k] == '/';
    assert p[k + 1..] == action;
    assert p[..k] == entityPath;
  }

  /** The Link value of a Web Access Control document. */
  function DocumentLink(doc: string): string
  {
    "<" + doc + ">; rel=\"self\"; type=\"text/turtle\""
  }

  /** The self link parser of the context management handler reads back the document IRI. */
  lemma DocumentLinkSelf(doc: string)
    requires '>' !in doc
    ensures ContextMgmtHandlers.ExtractSelfLink(DocumentLink(doc)) == Some(doc)
  {
    var rest := "; type=\"text/turtle\"";
    assert DocumentLink(doc) == "<" + doc + ">" + ("; rel=\"self\"" + rest);
    ContextMgmtHandlers.SelfLinkOfLinkHeader(doc, rest);
  }

  /** "Link" in any letter case. */
  predicate IsLinkName(name: string)
  {
    |name| == 4 && forall i :: 0 <= i < 4 ==> ToLowerAscii(name[i]) == LINK[i] || name[i] == LINK[i]
  }

  /** String.join(",", values). */
  function JoinValues(values: seq<string>): string
  {
    if |values| == 0 then "" else Join(values, ',')
  }

  /** putHeader for each entry: a Link header keeps its list of values, any other gets them joined with ','. */
  function PutHeaders(hs: Headers): (r: Headers)
    ensures r.Keys == hs.Keys
    ensures forall k :: k in hs && IsLinkName(k) ==> r[k] == hs[k]
    ensures forall k :: k in hs && !IsLinkName(k) ==> r[k] == [JoinValues(hs[k])]
  {
    map k | k in hs :: if IsLinkName(k) then hs[k] else [JoinValues(hs[k])]
  }

  /** The headers of a served document: its Turtle type, its self link and the CORS headers. */
  function DocumentHeaders(doc: string): Headers
  {
    map[CONTENT_TYPE := [TURTLE_CONTENT_TYPE]] + PutHeaders(map[LINK := [DocumentLink(doc)]] + CorsHeaders())
  }

  /** One step of String.join: the first value, the separator, then the rest joined. */
  lemma JoinStep(x: string, ys: seq<string>)
    requires |ys| >= 1
    ensures Join([x] + ys, ',') == x + "," + Join(ys, ',')
  {
    assert ([x] + ys)[1..] == ys;
  }

  /** The allowed-methods header is the six methods joined with commas, in order. */
  lemma JoinedMethods()
    ensures JoinValues(CorsHeaders()[ACCESS_CONTROL_ALLOW_METHODS])
      == "GET" + "," + "POST" + "," + "PUT" + "," + "DELETE" + "," + "HEAD" + "," + "OPTIONS"
  {
    CorsHeadersExact();
    var t5 := ["OPTIONS"];
    var t4 := ["HEAD"] + t5;
    var t3 := ["DELETE"] + t4;
    var t2 := ["PUT"] + t3;
    var t1 := ["POST"] + t2;
    var t0 := ["GET"] + t1;
    JoinStep("HEAD", t5);
    JoinStep("DELETE", t4);
    JoinStep("PUT", t3);
    JoinStep("POST", t2);
    JoinStep("GET", t1);
    assert t0 == ["GET", "POST", "PUT", "DELETE", "HEAD", "OPTIONS"];
  }

  lemma HeaderNames()
    ensures IsLinkName(LINK)
    ensures !IsLinkName(ACCESS_CONTROL_ALLOW_ORIGIN) && !IsLinkName(ACCESS_CONTROL_ALLOW_CREDENTIALS)
    ensures !IsLinkName(ACCESS_CONTROL_ALLOW_METHODS)
    ensures CONTENT_TYPE != LINK && CONTENT_TYPE != ACCESS_CONTROL_ALLOW_ORIGIN
    ensures CONTENT_TYPE != ACCESS_CONTROL_ALLOW_CREDENTIALS && CONTENT_TYPE != ACCESS_CONTROL_ALLOW_METHODS
    ensures LINK != ACCESS_CONTROL_ALLOW_ORIGIN && LINK != ACCESS_CONTROL_ALLOW_CREDENTIALS && LINK != ACCESS_CONTROL_ALLOW_METHODS
  {
    assert |ACCESS_CONTROL_ALLOW_ORIGIN| != 4;
    assert |ACCESS_CONTROL_ALLOW_CREDENTIALS| != 4;
    assert |ACCESS_CONTROL_ALLOW_METHODS| != 4;
    assert |CONTENT_TYPE| != 4;
  }

  /** The links and CORS headers as putHeader leaves them: the link kept, the CORS values joined. */
  lemma PutDocumentHeaders(doc: string)
    ensures PutHeaders(map[LINK := [DocumentLink(doc)]] + CorsHeaders()).Keys
            == {LINK, ACCESS_CONTROL_ALLOW_ORIGIN, ACCESS_CONTROL_ALLOW_CREDENTIALS, ACCESS_CONTROL_ALLOW_METHODS}
    ensures PutHeaders(map[LINK := [DocumentLink(doc)]] + CorsHeaders())[LINK] == [DocumentLink(doc)]
    ensures PutHeaders(map[LINK := [DocumentLink(doc)]] + CorsHeaders())[ACCESS_CONTROL_ALLOW_ORIGIN] == ["*"]
    ensures PutHeaders(map[LINK := [DocumentLink(doc)]] + CorsHeaders())[ACCESS_CONTROL_ALLOW_CREDENTIALS] == ["true"]
    ensures PutHeaders(map[LINK := [DocumentLink(doc)]] + CorsHeaders())[ACCESS_CONTROL_ALLOW_METHODS]
            == [JoinValues(CorsHeaders()[ACCESS_CONTROL_ALLOW_METHODS])]
  {
    var hs := map[LINK := [DocumentLink(doc)]] + CorsHeaders();
    CorsHeadersExact();
    HeaderNames();
    assert hs.Keys == {LINK, ACCESS_CONTROL_ALLOW_ORIGIN, ACCESS_CONTROL_ALLOW_CREDENTIALS, ACCESS_CONTROL_ALLOW_METHODS};
    assert hs[LINK] == [DocumentLink(doc)];
    assert JoinValues(["*"]) == "*";
    assert JoinValues(["true"]) == "true";
  }

  /** Exactly five headers: the Turtle type, the self link as given, and the CORS headers with their values joined. */
  lemma DocumentHeadersExact(doc: string)
    ensures DocumentHeaders(doc).Keys == {CONTENT_TYPE, LINK, ACCESS_CONTROL_ALLOW_ORIGIN,
                                          ACCESS_CONTROL_ALLOW_CREDENTIALS, ACCESS_CONTROL_ALLOW_METHODS}
    ensures DocumentHeaders(doc)[CONTENT_TYPE] == [TURTLE_CONTENT_TYPE]
    ensures DocumentHeaders(doc)[LINK] == [DocumentLink(doc)]
    ensures DocumentHeaders(doc)[ACCESS_CONTROL_ALLOW_ORIGIN] == ["*"]
    ensures DocumentHeaders(doc)[ACCESS_CONTROL_ALLOW_CREDENTIALS] == ["true"]
    ensures DocumentHeaders(doc)[ACCESS_CONTROL_ALLOW_METHODS]
      == ["GET" + "," + "POST" + "," + "PUT" + "," + "DELETE" + "," + "HEAD" + "," + "OPTIONS"]
  {
    PutDocumentHeaders(doc);
    HeaderNames();
    JoinedMethods();
  }

  /**
   * The answer once the store has replied: 200 with the document (an empty
   * body for a missing or empty one); a failure with code 404 gives 404, any
   * other failure code 500. A failure that is not a ReplyException fails the
   * cast, and nothing is answered.
   */
  function DocumentReply(doc: string, outcome: ServiceOutcome, body: Option<string>): (r: Option<HttpResponse>)
    ensures outcome.Succeeded? ==> r == Some(HttpResponse(SC_OK, DocumentHeaders(doc), if body.Some? then body.value else ""))
    ensures outcome.ReplyFailed? ==> r == Some(HttpResponse(if outcome.code == SC_NOT_FOUND then SC_NOT_FOUND else SC_INTERNAL_SERVER_ERROR, map[], ""))
    ensures outcome.TimedOut? ==> r == Some(HttpResponse(SC_INTERNAL_SERVER_ERROR, map[], ""))
    ensures outcome.OtherFailure? <==> r.None?
  {
    match outcome
    case Succeeded => Some(HttpResponse(SC_OK, DocumentHeaders(doc), if body.Some? then body.value else ""))
    case ReplyFailed(code, _) =>
      Some(HttpResponse(if code == SC_NOT_FOUND then SC_NOT_FOUND else SC_INTERNAL_SERVER_ERROR, map[], ""))
    case TimedOut => Some(HttpResponse(SC_INTERNAL_SERVER_ERROR, map[], ""))
    case OtherFailure => None
  }

  /** What the filter does with a request. */
  datatype Filtered =
    | Next                       // context.next(): the request goes on to its handler
    | Answered(resp: HttpResponse)
    | Thrown                     // an exception leaves the handler

  /** The headers of the validation request; the body is null. */
  function ValidationHeaders(artifact: string, agent: string): map<string, string>
  {
    map[WAC.WAC_METHOD := VALIDATE_AUTHORIZATION,
        WAC.ACCESSED_RESOURCE_URI := artifact,
        WAC.ACCESS_TYPE := WRITE_CONSTANT_NAME,
        WAC.AGENT_WEBID := agent]
  }

  /** The four header names of the bus protocol are distinct. */
  lemma BusHeaderNamesDistinct()
    ensures WAC.WAC_METHOD != WAC.ACCESSED_RESOURCE_URI && WAC.WAC_METHOD != WAC.ACCESS_TYPE
    ensures WAC.WAC_METHOD != WAC.AGENT_WEBID && WAC.ACCESSED_RESOURCE_URI != WAC.ACCESS_TYPE
    ensures WAC.ACCESSED_RESOURCE_URI != WAC.AGENT_WEBID && WAC.ACCESS_TYPE != WAC.AGENT_WEBID
  {
    assert |WAC.WAC_METHOD| == 52 && |WAC.ACCESSED_RESOURCE_URI| == 62;
    assert |WAC.ACCESS_TYPE| == 53 && |WAC.AGENT_WEBID| == 53;
    assert WAC.ACCESS_TYPE[45] != WAC.AGENT_WEBID[45];
  }

  /**
   * The validation request carries four headers: the validation method, the
   * artifact, the Java constant name of WRITE as access type, and the agent.
   */
  lemma ValidationHeadersFields(artifact: string, agent: string)
    ensures var h := ValidationHeaders(artifact, agent);
      h.Keys == {WAC.WAC_METHOD, WAC.ACCESSED_RESOURCE_URI, WAC.ACCESS_TYPE, WAC.AGENT_WEBID} && |h| == 4
      && h[WAC.WAC_METHOD] == VALIDATE_AUTHORIZATION && h[WAC.ACCESSED_RESOURCE_URI] == artifact
      && h[WAC.ACCESS_TYPE] == WRITE_CONSTANT_NAME && h[WAC.AGENT_WEBID] == agent
  {
    BusHeaderNamesDistinct();
  }

  class WACHandler {
    const baseUri: string
    const registry: AuthorizationRegistry

    constructor (baseUri: string, registry: AuthorizationRegistry)
      ensures this.baseUri == baseUri && this.registry == registry
    {
      this.baseUri := baseUri;
      this.registry := registry;
    }

    /**
     * handleWACRepresentation: the document IRI of the entity is asked from
     * the store and served; an entity without rules gets 404 without asking.
     * storeOutcome and storeBody stand for the store's reply.
     */
    method HandleWACRepresentation(path: string, storeOutcome: ServiceOutcome, storeBody: Option<string>)
      returns (resp: Option<HttpResponse>, asked: Option<string>, thrown: bool)
      ensures thrown <==> EntityIRI(baseUri, path).None?
      ensures thrown ==> resp == None && asked == None
      ensures !thrown && EntityIRI(baseUri, path).value !in registry.authMap ==>
        resp == Some(HttpResponse(SC_NOT_FOUND, map[], "")) && asked == None
      ensures !thrown && EntityIRI(baseUri, path).value in registry.authMap ==>
        (asked == Some(EntityIRI(baseUri, path).value + "/wac")
        && resp == DocumentReply(asked.value, storeOutcome, storeBody))
    {
      var entity := EntityIRI(baseUri, path);
      if entity.None? {
        return None, None, true;
      }
      var doc := registry.GetAuthorisationDocumentURI(entity.value);
      if doc.None? {
        return Some(HttpResponse(SC_NOT_FOUND, map[], "")), None, false;
      }
      return DocumentReply(doc.value, storeOutcome, storeBody), doc, false;
    }

    /**
     * filterAccess: a request to a write-protected artifact is passed on
     * only if the access-control service answers the validation request with
     * success; any failure gives 401. Without an X-Agent-WebID header the
     * null agent makes addHeader throw before anything is sent. A request to
     * an artifact that is not write-protected is passed on at once. reply
     * stands for the answer.
     */
    method FilterAccess(path: string, agent: Option<string>, reply: ServiceOutcome)
      returns (f: Filtered, sent: Option<map<string, string>>)
      ensures EntityIRI(baseUri, path).None? ==> f == Thrown && sent == None
      ensures EntityIRI(baseUri, path).Some? ==>
        var artifact := EntityIRI(baseUri, path).value;
        var protected := AnyGrants(RulesOf(registry.authMap, artifact), WRITE)
          || AnyGrants(RulesOf(registry.authMap, artifact), APPEND);
        && (!protected ==> f == Next && sent == None)
        && (protected && agent.None? ==> f == Thrown && sent == None)
        && (protected && agent.Some? ==>
              (sent == Some(ValidationHeaders(artifact, agent.value))
               && f == if reply.Succeeded? then Next else Answered(HttpResponse(SC_UNAUTHORIZED, map[], ""))))
    {
      var artifact := EntityIRI(baseUri, path);
      if artifact.None? {
        return Thrown, None;
      }
      var protected := registry.IsWriteProtected(artifact.value);
      if !protected {
        return Next, None;
      }
      if agent.None? {
        return Thrown, None;
      }
      sent := Some(ValidationHeaders(artifact.value, agent.value));
      if reply.Succeeded? {
        f := Next;
      } else {
        f := Answered(HttpResponse(SC_UNAUTHORIZED, map[], ""));
      }
    }
  }

  /**
   * The validation request has a null body, so if it reaches the
   * access-control service its dispatch throws and nothing answers: the
   * request times out, and every request to an artifact with a write or
   * append rule is refused with 401, or throws in the filter when it names no agent.
   */
  method FilterEndToEnd(h: WACHandler, v: WAC.WACVerticle, path: string, agent: Option<string>,
                        freshId: nat -> string, serialize: Rdf.Model -> Option<string>)
    returns (f: Filtered)
    ensures f.Next? ==>
      (EntityIRI(h.baseUri, path).Some?
       && !AnyGrants(RulesOf(h.registry.authMap, EntityIRI(h.baseUri, path).value), WRITE)
       && !AnyGrants(RulesOf(h.registry.authMap, EntityIRI(h.baseUri, path).value), APPEND))
    ensures (EntityIRI(h.baseUri, path).Some?
             && (AnyGrants(RulesOf(h.registry.authMap, EntityIRI(h.baseUri, path).value), WRITE)
                 || AnyGrants(RulesOf(h.registry.authMap, EntityIRI(h.baseUri, path).value), APPEND))) ==>
      f == if agent.None? then Thrown else Answered(HttpResponse(SC_UNAUTHORIZED, map[], ""))
  {
    var responses, _, _, _ := v.HandleMessage(None, TimedOut, freshId, serialize);
    var sent;
    f, sent := h.FilterAccess(path, agent, BusOutcome(responses));
  }
}
