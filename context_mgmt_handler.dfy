/**
 * The HTTP side of the context management service: the callbacks a WebSub
 * hub calls to verify a subscription and to deliver content, and the parser
 * that finds the self link of a Link header (section 3 of RFC 8288). The
 * delivery format (a JSON body with a "hub.payload" object) is the one the
 * code expects, not the one section 7 of the W3C WebSub Recommendation
 * describes.
 */
module ContextMgmtHandlers {
  import opened Wrappers
  import opened JavaLang
  import opened Json
  import opened Messages
  import opened Utils
  import opened ContextStreamModels
  import ContextMgmt

  // ---------------------------------------------------------------- the Link header

  /** The characters matched by \s in a Java regular expression. */
  predicate IsWs(c: char)
  {
    c == ' ' || c == '\t' || c == '\n' || c == '\U{000B}' || c == '\U{000C}' || c == '\r'
  }

  /** What is left of t once its leading white space is skipped. */
  function DropWs(t: string): (r: string)
    ensures |r| <= |t|
    ensures |r| > 0 ==> !IsWs(r[0])
  {
    if |t| > 0 && IsWs(t[0]) then DropWs(t[1..]) else t
  }

  /** t starts with lit. */
  predicate StartsWith(t: string, lit: string)
  {
    |lit| <= |t| && t[..|lit|] == lit
  }

  /** t begins with \s*;\s*rel\s*=\s*"?self"? (the closing quote is optional, so nothing after "self" matters). */
  predicate SelfRel(t: string)
  {
    var a := DropWs(t);
    |a| > 0 && a[0] == ';' &&
    var b := DropWs(a[1..]);
    StartsWith(b, "rel") &&
    var c := DropWs(b[3..]);
    |c| > 0 && c[0] == '=' &&
    var d := DropWs(c[1..]);
    StartsWith(if |d| > 0 && d[0] == '"' then d[1..] else d, "self")
  }

  /** The first position at or after k holding c. */
  function FindFrom(s: string, c: char, k: nat): (r: Option<nat>)
    requires k <= |s|
    ensures r.Some? ==> k <= r.value < |s| && s[r.value] == c && forall j :: k <= j < r.value ==> s[j] != c
    ensures r.None? ==> forall j :: k <= j < |s| ==> s[j] != c
    decreases |s| - k
  {
    if k == |s| then None else if s[k] == c then Some(k) else FindFrom(s, c, k + 1)
  }

  /**
   * A match of <([^>]*)>\s*;\s*rel\s*=\s*"?self"? starting at i, and its
   * group. The group cannot hold '>', so it ends at the first '>'; each \s*
   * is followed by a character that is not white space, and the optional
   * quotes fix the rest, so no other way of matching exists.
   */
  function MatchAt(h: string, i: nat): (r: Option<string>)
    requires i < |h|
    ensures r.Some? ==> (h[i] == '<' && '>' !in r.value && i + 1 + |r.value| < |h|
      && h[i + 1 + |r.value|] == '>' && h[i + 1..i + 1 + |r.value|] == r.value
      && SelfRel(h[i + 2 + |r.value|..]))
  {
    if h[i] != '<' then None
    else
      var close := FindFrom(h, '>', i + 1);
      if close.None? || !SelfRel(h[close.value + 1..]) then None
      else
        var g := h[i + 1..close.value];
        assert forall k :: 0 <= k < |g| ==> g[k] == h[i + 1 + k];
        Some(g)
  }

  /** Matcher.find from position i on: the position of the leftmost match. */
  function FirstMatch(h: string, i: nat): (r: Option<nat>)
    requires i <= |h|
    ensures r.None? ==> forall k :: i <= k < |h| ==> MatchAt(h, k).None?
    ensures r.Some? ==> (i <= r.value < |h| && MatchAt(h, r.value).Some?
      && forall k :: i <= k < r.value ==> MatchAt(h, k).None?)
    decreases |h| - i
  {
    if i == |h| then None
    else if MatchAt(h, i).Some? then Some(i)
    else FirstMatch(h, i + 1)
  }

  /** extractSelfLink: the group of the leftmost match, or None (a Java null). */
  function ExtractSelfLink(h: string): (r: Option<string>)
    ensures r.None? <==> forall k :: 0 <= k < |h| ==> MatchAt(h, k).None?
    ensures r.Some? ==> '>' !in r.value
    ensures r.Some? ==> exists k :: 0 <= k < |h| && r == MatchAt(h, k) && forall j :: 0 <= j < k ==> MatchAt(h, j).None?
  {
    var k := FirstMatch(h, 0);
    if k.None? then None else MatchAt(h, k.value)
  }

  /** A header without '<' has no self link. */
  lemma NoAngleNoLink(h: string)
    requires '<' !in h
    ensures ExtractSelfLink(h) == None
  {
    forall k | 0 <= k < |h|
      ensures MatchAt(h, k).None?
    {
      assert h[k] in h;
    }
  }

  /** The parameters the access-control handler writes after the target. */
  lemma SelfRelOfWrittenParams(rest: string)
    ensures SelfRel("; rel=\"self\"" + rest)
  {
    var t := "; rel=\"self\"" + rest;
    assert DropWs(t) == t;
    assert DropWs(t[1..]) == t[2..];
    assert t[2..][3..] == t[5..];
    assert DropWs(t[5..]) == t[5..];
    assert DropWs(t[6..]) == t[6..];
    assert t[7..][..4] == "self";
  }

  /** The Link header the access-control handler writes gives back its target. */
  lemma SelfLinkOfLinkHeader(u: string, rest: string)
    requires '>' !in u
    ensures ExtractSelfLink("<" + u + ">" + ("; rel=\"self\"" + rest)) == Some(u)
  {
    var p := "; rel=\"self\"" + rest;
    var h := "<" + u + ">" + p;
    var n := |u|;
    assert h[0] == '<';
    assert h[1 + n] == '>';
    forall j | 1 <= j < 1 + n
      ensures h[j] != '>'
    {
      assert h[j] == u[j - 1];
      assert u[j - 1] in u;
    }
    assert FindFrom(h, '>', 1) == Some(1 + n);
    assert h[2 + n..] == p;
    SelfRelOfWrittenParams(rest);
    assert h[1..1 + n] == u;
    assert MatchAt(h, 0) == Some(u);
    assert FirstMatch(h, 0) == Some(0);
  }

  // ---------------------------------------------------------------- request data

  /** Vert.x JsonObject.getString: null stays null; a number, boolean or string gives its text; other values are not modelled and count as throwing. */
  function VertxString(o: map<string, Json>, key: string): Option<Option<string>>
  {
    if key !in o || o[key].JNull? then Some(None)
    else
      var t := ElementText(o[key]);
      if t.None? then None else Some(t)
  }

  /** The low 64 bits of an integer, as Number.longValue gives them. */
  function WrapInt64(x: int): (r: Int64)
    ensures (r - x) % 0x1_0000_0000_0000_0000 == 0
  {
    (x - LONG_MIN) % 0x1_0000_0000_0000_0000 + LONG_MIN
  }

  /**
   * getLong(key, def) unboxed into a long: def when the key is absent; a
   * number gives its long value; a null throws when unboxed, any other value
   * fails the cast.
   */
  function VertxLongOr(o: map<string, Json>, key: string, def: Int64): (r: Option<Int64>)
    ensures key !in o ==> r == Some(def)
    ensures key in o && o[key].JNumber? ==> r == Some(WrapInt64(o[key].n))
    ensures key in o && !o[key].JNumber? ==> r == None
  {
    if key !in o then Some(def)
    else if o[key].JNumber? then Some(WrapInt64(o[key].n))
    else None
  }

  const LINK_HEADER_MISSING: string := "Missing Link header"
  const UNKNOWN_STREAM: string := "Unknown stream"
  const PAYLOAD_MISSING: string := "Missing payload"
  const HUB_PAYLOAD: string := "hub.payload"
  const GRAPH_SERIALIZED: string := "graph_serialized"
  const TIMESTAMP_MS: string := "timestamp_ms"
  /** Stands for the text of Vert.x's reply-timeout exception. */
  const TIMEOUT_MESSAGE: string := "Timed out waiting for a reply"

  function Plain(status: int, body: string): HttpResponse
  {
    HttpResponse(status, map[], body)
  }

  function JsonResponse(status: int, body: string): HttpResponse
  {
    HttpResponse(status, map["Content-Type" := ["application/json"]], body)
  }

  /** The ordered checks of a content delivery: an answer, an exception caught by the handler, or the message to send. */
  datatype Delivery = Respond(resp: HttpResponse) | Thrown | Send(msg: ContextMessage)

  /**
   * handleContextStreamUpdate up to the message: no Link header gives 400; no
   * self link, or one for an unmanaged stream, 404; a body that is not a JSON
   * object, an exception (500); no "hub.payload", 400; a payload that is not
   * an object, or fields of the wrong type, an exception (500); a missing or
   * empty graph, 400.
   */
  function DeliveryChecks(managed: seq<Option<string>>, link: Option<string>, body: Option<Json>): (d: Delivery)
    ensures link.None? ==> d == Respond(Plain(SC_BAD_REQUEST, LINK_HEADER_MISSING))
    ensures link.Some? && (ExtractSelfLink(link.value).None? || ExtractSelfLink(link.value) !in managed) ==>
      d == Respond(Plain(SC_NOT_FOUND, UNKNOWN_STREAM))
    ensures (link.Some? && ExtractSelfLink(link.value) in managed && ExtractSelfLink(link.value).Some?
             && body.Some? && body.value.JObject? && HUB_PAYLOAD !in body.value.fields) ==>
      d == Respond(Plain(SC_BAD_REQUEST, PAYLOAD_MISSING))
    ensures d.Send? ==> (link.Some? && ExtractSelfLink(link.value).Some? && ExtractSelfLink(link.value) in managed
      && body.Some? && body.value.JObject? && HUB_PAYLOAD in body.value.fields
      && d.msg.ContextStreamUpdate? && Some(d.msg.streamURI) == ExtractSelfLink(link.value)
      && d.msg.updateContent != "")
  {
    if link.None? then Respond(Plain(SC_BAD_REQUEST, LINK_HEADER_MISSING))
    else
      var streamUri := ExtractSelfLink(link.value);
      if streamUri.None? || streamUri !in managed then Respond(Plain(SC_NOT_FOUND, UNKNOWN_STREAM))
      else if body.None? || !body.value.JObject? then Thrown
      else
        var request := body.value.fields;
        if HUB_PAYLOAD !in request then Respond(Plain(SC_BAD_REQUEST, PAYLOAD_MISSING))
        else if !request[HUB_PAYLOAD].JObject? then Thrown
        else
          var payload := request[HUB_PAYLOAD].fields;
          var graph := VertxString(payload, GRAPH_SERIALIZED);
          var t := VertxLongOr(payload, TIMESTAMP_MS, 0);
          if graph.None? || t.None? then Thrown
          else if graph.value.None? || graph.value.value == "" then
            Respond(JsonResponse(SC_BAD_REQUEST, ErrorJson("Empty graph")))
          else Send(ContextStreamUpdate(streamUri.value, graph.value.value, t.value))
  }

  /** The answer to the hub once the service has answered the update. */
  function DeliveryReply(o: ServiceOutcome): (r: HttpResponse)
    ensures o.Succeeded? ==> r == Plain(SC_OK, "")
    ensures o.ReplyFailed? ==> (r.status == o.code
      && r.body == ErrorJson(if o.message.Some? then o.message.value else "unknown error"))
    ensures o.TimedOut? ==> r.status == TIMEOUT_FAILURE_CODE
    ensures o.OtherFailure? ==> r == JsonResponse(SC_INTERNAL_SERVER_ERROR, ErrorJson("unknown error"))
  {
    match o
    case Succeeded => Plain(SC_OK, "")
    case ReplyFailed(code, message) =>
      JsonResponse(code, ErrorJson(if message.Some? then message.value else "unknown error"))
    case TimedOut => JsonResponse(TIMEOUT_FAILURE_CODE, ErrorJson(TIMEOUT_MESSAGE))
    case OtherFailure => JsonResponse(SC_INTERNAL_SERVER_ERROR, ErrorJson("unknown error"))
  }

  /** A payload without a timestamp is delivered with timestamp 0. */
  lemma MissingTimestampIsZero(payload: map<string, Json>)
    ensures VertxLongOr(payload - {TIMESTAMP_MS}, TIMESTAMP_MS, 0) == Some(0)
  {
  }

  // ---------------------------------------------------------------- the handler

  class ContextMgmtHandler {
    /** Whether context management is enabled; a disabled message box completes every request successfully without sending it. */
    const enabled: bool
    var managedContextStreamURIs: seq<Option<string>>

    /** The constructor: the stream URIs of the configuration, in order. */
    constructor (enabled: bool, streams: seq<ContextStreamModel>)
      ensures this.enabled == enabled
      ensures |managedContextStreamURIs| == |streams|
      ensures forall i :: 0 <= i < |streams| ==> managedContextStreamURIs[i] == streams[i].streamUri
    {
      this.enabled := enabled;
      managedContextStreamURIs := [];
      new;
      for i := 0 to |streams|
        invariant |managedContextStreamURIs| == i
        invariant forall j :: 0 <= j < i ==> managedContextStreamURIs[j] == streams[j].streamUri
      {
        managedContextStreamURIs := managedContextStreamURIs + [streams[i].streamUri];
      }
    }

    /** What sendMessage yields: the service's outcome, or success when the box is disabled. */
    function Sent(reply: ServiceOutcome): ServiceOutcome
      reads this
    {
      if enabled then reply else Succeeded
    }

    /**
     * handleVerifyContextStreamSubscription: the service is asked only for a
     * subscribe request with a challenge on a managed topic; then success
     * echoes the challenge with 200 and failure gives 404. Anything else gets
     * 404 at once.
     */
    method HandleVerify(mode: Option<string>, challenge: Option<string>, topic: Option<string>, reply: ServiceOutcome)
      returns (resp: HttpResponse, asked: bool)
      ensures asked <==> mode == Some("subscribe") && challenge.Some? && topic in managedContextStreamURIs
      ensures !asked ==> resp == Plain(SC_NOT_FOUND, "")
      ensures asked && Sent(reply).Succeeded? ==>
        resp == HttpResponse(SC_OK, map["Content-Type" := ["text/plain"]], challenge.value)
      ensures asked && !Sent(reply).Succeeded? ==> resp == Plain(SC_NOT_FOUND, "")
    {
      if mode == Some("subscribe") && challenge.Some? && topic in managedContextStreamURIs {
        asked := true;
        if Sent(reply).Succeeded? {
          resp := HttpResponse(SC_OK, map["Content-Type" := ["text/plain"]], challenge.value);
        } else {
          resp := Plain(SC_NOT_FOUND, "");
        }
      } else {
        asked := false;
        resp := Plain(SC_NOT_FOUND, "");
      }
    }

    /**
     * handleContextStreamUpdate: the checks, then the service's answer. An
     * exception is answered with 500 and its message (thrownMessage) as JSON.
     */
    method HandleContextStreamUpdate(link: Option<string>, body: Option<Json>, reply: ServiceOutcome, thrownMessage: string)
      returns (resp: HttpResponse, sent: Option<ContextMessage>)
      ensures var d := DeliveryChecks(managedContextStreamURIs, link, body);
        && (d.Respond? ==> resp == d.resp && sent == None)
        && (d.Thrown? ==> resp == JsonResponse(SC_INTERNAL_SERVER_ERROR, ErrorJson(thrownMessage)) && sent == None)
        && (d.Send? ==> resp == DeliveryReply(Sent(reply)) && sent == Some(d.msg))
    {
      var d := DeliveryChecks(managedContextStreamURIs, link, body);
      match d
      case Respond(r) =>
        return r, None;
      case Thrown =>
        return JsonResponse(SC_INTERNAL_SERVER_ERROR, ErrorJson(thrownMessage)), None;
      case Send(m) =>
        return DeliveryReply(Sent(reply)), Some(m);
    }
  }

  /**
   * Subscription verification against the service itself: the service has no
   * case for the message and fails it with 400, so while context management
   * is enabled every verification ends in 404.
   */
  method VerifyEndToEnd(h: ContextMgmtHandler, v: ContextMgmt.ContextMgmtVerticle,
                        mode: Option<string>, challenge: Option<string>, topic: Option<string>,
                        oracles: ContextMgmt.Oracles) returns (resp: HttpResponse)
    ensures h.enabled ==> resp.status == SC_NOT_FOUND
  {
    var reply := TimedOut;
    if topic.Some? {
      var responses, _ := v.HandleMessage(VerifyContextStreamSubscription(topic.value), oracles);
      reply := BusOutcome(responses);
    } else {
      reply := ReplyFailed(SC_BAD_REQUEST, Some(ContextMgmt.UNKNOWN_MESSAGE_TYPE));
    }
    var asked;
    resp, asked := h.HandleVerify(mode, challenge, topic, reply);
  }
}
