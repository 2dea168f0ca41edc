/** The Gson codec of context-management messages: a flat JSON object keyed by message fields. */
module ContextMessageCodec {
  import opened Wrappers
  import opened JavaLang
  import opened Json
  import opened Messages
  import opened RequestMethods
  import opened MessageFields

  /** Why deserialize throws: a JsonParseException for the method, or a failing field read. */
  datatype DecodeError = NotAnObject | InvalidRequestMethod | MalformedField(field: string)

  /** The request method each message variant is sent with. */
  function MethodOf(m: ContextMessage): MessageRequestMethod
  {
    match m
    case ValidateContextBasecAccess(_, _) => VALIDATE_CONTEXT_BASED_ACCESS
    case GetStaticContext => GET_STATIC_CONTEXT
    case GetProfiledContext(_) => GET_PROFILED_CONTEXT
    case ContextStreamUpdate(_, _, _) => CONTEXT_STREAM_UPDATE
    case VerifyContextStreamSubscription(_) => CONTEXT_STREAM_VERIFY_SUBSCRIPTION
  }

  /** serialize: the request method, then the fields of the variant. */
  function Serialize(m: ContextMessage): (o: map<string, Json>)
    ensures REQUEST_METHOD in o && o[REQUEST_METHOD] == JString(GetName(MethodOf(m)))
  {
    MessageFieldsDistinct();
    var base := map[REQUEST_METHOD := JString(GetName(MethodOf(m)))];
    match m
    case ValidateContextBasecAccess(requester, resource) =>
      base[ACCESS_REQUESTER_URI := JString(requester)][ACCESSED_RESOURCE_URI := JString(resource)]
    case GetStaticContext => base
    case GetProfiledContext(assertionType) => base[CONTEXT_ASSERTION_TYPE := JString(assertionType)]
    case ContextStreamUpdate(stream, content, t) =>
      base[STREAM_URI := JString(stream)][STREAM_UPDATE_CONTENT := JString(content)][STREAM_UPDATE_TIMESTAMP := JNumber(t)]
    case VerifyContextStreamSubscription(stream) => base[STREAM_URI := JString(stream)]
  }

  /** A string field, or the error naming it. */
  function Field(o: map<string, Json>, key: string): Result<string, DecodeError>
  {
    var v := StringField(o, key);
    if v.Some? then Ok(v.value) else Err(MalformedField(key))
  }

  /** deserialize of the fields after the request method. */
  function DecodeFields(o: map<string, Json>, rm: MessageRequestMethod): Result<ContextMessage, DecodeError>
  {
    match rm
    case VALIDATE_CONTEXT_BASED_ACCESS =>
      var requester := Field(o, ACCESS_REQUESTER_URI);
      if requester.Err? then Err(requester.error)
      else
        var resource := Field(o, ACCESSED_RESOURCE_URI);
        if resource.Err? then Err(resource.error)
        else Ok(ValidateContextBasecAccess(requester.value, resource.value))
    case GET_STATIC_CONTEXT => Ok(GetStaticContext)
    case GET_PROFILED_CONTEXT =>
      var assertionType := Field(o, CONTEXT_ASSERTION_TYPE);
      if assertionType.Err? then Err(assertionType.error) else Ok(GetProfiledContext(assertionType.value))
    case CONTEXT_STREAM_UPDATE =>
      var stream := Field(o, STREAM_URI);
      if stream.Err? then Err(stream.error)
      else
        var content := Field(o, STREAM_UPDATE_CONTENT);
        if content.Err? then Err(content.error)
        else
          var t := LongField(o, STREAM_UPDATE_TIMESTAMP);
          if t.None? then Err(MalformedField(STREAM_UPDATE_TIMESTAMP))
          else Ok(ContextStreamUpdate(stream.value, content.value, t.value))
    case CONTEXT_STREAM_VERIFY_SUBSCRIPTION =>
      var stream := Field(o, STREAM_URI);
      if stream.Err? then Err(stream.error) else Ok(VerifyContextStreamSubscription(stream.value))
    case _ => Err(InvalidRequestMethod)
  }

  /** deserialize: the request method is looked up by name; an unknown name or a non-context method throws. */
  function Deserialize(j: Json): Result<ContextMessage, DecodeError>
  {
    if !j.JObject? then Err(NotAnObject)
    else
      var name := Field(j.fields, REQUEST_METHOD);
      if name.Err? then Err(name.error)
      else
        var rm := GetFromName(name.value);
        if rm.None? then Err(InvalidRequestMethod)
        else DecodeFields(j.fields, rm.value)
  }

  /** Deserialize reads the request method of a serialised message back. */
  lemma MethodRoundTrip(m: ContextMessage)
    ensures Field(Serialize(m), REQUEST_METHOD) == Ok(GetName(MethodOf(m)))
    ensures GetFromName(GetName(MethodOf(m))) == Some(MethodOf(m))
  {
    FromNameOfName(MethodOf(m));
  }

  /** Every message comes back from its serialisation, the stream-update timestamp unchanged. */
  lemma RoundTrip(m: ContextMessage)
    ensures Deserialize(JObject(Serialize(m))) == Ok(m)
  {
    MethodRoundTrip(m);
    assert Deserialize(JObject(Serialize(m))) == DecodeFields(Serialize(m), MethodOf(m));
    match m
    case ValidateContextBasecAccess(requester, resource) => ValidateFieldsBack(requester, resource);
    case GetStaticContext =>
    case GetProfiledContext(assertionType) => ProfiledFieldsBack(assertionType);
    case ContextStreamUpdate(stream, content, t) => UpdateFieldsBack(stream, content, t);
    case VerifyContextStreamSubscription(stream) => VerifyFieldsBack(stream);
  }

  lemma ValidateFieldsBack(requester: string, resource: string)
    ensures var m := ValidateContextBasecAccess(requester, resource);
      DecodeFields(Serialize(m), MethodOf(m)) == Ok(m)
  {
    var base := map[REQUEST_METHOD := JString(GetName(VALIDATE_CONTEXT_BASED_ACCESS))];
    var o := base[ACCESS_REQUESTER_URI := JString(requester)][ACCESSED_RESOURCE_URI := JString(resource)];
    assert Serialize(ValidateContextBasecAccess(requester, resource)) == o;
    MessageFieldsDistinct();
    TwoFieldsBack(base, ACCESS_REQUESTER_URI, requester, ACCESSED_RESOURCE_URI, resource);
    DecodeValidate(o, requester, resource);
  }

  /** Two strings written under two different keys read back as themselves. */
  lemma TwoFieldsBack(base: map<string, Json>, k1: string, s1: string, k2: string, s2: string)
    requires k1 != k2
    ensures var o := base[k1 := JString(s1)][k2 := JString(s2)];
      Field(o, k1) == Ok(s1) && Field(o, k2) == Ok(s2)
  {
  }

  /** An object whose requester and resource fields read back decodes to that request. */
  lemma DecodeValidate(o: map<string, Json>, requester: string, resource: string)
    requires Field(o, ACCESS_REQUESTER_URI) == Ok(requester) && Field(o, ACCESSED_RESOURCE_URI) == Ok(resource)
    ensures DecodeFields(o, VALIDATE_CONTEXT_BASED_ACCESS) == Ok(ValidateContextBasecAccess(requester, resource))
  {
  }

  lemma ProfiledFieldsBack(assertionType: string)
    ensures var m := GetProfiledContext(assertionType);
      DecodeFields(Serialize(m), MethodOf(m)) == Ok(m)
  {
    var o := Serialize(GetProfiledContext(assertionType));
    MessageFieldsDistinct();
    assert Field(o, CONTEXT_ASSERTION_TYPE) == Ok(assertionType);
  }

  lemma UpdateFieldsBack(stream: string, content: string, t: Int64)
    ensures var m := ContextStreamUpdate(stream, content, t);
      DecodeFields(Serialize(m), MethodOf(m)) == Ok(m)
  {
    var m := ContextStreamUpdate(stream, content, t);
    var base := map[REQUEST_METHOD := JString(GetName(CONTEXT_STREAM_UPDATE))];
    var o := base[STREAM_URI := JString(stream)][STREAM_UPDATE_CONTENT := JString(content)][STREAM_UPDATE_TIMESTAMP := JNumber(t)];
    assert Serialize(m) == o;
    MessageFieldsDistinct();
    ThreeFieldsBack(base, STREAM_URI, stream, STREAM_UPDATE_CONTENT, content, STREAM_UPDATE_TIMESTAMP, t);
    DecodeUpdate(o, stream, content, t);
  }

  /** An object whose three update fields read back decodes to that update. */
  lemma DecodeUpdate(o: map<string, Json>, stream: string, content: string, t: Int64)
    requires Field(o, STREAM_URI) == Ok(stream) && Field(o, STREAM_UPDATE_CONTENT) == Ok(content)
    requires LongField(o, STREAM_UPDATE_TIMESTAMP) == Some(t)
    ensures DecodeFields(o, CONTEXT_STREAM_UPDATE) == Ok(ContextStreamUpdate(stream, content, t))
  {
  }

  /** Two strings and a number written under three different keys read back as themselves. */
  lemma ThreeFieldsBack(base: map<string, Json>, k1: string, s1: string, k2: string, s2: string, k3: string, n: Int64)
    requires k1 != k2 && k1 != k3 && k2 != k3
    ensures var o := base[k1 := JString(s1)][k2 := JString(s2)][k3 := JNumber(n)];
      Field(o, k1) == Ok(s1) && Field(o, k2) == Ok(s2) && LongField(o, k3) == Some(n)
  {
  }

  lemma VerifyFieldsBack(stream: string)
    ensures var m := VerifyContextStreamSubscription(stream);
      DecodeFields(Serialize(m), MethodOf(m)) == Ok(m)
  {
    var o := map[REQUEST_METHOD := JString(GetName(CONTEXT_STREAM_VERIFY_SUBSCRIPTION))][STREAM_URI := JString(stream)];
    assert Serialize(VerifyContextStreamSubscription(stream)) == o;
    StringFieldOfPut(map[REQUEST_METHOD := JString(GetName(CONTEXT_STREAM_VERIFY_SUBSCRIPTION))], STREAM_URI, stream);
    assert DecodeFields(o, CONTEXT_STREAM_VERIFY_SUBSCRIPTION) == Ok(VerifyContextStreamSubscription(stream));
  }

  /** GetStaticContext serialises to the request-method field alone. */
  lemma StaticContextIsMethodOnly()
    ensures Serialize(GetStaticContext).Keys == {REQUEST_METHOD}
  {
  }

  /** The timestamp is written as a JSON number with the same value. */
  lemma TimestampWritten(stream: string, content: string, t: Int64)
    ensures Serialize(ContextStreamUpdate(stream, content, t))[STREAM_UPDATE_TIMESTAMP] == JNumber(t)
  {
  }

  /** A request-method name that names no method throws JsonParseException. */
  lemma UnknownMethodRejected(o: map<string, Json>, name: string)
    requires StringField(o, REQUEST_METHOD) == Some(name) && GetFromName(name).None?
    ensures Deserialize(JObject(o)) == Err(InvalidRequestMethod)
  {
  }

  /** A valid method name that is not a context operation reaches the default branch and throws. */
  lemma OtherMethodRejected(o: map<string, Json>, m: MessageRequestMethod)
    requires StringField(o, REQUEST_METHOD) == Some(GetName(m))
    requires m != VALIDATE_CONTEXT_BASED_ACCESS && m != GET_STATIC_CONTEXT && m != GET_PROFILED_CONTEXT
    requires m != CONTEXT_STREAM_UPDATE && m != CONTEXT_STREAM_VERIFY_SUBSCRIPTION
    ensures Deserialize(JObject(o)) == Err(InvalidRequestMethod)
  {
    FromNameOfName(m);
  }
}
