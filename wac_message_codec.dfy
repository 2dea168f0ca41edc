/** The Gson codec of access-control messages. */
module WACMessageCodec {
  import opened Wrappers
  import opened Json
  import opened Messages
  import opened RequestMethods
  import opened MessageFields
  import opened ContextMessageCodec

  /** The request method each variant is sent with. */
  function WACMethodOf(m: WACMessage): MessageRequestMethod
  {
    match m
    case GetWACResource(_) => GET_WAC_RESOURCE
    case AuthorizeAccess(_, _, _) => AUTHORIZE_ACCESS
  }

  /** serialize: the request method, then the fields of the variant. */
  function SerializeWAC(m: WACMessage): (o: map<string, Json>)
    ensures REQUEST_METHOD in o && o[REQUEST_METHOD] == JString(GetName(WACMethodOf(m)))
  {
    MessageFieldsDistinct();
    var base := map[REQUEST_METHOD := JString(GetName(WACMethodOf(m)))];
    match m
    case GetWACResource(resource) => base[ACCESSED_RESOURCE_URI := JString(resource)]
    case AuthorizeAccess(resource, agent, accessType) =>
      base[ACCESSED_RESOURCE_URI := JString(resource)][AGENT_URI := JString(agent)][ACCESS_TYPE := JString(accessType)]
  }

  /** deserialize of the fields after the request method. */
  function DecodeWACFields(o: map<string, Json>, rm: MessageRequestMethod): Result<WACMessage, DecodeError>
  {
    match rm
    case GET_WAC_RESOURCE =>
      var resource := Field(o, ACCESSED_RESOURCE_URI);
      if resource.Err? then Err(resource.error) else Ok(GetWACResource(resource.value))
    case AUTHORIZE_ACCESS =>
      var resource := Field(o, ACCESSED_RESOURCE_URI);
      if resource.Err? then Err(resource.error)
      else
        var agent := Field(o, AGENT_URI);
        if agent.Err? then Err(agent.error)
        else
          var accessType := Field(o, ACCESS_TYPE);
          if accessType.Err? then Err(accessType.error)
          else Ok(AuthorizeAccess(resource.value, agent.value, accessType.value))
    case _ => Err(InvalidRequestMethod)
  }

  /** deserialize: an unknown name or a method other than the two access-control ones throws. */
  function DeserializeWAC(j: Json): Result<WACMessage, DecodeError>
  {
    if !j.JObject? then Err(NotAnObject)
    else
      var name := Field(j.fields, REQUEST_METHOD);
      if name.Err? then Err(name.error)
      else
        var rm := GetFromName(name.value);
        if rm.None? then Err(InvalidRequestMethod)
        else DecodeWACFields(j.fields, rm.value)
  }

  /** Deserialize reads the request method of a serialised message back. */
  lemma WACMethodRoundTrip(m: WACMessage)
    ensures Field(SerializeWAC(m), REQUEST_METHOD) == Ok(GetName(WACMethodOf(m)))
    ensures GetFromName(GetName(WACMethodOf(m))) == Some(WACMethodOf(m))
  {
    FromNameOfName(WACMethodOf(m));
  }

  /** Both messages come back from their serialisation. */
  lemma WACRoundTrip(m: WACMessage)
    ensures DeserializeWAC(JObject(SerializeWAC(m))) == Ok(m)
  {
    WACMethodRoundTrip(m);
    var o := SerializeWAC(m);
    assert DeserializeWAC(JObject(o)) == DecodeWACFields(o, WACMethodOf(m));
    MessageFieldsDistinct();
    match m
    case GetWACResource(resource) =>
      assert Field(o, ACCESSED_RESOURCE_URI) == Ok(resource);
    case AuthorizeAccess(resource, agent, accessType) =>
      assert Field(o, ACCESSED_RESOURCE_URI) == Ok(resource);
      assert Field(o, AGENT_URI) == Ok(agent);
      assert Field(o, ACCESS_TYPE) == Ok(accessType);
  }

  /** AuthorizeAccess keeps its three strings in three different fields, so none overwrites another. */
  lemma AuthorizeAccessFields(resource: string, agent: string, accessType: string)
    ensures var o := SerializeWAC(AuthorizeAccess(resource, agent, accessType));
      o.Keys == {REQUEST_METHOD, ACCESSED_RESOURCE_URI, AGENT_URI, ACCESS_TYPE} && |o.Keys| == 4
      && o[ACCESSED_RESOURCE_URI] == JString(resource) && o[AGENT_URI] == JString(agent)
      && o[ACCESS_TYPE] == JString(accessType)
  {
    MessageFieldsDistinct();
    var o := SerializeWAC(AuthorizeAccess(resource, agent, accessType));
    assert |{REQUEST_METHOD, ACCESSED_RESOURCE_URI, AGENT_URI, ACCESS_TYPE}| == 4;
  }

  /** A request-method name that names no method throws JsonParseException. */
  lemma WACUnknownMethodRejected(o: map<string, Json>, name: string)
    requires StringField(o, REQUEST_METHOD) == Some(name) && GetFromName(name).None?
    ensures DeserializeWAC(JObject(o)) == Err(InvalidRequestMethod)
  {
  }

  /** A valid method name other than the two access-control ones reaches the default branch and throws. */
  lemma WACOtherMethodRejected(o: map<string, Json>, m: MessageRequestMethod)
    requires StringField(o, REQUEST_METHOD) == Some(GetName(m))
    requires m != GET_WAC_RESOURCE && m != AUTHORIZE_ACCESS
    ensures DeserializeWAC(JObject(o)) == Err(InvalidRequestMethod)
  {
    FromNameOfName(m);
  }
}
