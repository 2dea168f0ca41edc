/** The request-method names carried in the request-method field of every event-bus message. */
module RequestMethods {
  import opened Wrappers

  datatype MessageRequestMethod =
    | GET_ENTITY | GET_ENTITY_IRI | UPDATE_ENTITY | PATCH_ENTITY | DELETE_ENTITY
    | CREATE_WORKSPACE | CREATE_SUB_WORKSPACE | JOIN_WORKSPACE | LEAVE_WORKSPACE | FOCUS
    | CREATE_ARTIFACT | CREATE_BODY | DO_ACTION | GET_WORKSPACES | GET_ARTIFACTS | QUERY
    | VALIDATE_CONTEXT_BASED_ACCESS | GET_STATIC_CONTEXT | GET_PROFILED_CONTEXT
    | CONTEXT_STREAM_VERIFY_SUBSCRIPTION | CONTEXT_STREAM_UPDATE
    | AUTHORIZE_ACCESS | GET_WAC_RESOURCE

  const PREFIX: string := "org.hyperagents.yggdrasil.eventbus.methods."

  /** The enum in declaration order, as values() returns it. */
  const VALUES: seq<MessageRequestMethod> := [
    GET_ENTITY, GET_ENTITY_IRI, UPDATE_ENTITY, PATCH_ENTITY, DELETE_ENTITY,
    CREATE_WORKSPACE, CREATE_SUB_WORKSPACE, JOIN_WORKSPACE, LEAVE_WORKSPACE, FOCUS,
    CREATE_ARTIFACT, CREATE_BODY, DO_ACTION, GET_WORKSPACES, GET_ARTIFACTS, QUERY,
    VALIDATE_CONTEXT_BASED_ACCESS, GET_STATIC_CONTEXT, GET_PROFILED_CONTEXT,
    CONTEXT_STREAM_VERIFY_SUBSCRIPTION, CONTEXT_STREAM_UPDATE,
    AUTHORIZE_ACCESS, GET_WAC_RESOURCE]

  /** The name each constant is declared with. */
  function Suffix(m: MessageRequestMethod): string
  {
    match m
    case GET_ENTITY => "getEntity"
    case GET_ENTITY_IRI => "getEntityIri"
    case UPDATE_ENTITY => "updateEntity"
    case PATCH_ENTITY => "patchEntity"
    case DELETE_ENTITY => "deleteEntity"
    case CREATE_WORKSPACE => "createWorkspace"
    case CREATE_SUB_WORKSPACE => "createSubWorkspace"
    case JOIN_WORKSPACE => "joinWorkspace"
    case LEAVE_WORKSPACE => "leaveWorkspace"
    case FOCUS => "focus"
    case CREATE_ARTIFACT => "createArtifact"
    case CREATE_BODY => "createBody"
    case DO_ACTION => "performAction"
    case GET_WORKSPACES => "GetWorkspaces"
    case GET_ARTIFACTS => "GetArtifacts"
    case QUERY => "query"
    case VALIDATE_CONTEXT_BASED_ACCESS => "validateContextBasedAccess"
    case GET_STATIC_CONTEXT => "getStaticContext"
    case GET_PROFILED_CONTEXT => "getProfiledContext"
    case CONTEXT_STREAM_VERIFY_SUBSCRIPTION => "contextStreamVerifySubscription"
    case CONTEXT_STREAM_UPDATE => "contextStreamUpdate"
    case AUTHORIZE_ACCESS => "authorizeAccess"
    case GET_WAC_RESOURCE => "getWACResource"
  }

  /** getName: the prefix followed by the declared name. */
  function GetName(m: MessageRequestMethod): (r: string)
    ensures |r| > |PREFIX| && r[..|PREFIX|] == PREFIX && r[|PREFIX|..] == Suffix(m)
  {
    PREFIX + Suffix(m)
  }

  /** The first of ms whose name is name. */
  function FirstNamed(ms: seq<MessageRequestMethod>, name: string): (r: Option<MessageRequestMethod>)
    ensures r.Some? ==> r.value in ms && GetName(r.value) == name
    ensures r.None? ==> forall i :: 0 <= i < |ms| ==> GetName(ms[i]) != name
  {
    if |ms| == 0 then None
    else if GetName(ms[0]) == name then Some(ms[0])
    else FirstNamed(ms[1..], name)
  }

  /** getFromName: a search of values() in order. */
  function GetFromName(name: string): (r: Option<MessageRequestMethod>)
    ensures r.Some? ==> GetName(r.value) == name
  {
    FirstNamed(VALUES, name)
  }

  /** Every constant is in values(). */
  lemma InValues(m: MessageRequestMethod)
    ensures m in VALUES
  {
  }

  /** Different constants have different declared names. */
  lemma SuffixInjective(m: MessageRequestMethod, n: MessageRequestMethod)
    requires m != n
    ensures Suffix(m) != Suffix(n)
  {
  }

  /** Names are compared after the shared prefix, so they differ when the declared names do. */
  lemma NameInjective(m: MessageRequestMethod, n: MessageRequestMethod)
    ensures GetName(m) == GetName(n) <==> m == n
  {
    if m != n {
      SuffixInjective(m, n);
      assert GetName(m)[|PREFIX|..] != GetName(n)[|PREFIX|..];
    }
  }

  /** getFromName(getName(m)) is m, for every constant. */
  lemma FromNameOfName(m: MessageRequestMethod)
    ensures GetFromName(GetName(m)) == Some(m)
  {
    InValues(m);
    var r := GetFromName(GetName(m));
    if r.Some? {
      NameInjective(r.value, m);
    }
  }

  /** A declared name without the prefix is not a name. */
  lemma BareSuffixUnknown(m: MessageRequestMethod)
    ensures GetFromName(Suffix(m)) == None
  {
    SuffixShorter(m);
    ShortNameUnknown(Suffix(m));
  }

  /** Every name is longer than the prefix, so nothing shorter is found. */
  lemma ShortNameUnknown(name: string)
    requires |name| <= |PREFIX|
    ensures GetFromName(name) == None
  {
    if GetFromName(name).Some? {
      assert false;
    }
  }

  /** Every declared name is shorter than the prefix. */
  lemma SuffixShorter(m: MessageRequestMethod)
    ensures |Suffix(m)| < |PREFIX|
  {
  }
}
