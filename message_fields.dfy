/** The field names of event-bus messages (the MessageFields enum): a shared prefix and a declared name. */
module MessageFields {
  const FIELD_PREFIX: string := "org.hyperagents.yggdrasil.eventbus.fields."

  const REQUEST_METHOD: string := FIELD_PREFIX + "requestMethod"
  const REQUEST_URI: string := FIELD_PREFIX + "requestUri"
  const ENTITY_URI_HINT: string := FIELD_PREFIX + "slug"
  const AGENT_ID: string := FIELD_PREFIX + "agentID"
  const AGENT_NAME: string := FIELD_PREFIX + "agentName"
  const API_KEY: string := FIELD_PREFIX + "apiKey"
  const WORKSPACE_NAME: string := FIELD_PREFIX + "workspaceName"
  const SUB_WORKSPACE_NAME: string := FIELD_PREFIX + "subWorkspaceName"
  const ARTIFACT_NAME: string := FIELD_PREFIX + "artifactName"
  const ACTION_NAME: string := FIELD_PREFIX + "actionName"
  const ENTITY_REPRESENTATION: string := FIELD_PREFIX + "entityRepresentation"
  const ACTION_CONTENT: string := FIELD_PREFIX + "actionContent"
  const NOTIFICATION_CONTENT: string := FIELD_PREFIX + "notificationContent"
  const PARENT_WORKSPACE_URI: string := FIELD_PREFIX + "parentWorkspaceUri"
  const QUERY: string := FIELD_PREFIX + "query"
  const NAMED_GRAPH_URIS: string := FIELD_PREFIX + "namedGraphUris"
  const DEFAULT_GRAPH_URIS: string := FIELD_PREFIX + "defaultGraphUris"
  const CONTENT_TYPE: string := FIELD_PREFIX + "contentType"
  const CALLBACK_IRI: string := FIELD_PREFIX + "callbackIri"
  const STORE_RESPONSE: string := FIELD_PREFIX + "storeResponse"
  const CONTEXT: string := FIELD_PREFIX + "context"
  const ACCESS_REQUESTER_URI: string := FIELD_PREFIX + "accessRequesterURI"
  const ACCESSED_RESOURCE_URI: string := FIELD_PREFIX + "accessedResourceURI"
  const ACCESS_TYPE: string := FIELD_PREFIX + "accessType"
  const AGENT_URI: string := FIELD_PREFIX + "agentURI"
  const CONTEXT_ASSERTION_TYPE: string := FIELD_PREFIX + "contextAssertionType"
  const STREAM_URI: string := FIELD_PREFIX + "streamURI"
  const STREAM_UPDATE_CONTENT: string := FIELD_PREFIX + "streamUpdateContent"
  const STREAM_UPDATE_TIMESTAMP: string := FIELD_PREFIX + "streamUpdateTimestamp"

  /** Two field names are equal only when their declared names are. */
  lemma PrefixedDistinct(a: string, b: string)
    requires a != b
    ensures FIELD_PREFIX + a != FIELD_PREFIX + b
  {
    assert (FIELD_PREFIX + a)[|FIELD_PREFIX|..] == a;
    assert (FIELD_PREFIX + b)[|FIELD_PREFIX|..] == b;
  }

  /** The fields the context and access-control messages use are pairwise distinct. */
  lemma MessageFieldsDistinct()
    ensures REQUEST_METHOD != ACCESS_REQUESTER_URI && REQUEST_METHOD != ACCESSED_RESOURCE_URI
    ensures REQUEST_METHOD != CONTEXT_ASSERTION_TYPE && REQUEST_METHOD != STREAM_URI
    ensures REQUEST_METHOD != STREAM_UPDATE_CONTENT && REQUEST_METHOD != STREAM_UPDATE_TIMESTAMP
    ensures REQUEST_METHOD != AGENT_URI && REQUEST_METHOD != ACCESS_TYPE
    ensures ACCESS_REQUESTER_URI != ACCESSED_RESOURCE_URI
    ensures STREAM_URI != STREAM_UPDATE_CONTENT && STREAM_URI != STREAM_UPDATE_TIMESTAMP
    ensures STREAM_UPDATE_CONTENT != STREAM_UPDATE_TIMESTAMP
    ensures ACCESSED_RESOURCE_URI != AGENT_URI && ACCESSED_RESOURCE_URI != ACCESS_TYPE && AGENT_URI != ACCESS_TYPE
  {
    PrefixedDistinct("requestMethod", "accessRequesterURI");
    PrefixedDistinct("requestMethod", "accessedResourceURI");
    PrefixedDistinct("requestMethod", "contextAssertionType");
    PrefixedDistinct("requestMethod", "streamURI");
    PrefixedDistinct("requestMethod", "streamUpdateContent");
    PrefixedDistinct("requestMethod", "streamUpdateTimestamp");
    PrefixedDistinct("requestMethod", "agentURI");
    PrefixedDistinct("requestMethod", "accessType");
    PrefixedDistinct("accessRequesterURI", "accessedResourceURI");
    PrefixedDistinct("streamURI", "streamUpdateContent");
    PrefixedDistinct("streamURI", "streamUpdateTimestamp");
    PrefixedDistinct("streamUpdateContent", "streamUpdateTimestamp");
    PrefixedDistinct("accessedResourceURI", "agentURI");
    PrefixedDistinct("accessedResourceURI", "accessType");
    PrefixedDistinct("agentURI", "accessType");
  }
}
