/**
 * The RDF vocabulary the access-control code uses: the Web Access Control
 * (acl:) terms, the CASHMERE terms, and rdf:type. Only IRIs as strings.
 */
module Vocab {

  const RDF_TYPE: string := "http://www.w3.org/1999/02/22-rdf-syntax-ns#type"

  // ---- acl: (ACL.java)
  const ACL_NS: string := "http://www.w3.org/ns/auth/acl#"
  const ACL_ACCESS: string := ACL_NS + "Access"
  const ACL_APPEND: string := ACL_NS + "Append"
  const ACL_AUTHENTICATED_AGENT: string := ACL_NS + "AuthenticatedAgent"
  const ACL_AUTHORIZATION: string := ACL_NS + "Authorization"
  const ACL_CONTROL: string := ACL_NS + "Control"
  const ACL_ORIGIN_CLASS: string := ACL_NS + "Origin"
  const ACL_READ: string := ACL_NS + "Read"
  const ACL_WRITE: string := ACL_NS + "Write"
  const ACL_ACCESS_CONTROL: string := ACL_NS + "accessControl"
  const ACL_ACCESS_TO: string := ACL_NS + "accessTo"
  const ACL_ACCESS_TO_CLASS: string := ACL_NS + "accessToClass"
  const ACL_AGENT: string := ACL_NS + "agent"
  const ACL_AGENT_CLASS: string := ACL_NS + "agentClass"
  const ACL_AGENT_GROUP: string := ACL_NS + "agentGroup"
  const ACL_DEFAULT: string := ACL_NS + "default"
  const ACL_DEFAULT_FOR_NEW: string := ACL_NS + "defaultForNew"
  const ACL_DELEGATES: string := ACL_NS + "delegates"
  const ACL_MODE: string := ACL_NS + "mode"
  const ACL_ORIGIN: string := ACL_NS + "origin"
  const ACL_OWNER: string := ACL_NS + "owner"

  // ---- cashmere: (CASHMERE.java)
  const CASHMERE_NS: string := "https://aimas.cs.pub.ro/ont/cashmere#"
  const CONSERT_CORE_NS: string := "http://pervasive.semanticweb.org/ont/2017/07/consert/core#"
  const CONTEXT_AUTHORIZED_RESOURCE: string := CASHMERE_NS + "ContextAuthorizedResource"
  const CONTEXT_BASED_ACCESS_AUTHORIZATION: string := CASHMERE_NS + "ContextBasedAccessAuthorization"
  const CONTEXT_BASED_ACCESS_CONDITION: string := CASHMERE_NS + "ContextBasedAccessCondition"
  const CONTEXT_BASED_AUTHORIZATION: string := CASHMERE_NS + "ContextBasedAuthorization"
  const CONTEXT_BASED_CONTROL_AUTHORIZATION: string := CASHMERE_NS + "ContextBasedControlAuthorization"
  const CONTEXT_DOMAIN: string := CASHMERE_NS + "ContextDomain"
  const CONTEXT_DOMAIN_CONDITION: string := CASHMERE_NS + "ContextDomainCondition"
  const CONTEXT_DOMAIN_GROUP: string := CASHMERE_NS + "ContextDomainGroup"
  const CONTEXT_MANAGEMENT_SERVICE: string := CASHMERE_NS + "ContextManagementService"
  const CONTEXT_STREAM: string := CASHMERE_NS + "ContextStream"
  const PROFILED_CONTEXT_CONDITION: string := CASHMERE_NS + "ProfiledContextCondition"
  const STATIC_CONTEXT_CONDITION: string := CASHMERE_NS + "StaticContextCondition"
  const DEFINES_GROUP: string := CASHMERE_NS + "definesGroup"
  const GROUP_FOR: string := CASHMERE_NS + "groupFor"
  const HAS_ACCESS_AUTHORIZATION: string := CASHMERE_NS + "hasAccessAuthorization"
  const HAS_ACCESS_CONDITION: string := CASHMERE_NS + "hasAccessCondition"
  const HAS_CONTEXT_DIMENSION: string := CASHMERE_NS + "hasContextDimension"
  const HAS_CONTROL_AUTHORIZATION: string := CASHMERE_NS + "hasControlAuthorization"
  const MANAGES_DOMAIN: string := CASHMERE_NS + "managesDomain"
  const MANAGES_STREAM: string := CASHMERE_NS + "managesStream"
  const MEMBER_IN: string := CASHMERE_NS + "memberIn"
  const STREAMS: string := CASHMERE_NS + "streams"
  /** The placeholder IRI that access-condition shapes use for "whoever is asking". */
  const ACCESS_REQUESTER: string := CASHMERE_NS + "accessRequester"
  const DC_DESCRIBES: string := "http://purl.org/dc/elements/1.1/describes"
  const DC_TITLE: string := "http://purl.org/dc/elements/1.1/title"
}
