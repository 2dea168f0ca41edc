# Context-aware access control for Yggdrasil, modelled in Dafny

This project models the context-aware access-control layer of Yggdrasil, a
platform for hypermedia multi-agent systems, together with a few small
independent parts of the platform.

Agents reach the platform's artifacts over HTTP. An artifact may be protected
by *context-based authorizations*. Such a rule names:

- a resource;
- the access modes it covers (the `acl:Read`, `acl:Write`, `acl:Append` and
  `acl:Control` terms of the Web Access Control vocabulary);
- the kind of entity it is granted to;
- a SHACL shape of access conditions.

The model covers these parts:

- **Authorization registry.** It maps each resource to its rules. The rules
  can be written as RDF triples and read back from them.
- **Access-control service.** It loads the rules from each artifact's policy
  at start-up. For each request it answers whether an agent may act; when a
  rule applies, it asks the context management service. It also serves the
  rules of a resource as a Web Access Control document.
- **Context management service.** It keeps the context streams and the
  context domains. A domain's store of `memberIn` triples only grows. The
  service also keeps an index of protected artifacts with their access
  conditions. It decides whether the requester's static, profiled and dynamic
  context satisfies those conditions.
- **HTTP handlers.** They take WebSub-style content deliveries, verify
  subscriptions (section 5.3 of the W3C WebSub Recommendation) and parse
  Link headers (section 3 of RFC 8288). They derive the IRI of the requested
  entity, and they filter write requests through the access-control service.
- **Smaller parts** with their own contracts:
  - the event-bus message codecs and request-method names;
  - the JSON configuration decoders;
  - the hypermedia artifact registry (action router and URL prefixes);
  - the typed-list codec of CArtAgO action parameters;
  - the two hue-lamp artifacts.

**How the model works.**

- **Classes and values.** Java classes whose fields change become Dafny
  classes with the same fields and `modifies` frames. Records, enums and
  messages become datatypes.
- **Loops.** The Java loops become `for` and `while` loops. Their invariants tie each
  loop to a specification function, and lemmas prove what the source
  promises about those functions.
- **Outside services become parameters.** These are the RDF stores, SHACL
  validation, the CSPARQL engine, Turtle parsing and serialisation, the
  event bus and the HTTP server. Each is an input the model is given:
  - an oracle function;
  - the outcome of a request;
  - or the parsed content.
- **Responses are sequences.** A handler's answer is the list of responses it
  sends. So a `fail(403)` followed by `reply(true)` shows both sends.
- **What Java does with exceptions is modelled explicitly.** Where an
  exception escapes and nothing answers, the model says so.

The model follows the code as written. Where the code does something its own
comments or a neighbouring component do not expect, a lemma states the
behaviour as written:

- **The access-control service looks up the requesting agent's IRI rather
  than the resource** (`WAC.WACVerticle.ValidateAuthorization`).
- **The filter sends the constant name `WRITE`.** `fromName` does not accept
  that name, so no access check is ever answered
  (`WAC.ConstantNameNeverValidated`, `WACHandlers.FilterEndToEnd`).
- **No case handles subscription verification in the context service.** Every
  verification of a managed topic therefore ends in 404
  (`ContextMgmtHandlers.VerifyEndToEnd`).
- **The domain constructor ignores its stream list.**
- **A null or relative URL throws past the catch.** The policy loading catches only URISyntaxException and MalformedURLException. The domain constructor also catches ConfigurationException. Neither catches the NullPointerException or IllegalArgumentException of a null or relative URL, so that ends the whole setup (`WAC.WACVerticle.SetupAuthorizationRegistry`, `ContextMgmt.ContextMgmtVerticle.SetupCDGMembershipRepo`).
- **A membership query URL that is not a plain file URI throws past both catches.** `parseRSPQLQuery` catches only URISyntaxException and IOException, so the IllegalArgumentException of `new File(URI)` for a relative path, another scheme, a host, a query or a fragment reaches `start()`, and the policies are never loaded (`Uris.ReadQuery`, `ContextMgmt.EscapingQueryUnbuildable`).
- **`getDomainFromGroup` removes every `/group`**
  (`ContextDomains.ReplacesEveryOccurrence`).
- **`isReadProtected` looks at READ only**
  (`Registry.ReadProtectionIgnoresWrite`).

## Model

| member | source | states |
|---|---|---|
| AuthorizationAccessType.FindByUri | yggdrasil-context/src/main/java/org/hyperagents/yggdrasil/auth/model/AuthorizationAccessType.java:28-35 | the linear search returns a listed type whose IRI is the argument, and nothing exactly when no listed type has that IRI |
| AuthorizationAccessType.FindByName | yggdrasil-context/src/main/java/org/hyperagents/yggdrasil/auth/model/AuthorizationAccessType.java:38-45 | the linear search returns a listed type whose name is the argument, and nothing exactly when no listed type has that name |
| AuthorizationAccessType.NamesDistinct | yggdrasil-context/src/main/java/org/hyperagents/yggdrasil/auth/model/AuthorizationAccessType.java:6-9 | the four names Read, Write, Append and Control are pairwise distinct |
| AuthorizationAccessType.UriInjective | yggdrasil-context/src/main/java/org/hyperagents/yggdrasil/auth/model/AuthorizationAccessType.java:14-17 | the IRIs, the acl: namespace followed by the name, are pairwise distinct |
| AuthorizationAccessType.FromUriOfUri | yggdrasil-context/src/main/java/org/hyperagents/yggdrasil/auth/model/AuthorizationAccessType.java:28-35 | fromUri(getUri(t)) is t for every access type |
| AuthorizationAccessType.FromUriResult | yggdrasil-context/src/main/java/org/hyperagents/yggdrasil/auth/model/AuthorizationAccessType.java:28-35 | fromUri finds a type exactly for the four mode IRIs, and the type found has the IRI asked for |
| AuthorizationAccessType.FromNameOfName | yggdrasil-context/src/main/java/org/hyperagents/yggdrasil/auth/model/AuthorizationAccessType.java:38-45 | fromName(getName(t)) is t; fromName accepts exactly "Read", "Write", "Append" and "Control", case-sensitively, so no Java constant name such as "WRITE" is found |
| AuthorizedEntityType.FindByProperty | yggdrasil-context/src/main/java/org/hyperagents/yggdrasil/auth/model/AuthorizedEntityType.java:27-34 | the linear search returns a listed type with the property asked for, and nothing exactly when no listed type has it |
| AuthorizedEntityType.PropertyInjective | yggdrasil-context/src/main/java/org/hyperagents/yggdrasil/auth/model/AuthorizedEntityType.java:6-8 | the three properties (acl: namespace + agent, agentClass, agentGroup) are pairwise distinct |
| AuthorizedEntityType.FromPropertyOfProperty | yggdrasil-context/src/main/java/org/hyperagents/yggdrasil/auth/model/AuthorizedEntityType.java:27-34 | fromProperty(getProperty(t)) is t; any string that is no type's property gives empty; a type found has the property asked for |
| Authorization.SameRuleEquivalence | yggdrasil-context/src/main/java/org/hyperagents/yggdrasil/auth/model/ContextBasedAuthorization.java:119-130 | equals is reflexive, symmetric and transitive |
| Authorization.SameRuleIgnoresEntity | yggdrasil-context/src/main/java/org/hyperagents/yggdrasil/auth/model/ContextBasedAuthorization.java:126-129 | two rules that differ only in the entity IRI are equal |
| Authorization.SameRuleSameHash | yggdrasil-context/src/main/java/org/hyperagents/yggdrasil/auth/model/ContextBasedAuthorization.java:132-140 | equal rules have equal hashCode in 32-bit arithmetic, whatever hashes the enum constants have |
| Authorization.ModeStatements | yggdrasil-context/src/main/java/org/hyperagents/yggdrasil/auth/model/ContextBasedAuthorization.java:163-166 | one acl:mode statement per access type, in list order |
| Authorization.DescriptionAt | yggdrasil-context/src/main/java/org/hyperagents/yggdrasil/auth/model/ContextBasedAuthorization.java:159-172 | the statements toModel adds, position by position: type, accessTo, the modes, the entity property, hasAccessCondition |
| Authorization.DescribeContents | yggdrasil-context/src/main/java/org/hyperagents/yggdrasil/auth/model/ContextBasedAuthorization.java:144-177 | the model of a rule has no repeated statement, is all about the instance IRI and holds exactly its type, accessTo, one mode per access type, the entity-type property to the entity and hasAccessCondition to the shape |
| Authorization.RulesFor | yggdrasil-context/src/main/java/org/hyperagents/yggdrasil/auth/model/ContextBasedAuthorization.java:199-208 | one rule per access-condition shape, in order, each for AGENT and the accessRequester placeholder, with the subject's resource and access types |
| Authorization.UnknownMode | yggdrasil-context/src/main/java/org/hyperagents/yggdrasil/auth/model/ContextBasedAuthorization.java:193-195 | reading the acl:mode objects fails exactly when one of them names no access type |
| Authorization.ParseSubjectFails | yggdrasil-context/src/main/java/org/hyperagents/yggdrasil/auth/model/ContextBasedAuthorization.java:190-216 | parsing a typed subject throws exactly when it has no acl:accessTo or an unknown acl:mode |
| Authorization.NoConditionsNoRules | yggdrasil-context/src/main/java/org/hyperagents/yggdrasil/auth/model/ContextBasedAuthorization.java:198-208 | a subject without access conditions yields no rule |
| Authorization.ParseSubjectsAppend | yggdrasil-context/src/main/java/org/hyperagents/yggdrasil/auth/model/ContextBasedAuthorization.java:190-216 | subjects are parsed independently: a failing subject is skipped and the others still give their rules |
| Authorization.ParseSubjectsMembers | yggdrasil-context/src/main/java/org/hyperagents/yggdrasil/auth/model/ContextBasedAuthorization.java:187-216 | a rule is read exactly when some typed subject has an accessTo (the first gives the resource), only known modes (they give the types) and the rule's shape among its conditions; it is for AGENT and the placeholder |
| Authorization.ParseSubjectMembers | yggdrasil-context/src/main/java/org/hyperagents/yggdrasil/auth/model/ContextBasedAuthorization.java:190-209 | the rules one subject yields are exactly those ReadsRule describes |
| Authorization.FromModelMembers | yggdrasil-context/src/main/java/org/hyperagents/yggdrasil/auth/model/ContextBasedAuthorization.java:183-219 | every rule fromModel yields comes from a typed subject and is for AGENT and the accessRequester placeholder, and every such rule is yielded |
| Authorization.ModesOfUriTerms | yggdrasil-context/src/main/java/org/hyperagents/yggdrasil/auth/model/ContextBasedAuthorization.java:193-195 | reading back the mode IRIs of some access types gives those access types, in order |
| Authorization.DescribeIsDescription | yggdrasil-context/src/main/java/org/hyperagents/yggdrasil/auth/model/ContextBasedAuthorization.java:159-177 | with distinct access types, the built model is the sequence of added statements unchanged |
| Authorization.FromModelOfDescribe | yggdrasil-context/src/main/java/org/hyperagents/yggdrasil/auth/model/ContextBasedAuthorization.java:144-208 | fromModel(toModel(a)) is one rule with a's resource, access types and shape, for AGENT and the placeholder; for an AGENT rule it equals a |
| Authorization.BuildDescription | yggdrasil-context/src/main/java/org/hyperagents/yggdrasil/auth/model/ContextBasedAuthorization.java:159-172 | the ModelBuilder adds, in order, build the description of the rule |
| Authorization.AddModes | yggdrasil-context/src/main/java/org/hyperagents/yggdrasil/auth/model/ContextBasedAuthorization.java:163-166 | adding one mode statement per access type, in order, carries the builder from the first two statements of the description to the end of its mode statements |
| Authorization.ContextBasedAuthorization.constructor | yggdrasil-context/src/main/java/org/hyperagents/yggdrasil/auth/model/ContextBasedAuthorization.java:47-56 | the five fields as given, no resource or entity name, no instance IRI yet |
| Authorization.ContextBasedAuthorization.Named | yggdrasil-context/src/main/java/org/hyperagents/yggdrasil/auth/model/ContextBasedAuthorization.java:69-79 | the fields as given and both names present |
| Authorization.ContextBasedAuthorization.HasAccessType | yggdrasil-context/src/main/java/org/hyperagents/yggdrasil/auth/model/ContextBasedAuthorization.java:94-99 | false for null, otherwise membership in the access types |
| Authorization.ContextBasedAuthorization.ToModel | yggdrasil-context/src/main/java/org/hyperagents/yggdrasil/auth/model/ContextBasedAuthorization.java:144-178 | the instance IRI is minted once from a fresh blank-node id and reused afterwards; the result is that IRI with the rule's description, or a throw when createIRI rejects an IRI |
| Authorization.DescribeNext | yggdrasil-context/src/main/java/org/hyperagents/yggdrasil/auth/model/ContextBasedAuthorization.java:153-177 | toModel on the next rule of a list extends what the earlier ones gave, keeping IRIs already minted; a failure means some rule cannot be described |
| Authorization.FirstEqual | yggdrasil-context/src/main/java/org/hyperagents/yggdrasil/auth/AuthorizationRegistry.java:49 | the index of the first rule equal to the argument, or -1 exactly when none is equal |
| Authorization.RemoveFirstEqual | yggdrasil-context/src/main/java/org/hyperagents/yggdrasil/auth/AuthorizationRegistry.java:49 | List.remove drops exactly the first rule equal to the argument, and nothing when none is |
| Authorization.NewRules | yggdrasil-context/src/main/java/org/hyperagents/yggdrasil/auth/model/ContextBasedAuthorization.java:199-208 | a new rule object per shape, in order, whose fields are RulesFor's rules |
| Authorization.FromModel | yggdrasil-context/src/main/java/org/hyperagents/yggdrasil/auth/model/ContextBasedAuthorization.java:183-219 | new rule objects whose fields are, in order, the rules FromModelRules reads |
| Authorization.SubjectRules | yggdrasil-context/src/main/java/org/hyperagents/yggdrasil/auth/model/ContextBasedAuthorization.java:191-208 | the rule objects made for one subject have, in order, the fields ParseSubject reads for it, or there are none when reading it fails; each is new and has no resource name, entity name or IRI yet |
| Registry.DocumentUri | yggdrasil-context/src/main/java/org/hyperagents/yggdrasil/auth/AuthorizationRegistry.java:87-93 | r + "/wac" exactly when r is a key, empty otherwise |
| Registry.AddAppends | yggdrasil-context/src/main/java/org/hyperagents/yggdrasil/auth/AuthorizationRegistry.java:37-45 | after add, the list of r is its old list followed by a; every other resource keeps its list and its presence; r has a document |
| Registry.AddGrants | yggdrasil-context/src/main/java/org/hyperagents/yggdrasil/auth/AuthorizationRegistry.java:58-68 | after add, r is protected for t exactly when it was before or t is one of a's access types |
| Registry.OperationsKeepInvariant | yggdrasil-context/src/main/java/org/hyperagents/yggdrasil/auth/AuthorizationRegistry.java:39-55 | add and remove both keep "no key maps to an empty list" |
| Registry.RemoveDropsFirst | yggdrasil-context/src/main/java/org/hyperagents/yggdrasil/auth/AuthorizationRegistry.java:47-56 | remove drops only the first rule equal to a from r's list, touches no other resource, and an emptied r has no document |
| Registry.RemoveAbsent | yggdrasil-context/src/main/java/org/hyperagents/yggdrasil/auth/AuthorizationRegistry.java:47-53 | removing from a resource without rules changes nothing |
| Registry.UnknownResource | yggdrasil-context/src/main/java/org/hyperagents/yggdrasil/auth/AuthorizationRegistry.java:33-35 | an unknown resource has the empty list, no access type and no document |
| Registry.AuthorizationRegistry.constructor | yggdrasil-context/src/main/java/org/hyperagents/yggdrasil/auth/AuthorizationRegistry.java:21-23 | the map starts empty |
| Registry.AuthorizationRegistry.GetContextAuthorisations | yggdrasil-context/src/main/java/org/hyperagents/yggdrasil/auth/AuthorizationRegistry.java:33-35 | the empty list for an unknown resource; under the invariant, a non-empty list exactly for keys |
| Registry.AuthorizationRegistry.AddContextAuthorisation | yggdrasil-context/src/main/java/org/hyperagents/yggdrasil/auth/AuthorizationRegistry.java:37-45 | the map becomes AddTo of the old map, and the invariant is kept |
| Registry.AuthorizationRegistry.RemoveContextAuthorisation | yggdrasil-context/src/main/java/org/hyperagents/yggdrasil/auth/AuthorizationRegistry.java:47-56 | the map becomes RemoveFrom of the old map, and the invariant is kept |
| Registry.AuthorizationRegistry.HasAccessAuthorization | yggdrasil-context/src/main/java/org/hyperagents/yggdrasil/auth/AuthorizationRegistry.java:58-68 | the early-return scan answers whether some rule of r grants t |
| Registry.AuthorizationRegistry.IsReadProtected | yggdrasil-context/src/main/java/org/hyperagents/yggdrasil/auth/AuthorizationRegistry.java:70-73 | READ only, although the comment also mentions write access |
| Registry.AuthorizationRegistry.IsWriteProtected | yggdrasil-context/src/main/java/org/hyperagents/yggdrasil/auth/AuthorizationRegistry.java:75-77 | some rule grants WRITE or APPEND |
| Registry.AuthorizationRegistry.IsControlProtected | yggdrasil-context/src/main/java/org/hyperagents/yggdrasil/auth/AuthorizationRegistry.java:79-81 | some rule grants CONTROL |
| Registry.AuthorizationRegistry.GetAuthorisationDocumentURI | yggdrasil-context/src/main/java/org/hyperagents/yggdrasil/auth/AuthorizationRegistry.java:87-93 | r + "/wac" exactly when r is a key |
| Registry.ReadProtectionIgnoresWrite | yggdrasil-context/src/main/java/org/hyperagents/yggdrasil/auth/AuthorizationRegistry.java:70-77 | a resource protected only for WRITE is write-protected but not read-protected |
| ContextDomains.GroupFromDomain | yggdrasil-context/src/main/java/org/hyperagents/yggdrasil/context/ContextDomain.java:205-208 | the domain IRI followed by exactly "/group" |
| ContextDomains.Step | yggdrasil-context/src/main/java/org/hyperagents/yggdrasil/context/ContextDomain.java:139-153 | a triple is inserted only when its predicate is memberIn, skipped exactly when its predicate is a valid IRI other than memberIn, and otherwise throws |
| ContextDomains.ConsumeGrows | yggdrasil-context/src/main/java/org/hyperagents/yggdrasil/context/ContextDomain.java:135-157 | consuming a graph keeps the old store as a prefix, repeats no statement, and adds only memberIn triples of the graph |
| ContextDomains.ConsumeIgnoresOthers | yggdrasil-context/src/main/java/org/hyperagents/yggdrasil/context/ContextDomain.java:137-154 | a graph without memberIn triples leaves the store unchanged |
| ContextDomains.ConsumeTwice | yggdrasil-context/src/main/java/org/hyperagents/yggdrasil/context/ContextDomain.java:150-152 | consuming the same memberIn triple twice stores it once |
| ContextDomains.ConsumeStopsAtFailure | yggdrasil-context/src/main/java/org/hyperagents/yggdrasil/context/ContextDomain.java:135-157 | a triple that throws ends the graph: earlier inserts stay, later triples are not read |
| ContextDomains.DomainOfGroup | yggdrasil-context/src/main/java/org/hyperagents/yggdrasil/context/ContextDomain.java:205-213 | getDomainFromGroup(getGroupFromDomain(d)) is d when d contains no "/group" |
| ContextDomains.ReplacesEveryOccurrence | yggdrasil-context/src/main/java/org/hyperagents/yggdrasil/context/ContextDomain.java:210-213 | every "/group" is removed, so a domain containing one does not come back from its group IRI |
| ContextDomains.ContextDomain.constructor | yggdrasil-context/src/main/java/org/hyperagents/yggdrasil/context/ContextDomain.java:71-96 | the IRIs and query list as given; the stream list is never stored and the store starts empty; when the engine starts every query URL is recorded, and when a URI syntax error, malformed URL or bad configuration is caught none is; the exceptions that escape the catch (a null or relative engine URL, a query URL new File rejects) are checked by its caller PutDomain |
| ContextDomains.ContextDomain.GetContextDomainGroupURI | yggdrasil-context/src/main/java/org/hyperagents/yggdrasil/context/ContextDomain.java:164-167 | the group IRI of the domain |
| ContextDomains.ContextDomain.UpdateMembershipConsumer | yggdrasil-context/src/main/java/org/hyperagents/yggdrasil/context/ContextDomain.java:127-158 | the store becomes Consume of the old store; nothing else changes |
| ContextDomains.ContextDomain.VerifyMembership | yggdrasil-context/src/main/java/org/hyperagents/yggdrasil/context/ContextDomain.java:169-183 | true exactly when (a, memberIn, domain + "/group") is stored; false where an IRI is rejected |
| ContextDomains.ContextDomain.GetMembershipStatements | yggdrasil-context/src/main/java/org/hyperagents/yggdrasil/context/ContextDomain.java:185-200 | every stored memberIn statement for any group or, with a requester, exactly those whose subject is the requester; empty where the requester is no IRI |
| ContextDomains.MemberAfterConsume | yggdrasil-context/src/main/java/org/hyperagents/yggdrasil/context/ContextDomain.java:127-178 | after consuming (a, memberIn, g) that statement is stored |
| ContextStreams.DataStream.constructor | yggdrasil-context/src/main/java/org/hyperagents/yggdrasil/context/ContextStream.java:48 | a new data stream named by the stream URI, with nothing put into it |
| ContextStreams.DataStream.Put | yggdrasil-context/src/main/java/org/hyperagents/yggdrasil/context/ContextStream.java:113 | the timestamped graph is appended |
| ContextStreams.ExtractStreamName | yggdrasil-context/src/main/java/org/hyperagents/yggdrasil/context/ContextStream.java:132-154 | "unnamed" for an unparsable URI; the host (possibly null) for a null, empty or "/" path; otherwise the last element of the Java split on "/", and "unnamed" when that split is empty |
| ContextStreams.ContextStream.constructor | yggdrasil-context/src/main/java/org/hyperagents/yggdrasil/context/ContextStream.java:37-89 | the URI and ontology as given, the name extracted, a null assertion list as empty and other lists copied in order, a fresh data stream and timestamp 0; the stream is a single-assertion stream exactly when a list of one type was given |
| ContextStreams.ContextStream.UpdateStream | yggdrasil-context/src/main/java/org/hyperagents/yggdrasil/context/ContextStream.java:112-115 | the graph goes to the current data stream and the timestamp becomes t, with no monotonic check |
| ContextStreams.ContextStream.SetWritableStream | yggdrasil-context/src/main/java/org/hyperagents/yggdrasil/context/ContextStream.java:122-124 | later updates go to the new data stream; the timestamp is kept |
| ContextStreams.AllSlashPath | yggdrasil-context/src/main/java/org/hyperagents/yggdrasil/context/ContextStream.java:141-152 | a path of two or more slashes gives "unnamed" |
| ContextMgmt.PolicyKeyInjective | yggdrasil-context/src/main/java/org/hyperagents/yggdrasil/context/http/ContextMgmtVerticle.java:284-285 | within one workspace, two artifacts with the same policy-index key have the same name |
| ContextMgmt.ArtifactEntries | yggdrasil-context/src/main/java/org/hyperagents/yggdrasil/context/http/ContextMgmtVerticle.java:281-286 | the pairs visited in a workspace are exactly the (served IRI, policy URL) pairs of its artifacts that have a policy |
| ContextMgmt.PolicyEntriesMembers | yggdrasil-context/src/main/java/org/hyperagents/yggdrasil/context/http/ContextMgmtVerticle.java:279-286 | a pair is visited exactly when it is the (served IRI, policy URL) pair of an artifact with a policy in some workspace |
| ContextMgmt.LoadPoliciesResult | yggdrasil-context/src/main/java/org/hyperagents/yggdrasil/context/http/ContextMgmtVerticle.java:279-313 | loading succeeds exactly when every key is an IRI and every policy loads; only visited keys enter the index; after success every key is indexed; a failing key is indexed all the same |
| ContextMgmt.ContinuedKeepsKey | yggdrasil-context/src/main/java/org/hyperagents/yggdrasil/context/http/ContextMgmtVerticle.java:280-313 | loading further entries never removes a key from the policy index |
| ContextMgmt.LoadPoliciesAppend | yggdrasil-context/src/main/java/org/hyperagents/yggdrasil/context/http/ContextMgmtVerticle.java:280-313 | loading a + b is loading a and then, if that did not throw, loading b from the state reached |
| ContextMgmt.Customize | yggdrasil-context/src/main/java/org/hyperagents/yggdrasil/context/http/ContextMgmtVerticle.java:410-423 | the requester substitution fails exactly when a placeholder meets a requester that is not an IRI; otherwise each statement keeps its position and only placeholder objects become the requester IRI |
| ContextMgmt.CustomizeWithoutPlaceholder | yggdrasil-context/src/main/java/org/hyperagents/yggdrasil/context/http/ContextMgmtVerticle.java:413-419 | conditions without the placeholder come back unchanged, whoever the requester |
| ContextMgmt.UnprotectedAllowed | yggdrasil-context/src/main/java/org/hyperagents/yggdrasil/context/http/ContextMgmtVerticle.java:433-439 | a resource outside the policy index is answered with true at once, whatever the context |
| ContextMgmt.UnreadableConditionsAllowed | yggdrasil-context/src/main/java/org/hyperagents/yggdrasil/context/http/ContextMgmtVerticle.java:392-407 | when the access conditions cannot be read access is allowed by default |
| ContextMgmt.CompletedEndsAllowing | yggdrasil-context/src/main/java/org/hyperagents/yggdrasil/context/http/ContextMgmtVerticle.java:492-518 | every validation that completes ends with reply(true), and a 403 is sent first exactly when the validation rejects |
| ContextMgmt.RejectedSendsBoth | yggdrasil-context/src/main/java/org/hyperagents/yggdrasil/context/http/ContextMgmtVerticle.java:492-518 | a rejected validation sends the 403 with the denial message and then reply(true) |
| ContextMgmt.BadRequesterRejected | yggdrasil-context/src/main/java/org/hyperagents/yggdrasil/context/http/ContextMgmtVerticle.java:413-415 | a requester that is not an IRI, against conditions with a placeholder, ends in IllegalArgumentException before any validation |
| ContextMgmt.Deliver | yggdrasil-context/src/main/java/org/hyperagents/yggdrasil/context/http/ContextMgmtVerticle.java:324-356 | the dispatcher adds a 400 "arguments badly formatted" after an IllegalArgumentException, lets other exceptions escape, and passes completed runs through |
| ContextMgmt.FirstUnbuildable | yggdrasil-context/src/main/java/org/hyperagents/yggdrasil/context/http/ContextMgmtVerticle.java:198-216 | the index of the first domain that needs an unregistered stream or whose constructor throws past its catch (a null or relative engine URL, or a started engine and a query URL new File rejects): every earlier domain can be built and that one cannot |
| ContextMgmt.ContextMgmtVerticle.constructor | yggdrasil-context/src/main/java/org/hyperagents/yggdrasil/context/http/ContextMgmtVerticle.java:103-108 | a new service has its URI and context repositories and no streams, domains, policies or conditions |
| ContextMgmt.ContextMgmtVerticle.InitializeContextStreams | yggdrasil-context/src/main/java/org/hyperagents/yggdrasil/context/http/ContextMgmtVerticle.java:226-243 | a fresh stream is registered under each configured URI, later entries replacing earlier ones; other entries and the rest of the state are unchanged |
| ContextMgmt.ContextMgmtVerticle.SetupCDGMembershipRepo | yggdrasil-context/src/main/java/org/hyperagents/yggdrasil/context/http/ContextMgmtVerticle.java:196-218 | domains are registered in order up to the first one that needs an unknown stream or whose constructor throws past its catch, on its engine URL or on a query URL; the setup succeeds exactly when there is none; each registered domain is new and empty and nothing but the domain map changes |
| ContextMgmt.ContextMgmtVerticle.PutDomain | yggdrasil-context/src/main/java/org/hyperagents/yggdrasil/context/http/ContextMgmtVerticle.java:208-216 | the constructor throws past its catch exactly when the engine URL is null or relative, or the engine starts and some query URL makes new File throw; then nothing is registered; otherwise the domain is put under its URI (a later entry replacing an earlier one) as a new domain with the configured URI, engine URL and rule list, an empty store, every query recorded when the engine starts and none when it does not; every other key and every other map stay as they were |
| ContextMgmt.ContextMgmtVerticle.PutNextDomain | yggdrasil-context/src/main/java/org/hyperagents/yggdrasil/context/http/ContextMgmtVerticle.java:208-216 | one step of the domain loop: domain i is built exactly when it comes before the first unbuildable domain; then it is new and empty under its URI and every other entry stays |
| ContextMgmt.QueryEscapesAtIs | yggdrasil-context/src/main/java/org/hyperagents/yggdrasil/context/ContextDomain.java:112-113 | the registration loop reaches, without an exception, every query URL before the first one new File rejects |
| ContextMgmt.EscapingQueryUnbuildable | yggdrasil-context/src/main/java/org/hyperagents/yggdrasil/context/ContextDomain.java:112-113 | once the engine starts, any query URL new File rejects makes its domain unbuildable |
| ContextMgmt.UnstartedEngineIgnoresQueries | yggdrasil-context/src/main/java/org/hyperagents/yggdrasil/context/ContextDomain.java:86-90 | when the engine URL has a syntax error or the configuration does not load, the exception is caught before any query URL is read, so the domain is built whatever its queries are |
| ContextMgmt.ContextMgmtVerticle.LoadWorkspacePolicies | yggdrasil-context/src/main/java/org/hyperagents/yggdrasil/context/http/ContextMgmtVerticle.java:281-312 | the inner loop leaves the index and graphs in the state the loading function gives for the workspace's entries |
| ContextMgmt.ContextMgmtVerticle.SetupContextAccessConditionsRepo | yggdrasil-context/src/main/java/org/hyperagents/yggdrasil/context/http/ContextMgmtVerticle.java:274-314 | the index and the condition graphs are what loading every workspace's entries gives, stopping at the first failure |
| ContextMgmt.ContextMgmtVerticle.Setup | yggdrasil-context/src/main/java/org/hyperagents/yggdrasil/context/http/ContextMgmtVerticle.java:110-126 | the stream keys grow by the configured URIs and the domain keys by those of the domains before the first unbuildable one; an unbuildable domain ends the setup with the policies untouched; when every domain builds, the index, the condition graphs and the result are what loading every workspace's policy pairs gives |
| ContextMgmt.ContextMgmtVerticle.AddDynamicContext | yggdrasil-context/src/main/java/org/hyperagents/yggdrasil/context/http/ContextMgmtVerticle.java:539-568 | the dynamic context is the membership statements of the requester's groups, none for a failed group query, and throws on a group of an unknown domain |
| ContextMgmt.ContextMgmtVerticle.DynamicContextDefined | yggdrasil-context/src/main/java/org/hyperagents/yggdrasil/context/http/ContextMgmtVerticle.java:539-568 | the dynamic context exists exactly when the domain of every group is registered, and then holds exactly the memberIn statements stored by those domains |
| ContextMgmt.ContextMgmtVerticle.ProtectedResources | yggdrasil-context/src/main/java/org/hyperagents/yggdrasil/context/http/ContextMgmtVerticle.java:387-389 | once the index is what loading the environment gives, a protected resource was indexed before or is the served IRI of an artifact with a policy; after a successful load every such artifact is protected |
| ContextMgmt.ContextMgmtVerticle.CustomizeAccessConditions | yggdrasil-context/src/main/java/org/hyperagents/yggdrasil/context/http/ContextMgmtVerticle.java:410-423 | the array ends up as the substituted conditions, or unchanged where the requester cannot become an IRI |
| ContextMgmt.ContextMgmtVerticle.ValidateContextBasedAccess | yggdrasil-context/src/main/java/org/hyperagents/yggdrasil/context/http/ContextMgmtVerticle.java:426-519 | the outcome is the validation decision for the service's index, conditions and contexts |
| ContextMgmt.ContextMgmtVerticle.UpdateContextStream | yggdrasil-context/src/main/java/org/hyperagents/yggdrasil/context/http/ContextMgmtVerticle.java:360-381 | an unknown stream gets 404 "Unknown stream: " and its URI; unparsable content throws; otherwise the graph is put on the stream with its timestamp |
| ContextMgmt.ContextMgmtVerticle.HandleMessage | yggdrasil-context/src/main/java/org/hyperagents/yggdrasil/context/http/ContextMgmtVerticle.java:319-381 | each request kind gets its operation's responses; subscription verification, which has no case, gets 400; an update of a known stream with parsable content puts the graph on that stream with its timestamp and replies "Stream " + URI + " updated successfully.", and unparsable content escapes with nothing answered |
| ContextMgmtHandlers.DropWs | yggdrasil-context/src/main/java/org/hyperagents/yggdrasil/context/http/ContextMgmtHandler.java:27 | dropping leading white space never lengthens the text and leaves it starting with a non-space |
| ContextMgmtHandlers.FindFrom | yggdrasil-context/src/main/java/org/hyperagents/yggdrasil/context/http/ContextMgmtHandler.java:27 | the first position at or after k holding the character, or none when no later position holds it |
| ContextMgmtHandlers.MatchAt | yggdrasil-context/src/main/java/org/hyperagents/yggdrasil/context/http/ContextMgmtHandler.java:27 | a match at i starts with '<', its group holds no '>', and the group is followed by '>' and the self relation |
| ContextMgmtHandlers.FirstMatch | yggdrasil-context/src/main/java/org/hyperagents/yggdrasil/context/http/ContextMgmtHandler.java:178-184 | find() gives the leftmost position where the pattern matches, and none when it matches nowhere |
| ContextMgmtHandlers.ExtractSelfLink | yggdrasil-context/src/main/java/org/hyperagents/yggdrasil/context/http/ContextMgmtHandler.java:178-184 | the self link is null exactly when the pattern matches nowhere; otherwise it is the group of the leftmost match and holds no '>' |
| ContextMgmtHandlers.NoAngleNoLink | yggdrasil-context/src/main/java/org/hyperagents/yggdrasil/context/http/ContextMgmtHandler.java:178-184 | a header without '<' has no self link |
| ContextMgmtHandlers.SelfRelOfWrittenParams | yggdrasil-context/src/main/java/org/hyperagents/yggdrasil/context/http/ContextMgmtHandler.java:27 | the parameters "; rel=\"self\"" satisfy the self-relation part of the pattern |
| ContextMgmtHandlers.SelfLinkOfLinkHeader | yggdrasil-context/src/main/java/org/hyperagents/yggdrasil/context/http/ContextMgmtHandler.java:178-184 | a header "<u>; rel=\"self\"…" gives back u as its self link |
| ContextMgmtHandlers.WrapInt64 | yggdrasil-context/src/main/java/org/hyperagents/yggdrasil/context/http/ContextMgmtHandler.java:124 | longValue keeps the number modulo 2^64 |
| ContextMgmtHandlers.VertxLongOr | yggdrasil-context/src/main/java/org/hyperagents/yggdrasil/context/http/ContextMgmtHandler.java:124 | getLong with a default: the default when absent, the 64-bit value of a number, a failure for anything else |
| ContextMgmtHandlers.DeliveryChecks | yggdrasil-context/src/main/java/org/hyperagents/yggdrasil/context/http/ContextMgmtHandler.java:98-133 | no Link header gives 400; a missing or unmanaged self link 404; the message is sent only for a managed link with a payload holding a non-empty graph |
| ContextMgmtHandlers.DeliveryReply | yggdrasil-context/src/main/java/org/hyperagents/yggdrasil/context/http/ContextMgmtHandler.java:144-161 | success gives 200; a service failure its code and message; any other failure 500 with "unknown error" |
| ContextMgmtHandlers.MissingTimestampIsZero | yggdrasil-context/src/main/java/org/hyperagents/yggdrasil/context/http/ContextMgmtHandler.java:124 | a payload without a timestamp is delivered with timestamp 0 |
| ContextMgmtHandlers.ContextMgmtHandler.constructor | yggdrasil-context/src/main/java/org/hyperagents/yggdrasil/context/http/ContextMgmtHandler.java:38-46 | the managed stream URIs are those of the configuration, in order |
| ContextMgmtHandlers.ContextMgmtHandler.HandleVerify | yggdrasil-context/src/main/java/org/hyperagents/yggdrasil/context/http/ContextMgmtHandler.java:62-89 | the service is asked exactly for a subscribe request with a challenge on a managed topic; success echoes the challenge with 200, everything else gets 404 |
| ContextMgmtHandlers.ContextMgmtHandler.HandleContextStreamUpdate | yggdrasil-context/src/main/java/org/hyperagents/yggdrasil/context/http/ContextMgmtHandler.java:95-170 | the reply is that of the delivery checks, or of the service's answer once sent, or 500 with the exception's message |
| ContextMgmtHandlers.VerifyEndToEnd | yggdrasil-context/src/main/java/org/hyperagents/yggdrasil/context/http/ContextMgmtHandler.java:62-89 | against the service itself, an enabled verification always ends in 404, since the service answers it with 400 |
| WAC.View | yggdrasil-context/src/main/java/org/hyperagents/yggdrasil/auth/http/WACVerticle.java:116-119 | the view of the registry has its resources and, under each, the record fields of its rule objects |
| WAC.ViewOfAdd | yggdrasil-context/src/main/java/org/hyperagents/yggdrasil/auth/http/WACVerticle.java:117-119 | adding a rule object under its resource adds its fields to the view |
| WAC.AddStep | yggdrasil-context/src/main/java/org/hyperagents/yggdrasil/auth/http/WACVerticle.java:117-119 | each rule object added moves the view one rule further along the list |
| WAC.AddRulesAppend | yggdrasil-context/src/main/java/org/hyperagents/yggdrasil/auth/http/WACVerticle.java:105-130 | adding the rules of a + b is adding those of a, then those of b |
| WAC.AddRulesContains | yggdrasil-context/src/main/java/org/hyperagents/yggdrasil/auth/http/WACVerticle.java:117-119 | after adding, every rule is listed under its resource, every resource keeps its old rules first, and no other resource appears |
| WAC.ArtifactRulesContain | yggdrasil-context/src/main/java/org/hyperagents/yggdrasil/auth/http/WACVerticle.java:105-130 | an artifact before the first one whose policy URL throws contributes all the rules of its readable policy, whatever happens with the other artifacts before it |
| Uris.ToUrl | yggdrasil-context/src/main/java/org/hyperagents/yggdrasil/auth/http/WACVerticle.java:111 | new URI(s).toURL() throws a NullPointerException exactly for null, and otherwise gives a URL only for a string with a non-empty scheme, throws IllegalArgumentException only for one without a scheme, and a syntax error where the parser rejects the string |
| Uris.SchemeGivesAbsolute | yggdrasil-context/src/main/java/org/hyperagents/yggdrasil/auth/http/WACVerticle.java:111 | a non-empty scheme followed by ':' gives an absolute URL once the string parses |
| Uris.RelativeThrows | yggdrasil-context/src/main/java/org/hyperagents/yggdrasil/auth/http/WACVerticle.java:111 | a relative path such as "policies/lamp.ttl" ends in an exception that neither call site catches |
| Uris.BareNameThrows | yggdrasil-context/src/main/java/org/hyperagents/yggdrasil/context/ContextDomain.java:96 | a bare file name without ':', '/', '?' or '#' is not absolute, so toURL throws |
| Uris.ReadQuery | yggdrasil-context/src/main/java/org/hyperagents/yggdrasil/context/http/Utils.java:65-87 | new File(new URI(q)) ends in a caught syntax error exactly when the parser rejects q, gives a file exactly for an absolute URI with scheme "file" (any case) and a plain path, and otherwise throws an IllegalArgumentException parseRSPQLQuery does not catch |
| Uris.RelativeQueryEscapes | yggdrasil-context/src/main/java/org/hyperagents/yggdrasil/context/http/Utils.java:68-70 | a relative query path such as "rules/q.rspql" makes new File throw |
| Uris.OtherSchemeQueryEscapes | yggdrasil-context/src/main/java/org/hyperagents/yggdrasil/context/http/Utils.java:68-70 | a query URL with a scheme other than file, such as "http://h/q.rspql", makes new File throw |
| Uris.FileQueryRead | yggdrasil-context/src/main/java/org/hyperagents/yggdrasil/context/http/Utils.java:68-70 | "file:" or "FILE:" followed by a plain path is read as a file |
| Uris.FileWithHostEscapes | yggdrasil-context/src/main/java/org/hyperagents/yggdrasil/context/http/Utils.java:68-70 | a file URI with a host, such as "file://h/q.rspql", makes new File throw |
| WAC.FirstEscape | yggdrasil-context/src/main/java/org/hyperagents/yggdrasil/auth/http/WACVerticle.java:105-130 | the index of the first artifact whose policy URL throws out of the loop: no earlier one does, and that one does |
| WAC.FirstEscapeAppend | yggdrasil-context/src/main/java/org/hyperagents/yggdrasil/auth/http/WACVerticle.java:105-130 | with no throwing artifact in a, the first in a + b is found in b |
| WAC.ArtifactRulesAppend | yggdrasil-context/src/main/java/org/hyperagents/yggdrasil/auth/http/WACVerticle.java:105-130 | the rules of a + b are the rules of a followed by those of b |
| WAC.EscapeRules | yggdrasil-context/src/main/java/org/hyperagents/yggdrasil/auth/http/WACVerticle.java:105-130 | when an artifact of workspace w throws, the rules added overall are those of the earlier workspaces followed by those of w's artifacts before it |
| WAC.WorkspaceStep | yggdrasil-context/src/main/java/org/hyperagents/yggdrasil/auth/http/WACVerticle.java:105-130 | one workspace more moves the registry from the rules before it to the rules up to its end, or to the final state where it throws |
| WAC.UnionContents | yggdrasil-context/src/main/java/org/hyperagents/yggdrasil/auth/http/WACVerticle.java:183-187 | the merged model holds exactly the statements of the parts' models |
| WAC.DescribeAll | yggdrasil-context/src/main/java/org/hyperagents/yggdrasil/auth/http/WACVerticle.java:183-187 | each rule is described in turn; the result is the union of the descriptions, fails exactly when some rule cannot be described, and keeps existing instance IRIs |
| WAC.WACVerticle.constructor | yggdrasil-context/src/main/java/org/hyperagents/yggdrasil/auth/http/WACVerticle.java:66-94 | the service holds the given registry and message-box setting |
| WAC.WACVerticle.AddAuthorisations | yggdrasil-context/src/main/java/org/hyperagents/yggdrasil/auth/http/WACVerticle.java:117-119 | the registry grows by exactly the given rules, in order, and stays well formed |
| WAC.WACVerticle.LoadArtifactPolicy | yggdrasil-context/src/main/java/org/hyperagents/yggdrasil/auth/http/WACVerticle.java:107-127 | one artifact's policy rules are added, none when it has no policy URL, the URL does not parse or reading fails; it throws out of the loop exactly when the URL is relative, and then nothing is added |
| WAC.WACVerticle.LoadWorkspace | yggdrasil-context/src/main/java/org/hyperagents/yggdrasil/auth/http/WACVerticle.java:106-129 | the rules of the workspace's artifacts are added in order up to the first one whose policy URL throws; it throws exactly when there is one |
| WAC.WACVerticle.SetupAuthorizationRegistry | yggdrasil-context/src/main/java/org/hyperagents/yggdrasil/auth/http/WACVerticle.java:96-131 | the registry grows by the rules of every readable policy, in order, of the environment's artifacts before the first relative policy URL; the setup throws exactly when there is such a URL; an unparsable URL or a failed read skips that artifact only |
| WAC.WACVerticle.ValidateAuthorization | yggdrasil-context/src/main/java/org/hyperagents/yggdrasil/auth/http/WACVerticle.java:201-227 | an unknown access-type name throws with nothing answered; with no applicable rule the answer is true; otherwise the context service is asked and success gives true, failure 403 |
| WAC.WACVerticle.GetWACRepresentation | yggdrasil-context/src/main/java/org/hyperagents/yggdrasil/auth/http/WACVerticle.java:159-199 | a resource without rules gets 404 with a JSON error; otherwise the serialized union of its rules' descriptions, or 500; an undescribable rule throws |
| WAC.WACVerticle.HandleMessage | yggdrasil-context/src/main/java/org/hyperagents/yggdrasil/auth/http/WACVerticle.java:133-227 | a null body throws; an access request answers true for an unknown resource type with no rule, throws for an unknown access-type name, and otherwise asks the context service and answers true or 403; a document request answers 404 with "Resource" + IRI + " has no WAC policy" for a resource without rules, otherwise the serialized descriptions or 500, and throws when a rule cannot be described |
| WAC.ConstantNameNeverValidated | yggdrasil-context/src/main/java/org/hyperagents/yggdrasil/auth/http/WACHandler.java:194 | the Java constant names of the access types are not access-mode names, so a request naming one is never answered |
| WACHandlers.EntityIRI | yggdrasil-context/src/main/java/org/hyperagents/yggdrasil/auth/http/WACHandler.java:80 | the entity IRI is the base URI followed by the path up to its last '/', and none (an exception) when the path has no '/' |
| WACHandlers.EntityIRIOfAction | yggdrasil-context/src/main/java/org/hyperagents/yggdrasil/auth/http/WACHandler.java:175 | the path of an action on an entity gives back the entity's IRI |
| WACHandlers.DocumentLinkSelf | yggdrasil-context/src/main/java/org/hyperagents/yggdrasil/auth/http/WACHandler.java:155-162 | the Link value of a document reads back, through the self-link parser, as the document's IRI |
| WACHandlers.PutHeaders | yggdrasil-context/src/main/java/org/hyperagents/yggdrasil/auth/http/WACHandler.java:124-130 | a header named Link in any case keeps its list of values; any other gets them joined with ',' |
| WACHandlers.JoinedMethods | yggdrasil-context/src/main/java/org/hyperagents/yggdrasil/auth/http/WACHandler.java:128 | the allowed methods header is sent as "GET,POST,PUT,DELETE,HEAD,OPTIONS" |
| WACHandlers.HeaderNames | yggdrasil-context/src/main/java/org/hyperagents/yggdrasil/auth/http/WACHandler.java:118-130 | only the Link header name counts as Link, and the five header names are distinct |
| WACHandlers.PutDocumentHeaders | yggdrasil-context/src/main/java/org/hyperagents/yggdrasil/auth/http/WACHandler.java:121-130 | the merged document and CORS headers come out as the link kept whole and the CORS values joined |
| WACHandlers.DocumentHeadersExact | yggdrasil-context/src/main/java/org/hyperagents/yggdrasil/auth/http/WACHandler.java:116-130 | a served document carries exactly five headers: the Turtle type, its self link and the three CORS headers |
| WACHandlers.DocumentReply | yggdrasil-context/src/main/java/org/hyperagents/yggdrasil/auth/http/WACHandler.java:112-152 | success gives 200 with the document headers and body (empty when there is none); a 404 failure gives 404, other failures 500; a failure that is not a reply exception answers nothing |
| WACHandlers.WACHandler.constructor | yggdrasil-context/src/main/java/org/hyperagents/yggdrasil/auth/http/WACHandler.java:50-69 | the handler holds the base URI and the registry |
| WACHandlers.WACHandler.HandleWACRepresentation | yggdrasil-context/src/main/java/org/hyperagents/yggdrasil/auth/http/WACHandler.java:75-105 | a path without '/' throws; an entity without rules gets 404 without asking the store; otherwise its document IRI is asked and the reply served |
| WACHandlers.WACHandler.FilterAccess | yggdrasil-context/src/main/java/org/hyperagents/yggdrasil/auth/http/WACHandler.java:168-218 | a write-protected artifact is passed on only if the validation request, with the four bus headers, succeeds, otherwise 401; without an X-Agent-WebID header addHeader throws and nothing is sent; others are passed on at once |
| WACHandlers.ValidationHeadersFields | yggdrasil-context/src/main/java/org/hyperagents/yggdrasil/auth/http/WACHandler.java:191-194 | the validation request carries exactly four headers: the validate method, the artifact IRI, the constant name WRITE and the agent |
| WACHandlers.BusHeaderNamesDistinct | yggdrasil-context/src/main/java/org/hyperagents/yggdrasil/auth/http/WACVerticle.java:53-56 | the four bus header names are pairwise distinct |
| WACHandlers.FilterEndToEnd | yggdrasil-context/src/main/java/org/hyperagents/yggdrasil/auth/http/WACHandler.java:187-211 | the validation request has a null body, so against the access-control service every request to an artifact with a WRITE or APPEND rule is refused with 401, or throws in the filter when it names no agent |
| Utils.CorsHeadersExact | yggdrasil-context/src/main/java/org/hyperagents/yggdrasil/context/http/Utils.java:134-150 | exactly three CORS headers: any origin, credentials allowed, and GET, POST, PUT, DELETE, HEAD, OPTIONS in that order |
| Utils.LocalNameOfPlainName | yggdrasil-context/src/main/java/org/hyperagents/yggdrasil/context/http/Utils.java:55-63 | a name with neither '/' nor '#' is its own local name |
| Utils.LocalNameIsLastSegment | yggdrasil-context/src/main/java/org/hyperagents/yggdrasil/context/http/Utils.java:57-58 | without a fragment the local name is the last segment, trailing slashes ignored as split drops them |
| Utils.LocalNameIgnoresTrailingSlash | yggdrasil-context/src/main/java/org/hyperagents/yggdrasil/context/http/Utils.java:57-58 | a trailing '/' does not change the local name |
| Utils.LocalNameOfSlashes | yggdrasil-context/src/main/java/org/hyperagents/yggdrasil/context/http/Utils.java:57-58 | a string of slashes only has no last piece, and the lookup throws |
| Utils.LocalNameOfFragment | yggdrasil-context/src/main/java/org/hyperagents/yggdrasil/context/http/Utils.java:59-61 | with a fragment the local name is the text between the first '#' and the next '#' or the end |
| Utils.LocalNameOfEmptyFragment | yggdrasil-context/src/main/java/org/hyperagents/yggdrasil/context/http/Utils.java:59-61 | a name ending in '#' splits into one piece, and index 1 throws |
| RequestMethods.GetName | yggdrasil-utils/src/main/java/org/hyperagents/yggdrasil/eventbus/codecs/MessageRequestMethods.java:34-44 | every name is the shared prefix followed by the declared name |
| RequestMethods.FirstNamed | yggdrasil-utils/src/main/java/org/hyperagents/yggdrasil/eventbus/codecs/MessageRequestMethods.java:47 | the first constant with the name, and none exactly when no constant has it |
| RequestMethods.GetFromName | yggdrasil-utils/src/main/java/org/hyperagents/yggdrasil/eventbus/codecs/MessageRequestMethods.java:46-48 | a constant found by name has that name |
| RequestMethods.InValues | yggdrasil-utils/src/main/java/org/hyperagents/yggdrasil/eventbus/codecs/MessageRequestMethods.java:6-32 | values() lists every constant |
| RequestMethods.SuffixInjective | yggdrasil-utils/src/main/java/org/hyperagents/yggdrasil/eventbus/codecs/MessageRequestMethods.java:7-31 | the declared names are pairwise distinct |
| RequestMethods.NameInjective | yggdrasil-utils/src/main/java/org/hyperagents/yggdrasil/eventbus/codecs/MessageRequestMethods.java:38-44 | two constants have the same name exactly when they are the same constant |
| RequestMethods.FromNameOfName | yggdrasil-utils/src/main/java/org/hyperagents/yggdrasil/eventbus/codecs/MessageRequestMethods.java:46-48 | getFromName(getName(m)) is m for every constant |
| RequestMethods.BareSuffixUnknown | yggdrasil-utils/src/main/java/org/hyperagents/yggdrasil/eventbus/codecs/MessageRequestMethods.java:46-48 | a declared name without the prefix finds no constant |
| MessageFields.PrefixedDistinct | yggdrasil-utils/src/main/java/org/hyperagents/yggdrasil/eventbus/codecs/MessageFields.java:35-41 | prefixing keeps different declared names different |
| MessageFields.MessageFieldsDistinct | yggdrasil-utils/src/main/java/org/hyperagents/yggdrasil/eventbus/codecs/MessageFields.java:4-32 | the fields the context and access-control messages use are pairwise distinct |
| Messages.BusOutcome | yggdrasil-utils/src/main/java/org/hyperagents/yggdrasil/eventbus/messageboxes/ContextMessageBox.java:54-63 | the sender sees the first answer: a reply is success, a fail its code and message, and no answer a timeout |
| ContextMessageCodec.Serialize | yggdrasil-utils/src/main/java/org/hyperagents/yggdrasil/eventbus/codecs/ContextManagementMessageMarshaller.java:51-80 | every serialised message carries the name of its variant's request method |
| ContextMessageCodec.MethodRoundTrip | yggdrasil-utils/src/main/java/org/hyperagents/yggdrasil/eventbus/codecs/ContextManagementMessageMarshaller.java:23-30 | the request method read back from a serialised message is the one it was written with |
| ContextMessageCodec.RoundTrip | yggdrasil-utils/src/main/java/org/hyperagents/yggdrasil/eventbus/codecs/ContextManagementMessageMarshaller.java:19-80 | deserialize(serialize(m)) is m for every context message, the stream-update timestamp included |
| ContextMessageCodec.StaticContextIsMethodOnly | yggdrasil-utils/src/main/java/org/hyperagents/yggdrasil/eventbus/codecs/ContextManagementMessageMarshaller.java:60-62 | GetStaticContext serialises to the request-method field alone |
| ContextMessageCodec.TimestampWritten | yggdrasil-utils/src/main/java/org/hyperagents/yggdrasil/eventbus/codecs/ContextManagementMessageMarshaller.java:71 | the timestamp is written as a JSON number with the same value |
| ContextMessageCodec.UnknownMethodRejected | yggdrasil-utils/src/main/java/org/hyperagents/yggdrasil/eventbus/codecs/ContextManagementMessageMarshaller.java:23-29 | a request-method name that names no method throws JsonParseException |
| ContextMessageCodec.OtherMethodRejected | yggdrasil-utils/src/main/java/org/hyperagents/yggdrasil/eventbus/codecs/ContextManagementMessageMarshaller.java:47 | a method that is not a context operation reaches the default branch and throws |
| WACMessageCodec.SerializeWAC | yggdrasil-utils/src/main/java/org/hyperagents/yggdrasil/eventbus/codecs/WACMessageMarshaller.java:42-60 | every serialised message carries the name of its variant's request method |
| WACMessageCodec.WACMethodRoundTrip | yggdrasil-utils/src/main/java/org/hyperagents/yggdrasil/eventbus/codecs/WACMessageMarshaller.java:22-29 | the request method read back from a serialised message is the one it was written with |
| WACMessageCodec.WACRoundTrip | yggdrasil-utils/src/main/java/org/hyperagents/yggdrasil/eventbus/codecs/WACMessageMarshaller.java:18-60 | deserialize(serialize(m)) is m for both access-control messages |
| WACMessageCodec.AuthorizeAccessFields | yggdrasil-utils/src/main/java/org/hyperagents/yggdrasil/eventbus/codecs/WACMessageMarshaller.java:51-56 | an access request's resource, agent and access type go to three different fields with their values |
| WACMessageCodec.WACUnknownMethodRejected | yggdrasil-utils/src/main/java/org/hyperagents/yggdrasil/eventbus/codecs/WACMessageMarshaller.java:22-28 | a request-method name that names no method throws JsonParseException |
| WACMessageCodec.WACOtherMethodRejected | yggdrasil-utils/src/main/java/org/hyperagents/yggdrasil/eventbus/codecs/WACMessageMarshaller.java:38 | a method other than the two access-control ones reaches the default branch and throws |
| ContextManagementConfigs.GetStringOr | yggdrasil-utils/src/main/java/org/hyperagents/yggdrasil/utils/impl/ContextManagementConfigImpl.java:49 | getString with a default: the default for an absent key, the text of a string value |
| ContextManagementConfigs.DecodeEach | yggdrasil-utils/src/main/java/org/hyperagents/yggdrasil/utils/impl/ContextManagementConfigImpl.java:61-73 | an absent array gives the empty list; otherwise the list succeeds exactly when every element is an object that decodes, and holds the decoded elements in order |
| ContextManagementConfigs.DecodeConfig | yggdrasil-utils/src/main/java/org/hyperagents/yggdrasil/utils/impl/ContextManagementConfigImpl.java:40-74 | no http-config block throws; otherwise enabled, the service URI (base URI + "context/"), the graph URIs, streams and domains are read from the blocks |
| ContextManagementConfigs.NoBlockDefaults | yggdrasil-utils/src/main/java/org/hyperagents/yggdrasil/utils/impl/ContextManagementConfigImpl.java:40-74 | without a context-management block the service is disabled, has no graph URIs, streams or domains, and its URI is http://localhost/context/ by default |
| ContextManagementConfigs.StreamByURI | yggdrasil-utils/src/main/java/org/hyperagents/yggdrasil/utils/impl/ContextManagementConfigImpl.java:102-110 | finds a stream whose URL is the argument, with no earlier match; misses exactly when every URL is present and differs; a null URL met first throws |
| ContextManagementConfigs.DomainByURI | yggdrasil-utils/src/main/java/org/hyperagents/yggdrasil/utils/impl/ContextManagementConfigImpl.java:117-125 | finds a domain whose URI is the argument, with no earlier match; misses exactly when every URI is present and differs; a null URI met first throws |
| ContextManagementConfigs.StreamByURIFirst | yggdrasil-utils/src/main/java/org/hyperagents/yggdrasil/utils/impl/ContextManagementConfigImpl.java:102-110 | with all earlier URLs present and different, the search returns the first stream with the URL |
| WACConfigs.GetBooleanOr | yggdrasil-utils/src/main/java/org/hyperagents/yggdrasil/utils/impl/WACConfigImpl.java:20 | getBoolean with a default: the default for an absent key, the value of a boolean |
| WACConfigs.DecodeWACEnabled | yggdrasil-utils/src/main/java/org/hyperagents/yggdrasil/utils/impl/WACConfigImpl.java:16-21 | access control is enabled exactly when a "wac" object is present and its "enabled" is true; no block means disabled |
| WACConfigs.WACEnabledCases | yggdrasil-utils/src/main/java/org/hyperagents/yggdrasil/utils/impl/WACConfigImpl.java:16-21 | no block or no key gives disabled, and the key set either way gives that value |
| ContextDomainModels.DecodeDomainModel | yggdrasil-utils/src/main/java/org/hyperagents/yggdrasil/model/impl/ContextDomainModelImpl.java:22-38 | a domain entry reads its URI, streams, rules and engine URL; absent lists are empty; it fails exactly when a list holds a value that cannot be converted |
| ContextDomainModels.PrimaryStreamURI | yggdrasil-utils/src/main/java/org/hyperagents/yggdrasil/model/impl/ContextDomainModelImpl.java:60-63 | the primary stream is the first stream, and null exactly when there is none |
| ContextDomainModels.SingleStreamIsPrimary | yggdrasil-utils/src/main/java/org/hyperagents/yggdrasil/model/impl/ContextDomainModelImpl.java:60-68 | a single-stream domain's primary stream is its only stream |
| ContextDomainModels.DomainModelRoundTrip | yggdrasil-utils/src/main/java/org/hyperagents/yggdrasil/model/impl/ContextDomainModelImpl.java:22-38 | reading the entry written for a domain gives the domain back, both lists in order |
| ContextStreamModels.DecodeStreamModel | yggdrasil-utils/src/main/java/org/hyperagents/yggdrasil/model/impl/ContextStreamModelImpl.java:20-29 | a stream entry reads its URI, ontology URL and assertions; an absent list is empty; it fails exactly when the list holds a value that cannot be converted |
| ContextStreamModels.StreamModelRoundTrip | yggdrasil-utils/src/main/java/org/hyperagents/yggdrasil/model/impl/ContextStreamModelImpl.java:20-29 | reading the entry written for a stream model gives it back, assertion order kept |
| ContextStreamConfigs.DecodeStreamConfig | yggdrasil-utils/src/main/java/org/hyperagents/yggdrasil/model/impl/ContextStreamImpl.java:22-34 | a stream entry reads its URL, ontology URL, generator class, single-assertion flag and assertions; it fails exactly when the list holds a value that cannot be converted |
| ContextStreamConfigs.StreamConfigRoundTrip | yggdrasil-utils/src/main/java/org/hyperagents/yggdrasil/model/impl/ContextStreamImpl.java:22-34 | reading the entry written for a stream configuration gives it back |
| ContextStreamConfigs.SingleAssertionIsStored | yggdrasil-utils/src/main/java/org/hyperagents/yggdrasil/model/impl/ContextStreamImpl.java:28 | the single-assertion flag is the stored key, not derived from the number of assertions |
| ContextAuthArtifacts.WithoutResource | yggdrasil-context/src/main/java/org/hyperagents/yggdrasil/auth/artifacts/ContextAuthHypermediaTDArtifact.java:45-47 | the rules left are rules of the list for other resources, and every rule for another resource is left |
| ContextAuthArtifacts.WithoutEntity | yggdrasil-context/src/main/java/org/hyperagents/yggdrasil/auth/artifacts/ContextAuthHypermediaTDArtifact.java:50-52 | the rules left are rules of the list granted to other entities, and every rule granted to another entity is left |
| ContextAuthArtifacts.WithoutResourceKeepsOrder | yggdrasil-context/src/main/java/org/hyperagents/yggdrasil/auth/artifacts/ContextAuthHypermediaTDArtifact.java:45-47 | removal goes element by element: a rule for the resource goes, others stay in their order |
| ContextAuthArtifacts.WithoutEntityKeepsOrder | yggdrasil-context/src/main/java/org/hyperagents/yggdrasil/auth/artifacts/ContextAuthHypermediaTDArtifact.java:50-52 | removal goes element by element: a rule granted to the entity goes, others stay in their order |
| ContextAuthArtifacts.Links | yggdrasil-context/src/main/java/org/hyperagents/yggdrasil/auth/artifacts/ContextAuthHypermediaTDArtifact.java:83-95 | one link per rule, in order, from the artifact to the rule's instance IRI |
| ContextAuthArtifacts.Models | yggdrasil-context/src/main/java/org/hyperagents/yggdrasil/auth/artifacts/ContextAuthHypermediaTDArtifact.java:84-98 | the description of each rule, in order |
| ContextAuthArtifacts.ChunksContents | yggdrasil-context/src/main/java/org/hyperagents/yggdrasil/auth/artifacts/ContextAuthHypermediaTDArtifact.java:77-104 | the built graph holds the first statement, every link and every part's statements, and nothing else |
| ContextAuthArtifacts.MetadataContents | yggdrasil-context/src/main/java/org/hyperagents/yggdrasil/auth/artifacts/ContextAuthHypermediaTDArtifact.java:75-105 | the metadata holds the type statement, each rule's link and each rule's description, and nothing else |
| ContextAuthArtifacts.LinkSaysControl | yggdrasil-context/src/main/java/org/hyperagents/yggdrasil/auth/artifacts/ContextAuthHypermediaTDArtifact.java:88-95 | a rule's link is hasControlAuthorization exactly when CONTROL is among its types, hasAccessAuthorization otherwise |
| ContextAuthArtifacts.ContextAuthArtifact.constructor | yggdrasil-context/src/main/java/org/hyperagents/yggdrasil/auth/artifacts/ContextAuthHypermediaTDArtifact.java:21-25 | a new artifact has no rules and no metadata |
| ContextAuthArtifacts.ContextAuthArtifact.RegisterAuthorization | yggdrasil-context/src/main/java/org/hyperagents/yggdrasil/auth/artifacts/ContextAuthHypermediaTDArtifact.java:35-37 | the rule is appended at the end; the metadata is unchanged |
| ContextAuthArtifacts.ContextAuthArtifact.RemoveAuthorization | yggdrasil-context/src/main/java/org/hyperagents/yggdrasil/auth/artifacts/ContextAuthHypermediaTDArtifact.java:40-42 | the first rule equal to the argument is removed, if there is one |
| ContextAuthArtifacts.ContextAuthArtifact.RemoveAuthorizations | yggdrasil-context/src/main/java/org/hyperagents/yggdrasil/auth/artifacts/ContextAuthHypermediaTDArtifact.java:45-47 | every rule for the resource is removed, the rest keep their order |
| ContextAuthArtifacts.ContextAuthArtifact.RemoveAuthorizationsToEntity | yggdrasil-context/src/main/java/org/hyperagents/yggdrasil/auth/artifacts/ContextAuthHypermediaTDArtifact.java:50-52 | every rule granted to the entity is removed, the rest keep their order |
| ContextAuthArtifacts.ContextAuthArtifact.RegisterAuthorizationOf | yggdrasil-context/src/main/java/org/hyperagents/yggdrasil/auth/artifacts/ContextAuthHypermediaTDArtifact.java:55-61 | one new rule built from the components, with the single access type, is appended |
| ContextAuthArtifacts.ContextAuthArtifact.AddAuthorizationMetadata | yggdrasil-context/src/main/java/org/hyperagents/yggdrasil/auth/artifacts/ContextAuthHypermediaTDArtifact.java:75-105 | on success the metadata graph of the rules is added; an artifact URI that is not an IRI, or a rule that cannot be described, adds nothing; the rules are unchanged |
| ContextAuthArtifacts.BuildMetadata | yggdrasil-context/src/main/java/org/hyperagents/yggdrasil/auth/artifacts/ContextAuthHypermediaTDArtifact.java:77-104 | describing the rules in order gives the metadata graph of their descriptions, or fails only when some rule cannot be described; an IRI a rule already had is kept |
| AuthHueLamp.SharedRuleProtects | yggdrasil-context/src/main/java/org/hyperagents/yggdrasil/auth/artifacts/AuthHueLampTD.java:92-102 | once the lamp's rule is in the registry the artifact is read- and write-protected, and the rule grants no CONTROL |
| AuthHueLamp.AuthHueLampTD.constructor | yggdrasil-context/src/main/java/org/hyperagents/yggdrasil/auth/artifacts/AuthHueLampTD.java:25-28 | a new lamp is off and blue, with no rule yet |
| AuthHueLamp.AuthHueLampTD.Init | yggdrasil-context/src/main/java/org/hyperagents/yggdrasil/auth/artifacts/AuthHueLampTD.java:30-33 | a lamp initialised with a state and colour has exactly those |
| AuthHueLamp.AuthHueLampTD.GetStatus | yggdrasil-context/src/main/java/org/hyperagents/yggdrasil/auth/artifacts/AuthHueLampTD.java:38-45 | gives the current state and colour and changes nothing |
| AuthHueLamp.AuthHueLampTD.Toggle | yggdrasil-context/src/main/java/org/hyperagents/yggdrasil/auth/artifacts/AuthHueLampTD.java:50-59 | "on" becomes "off", anything else "on"; the colour stays |
| AuthHueLamp.AuthHueLampTD.SetColor | yggdrasil-context/src/main/java/org/hyperagents/yggdrasil/auth/artifacts/AuthHueLampTD.java:64-69 | the colour is replaced; the state stays |
| AuthHueLamp.AuthHueLampTD.RegisterSharedContextAuthorizations | yggdrasil-context/src/main/java/org/hyperagents/yggdrasil/auth/artifacts/AuthHueLampTD.java:86-103 | one new READ and WRITE rule for the requester is appended to the lamp's list and added to the registry under the artifact IRI |
| AuthHueLamp.AuthHueLampTD.SetupOperations | yggdrasil-context/src/main/java/org/hyperagents/yggdrasil/auth/artifacts/ContextAuthHypermediaTDArtifact.java:65-73 | the shared rule is registered first, then the metadata is built from the list that now ends with it |
| HueLamp.Toggled | yggdrasil-cartago/src/main/java/org/hyperagents/yggdrasil/cartago/artifacts/HueLampTD.java:41-49 | the toggled state is "off" exactly when the state was "on", and "on" otherwise |
| HueLamp.ToggleTwice | yggdrasil-cartago/src/main/java/org/hyperagents/yggdrasil/cartago/artifacts/HueLampTD.java:41-49 | two toggles give back an "on" or "off" state |
| HueLamp.ToggleTwiceNormalises | yggdrasil-cartago/src/main/java/org/hyperagents/yggdrasil/cartago/artifacts/HueLampTD.java:41-49 | any other state is "off" after two toggles, not itself |
| HueLamp.HueLampTD.constructor | yggdrasil-cartago/src/main/java/org/hyperagents/yggdrasil/cartago/artifacts/HueLampTD.java:15-18 | a new lamp is off and blue |
| HueLamp.HueLampTD.Init | yggdrasil-cartago/src/main/java/org/hyperagents/yggdrasil/cartago/artifacts/HueLampTD.java:20-23 | a lamp initialised with a state and colour has exactly those |
| HueLamp.HueLampTD.GetStatus | yggdrasil-cartago/src/main/java/org/hyperagents/yggdrasil/cartago/artifacts/HueLampTD.java:29-35 | gives the current state and colour and changes nothing |
| HueLamp.HueLampTD.Toggle | yggdrasil-cartago/src/main/java/org/hyperagents/yggdrasil/cartago/artifacts/HueLampTD.java:41-49 | the state flips as Toggled says; the colour stays |
| HueLamp.HueLampTD.SetColor | yggdrasil-cartago/src/main/java/org/hyperagents/yggdrasil/cartago/artifacts/HueLampTD.java:55-59 | the colour is replaced; the state stays |
| HueLamp.ToggleTwiceFromInit | yggdrasil-cartago/src/main/java/org/hyperagents/yggdrasil/cartago/artifacts/HueLampTD.java:15-49 | a fresh lamp toggled twice is off and blue again |
| ArtifactRegistry.PutAllAppend | src/main/java/org/hyperagents/yggdrasil/cartago/HypermediaArtifactRegistry.java:56-64 | putting the entries of a + b is putting those of a, then those of b |
| ArtifactRegistry.PutAllKeys | src/main/java/org/hyperagents/yggdrasil/cartago/HypermediaArtifactRegistry.java:60 | after the puts a key is present exactly when it was before or some entry has it |
| ArtifactRegistry.PutAllLast | src/main/java/org/hyperagents/yggdrasil/cartago/HypermediaArtifactRegistry.java:60 | a key's value after the puts is that of the last entry with the key |
| ArtifactRegistry.PutAllUntouched | src/main/java/org/hyperagents/yggdrasil/cartago/HypermediaArtifactRegistry.java:60 | a key no entry has keeps its old value |
| ArtifactRegistry.RouteOf | src/main/java/org/hyperagents/yggdrasil/cartago/HypermediaArtifactRegistry.java:58-62 | an affordance routes method + target to its action name exactly when its first form has a method, and routes nothing otherwise |
| ArtifactRegistry.ActionRoutesFrom | src/main/java/org/hyperagents/yggdrasil/cartago/HypermediaArtifactRegistry.java:57-63 | every route of an action goes to that action's name and comes from one of its affordances |
| ArtifactRegistry.FirstNonString | src/main/java/org/hyperagents/yggdrasil/cartago/HypermediaArtifactRegistry.java:77 | the position where the cast first throws: every earlier value is a string, that one is not |
| ArtifactRegistry.StringEntries | src/main/java/org/hyperagents/yggdrasil/cartago/HypermediaArtifactRegistry.java:77 | string-valued template entries become puts of the same key and text, in order |
| ArtifactRegistry.ArtifactsPrefix | src/main/java/org/hyperagents/yggdrasil/cartago/HypermediaArtifactRegistry.java:128-132 | the artifacts prefix exists exactly for a known workspace, is the workspaces prefix of its environment followed by the workspace and "/artifacts/", and otherwise is the IllegalArgumentException's message |
| ArtifactRegistry.HypermediaArtifactRegistry.constructor | src/main/java/org/hyperagents/yggdrasil/cartago/HypermediaArtifactRegistry.java:33-41 | a new registry has empty tables and the default prefix http://localhost:8080 |
| ArtifactRegistry.HypermediaArtifactRegistry.Register | src/main/java/org/hyperagents/yggdrasil/cartago/HypermediaArtifactRegistry.java:51-65 | the description is stored under the artifact's name, the router is updated by the artifact's routes in order, and nothing else changes |
| ArtifactRegistry.HypermediaArtifactRegistry.AddWorkspace | src/main/java/org/hyperagents/yggdrasil/cartago/HypermediaArtifactRegistry.java:67-69 | the workspace is now hosted by the environment; nothing else changes |
| ArtifactRegistry.HypermediaArtifactRegistry.GetEnvironmentForWorkspace | src/main/java/org/hyperagents/yggdrasil/cartago/HypermediaArtifactRegistry.java:71-73 | the hosting environment, and empty exactly for an unknown workspace |
| ArtifactRegistry.HypermediaArtifactRegistry.AddArtifactTemplates | src/main/java/org/hyperagents/yggdrasil/cartago/HypermediaArtifactRegistry.java:75-78 | null adds nothing; otherwise the entries are put in turn up to the first value that is not a string, where it throws; nothing else changes |
| ArtifactRegistry.HypermediaArtifactRegistry.GetArtifactTemplates | src/main/java/org/hyperagents/yggdrasil/cartago/HypermediaArtifactRegistry.java:80-82 | the known type IRIs, exactly |
| ArtifactRegistry.HypermediaArtifactRegistry.GetArtifactSemanticType | src/main/java/org/hyperagents/yggdrasil/cartago/HypermediaArtifactRegistry.java:84-90 | a type IRI mapped to the given class name, and empty exactly when there is none |
| ArtifactRegistry.HypermediaArtifactRegistry.GetArtifactTemplate | src/main/java/org/hyperagents/yggdrasil/cartago/HypermediaArtifactRegistry.java:92-94 | the class name of a type IRI, and empty exactly when it is unknown |
| ArtifactRegistry.HypermediaArtifactRegistry.GetArtifactDescription | src/main/java/org/hyperagents/yggdrasil/cartago/HypermediaArtifactRegistry.java:96-98 | the stored description, and null exactly for an unknown artifact |
| ArtifactRegistry.HypermediaArtifactRegistry.GetActionName | src/main/java/org/hyperagents/yggdrasil/cartago/HypermediaArtifactRegistry.java:100-102 | the action routed from method + request URI, and null exactly when there is none |
| ArtifactRegistry.HypermediaArtifactRegistry.SetAPIKeyForArtifact | src/main/java/org/hyperagents/yggdrasil/cartago/HypermediaArtifactRegistry.java:104-106 | the key replaces any earlier one and is then what getAPIKeyForArtifact answers; nothing else changes |
| ArtifactRegistry.HypermediaArtifactRegistry.GetAPIKeyForArtifact | src/main/java/org/hyperagents/yggdrasil/cartago/HypermediaArtifactRegistry.java:108-110 | the key set last, and null exactly when none was |
| ArtifactRegistry.HypermediaArtifactRegistry.SetHttpPrefix | src/main/java/org/hyperagents/yggdrasil/cartago/HypermediaArtifactRegistry.java:112-114 | the prefix is replaced; nothing else changes |
| ArtifactRegistry.HypermediaArtifactRegistry.GetHttpEnvironmentsPrefix | src/main/java/org/hyperagents/yggdrasil/cartago/HypermediaArtifactRegistry.java:120-122 | the prefix followed by "/environments/" |
| ArtifactRegistry.HypermediaArtifactRegistry.GetHttpWorkspacesPrefix | src/main/java/org/hyperagents/yggdrasil/cartago/HypermediaArtifactRegistry.java:124-126 | the environments prefix followed by the environment and "/workspaces/" |
| ArtifactRegistry.HypermediaArtifactRegistry.GetHttpArtifactsPrefix | src/main/java/org/hyperagents/yggdrasil/cartago/HypermediaArtifactRegistry.java:128-132 | the artifacts prefix of the workspace, or the error for an unknown one |
| ArtifactRegistry.RouterAfterRegister | src/main/java/org/hyperagents/yggdrasil/cartago/HypermediaArtifactRegistry.java:51-65 | after register, getActionName answers the last route with a key, and a key no route has keeps its old answer |
| ArtifactRegistry.PrefixOfNewWorkspace | src/main/java/org/hyperagents/yggdrasil/cartago/HypermediaArtifactRegistry.java:33-132 | in a fresh registry, a workspace just added has its artifacts under http://localhost:8080/environments/env/workspaces/ws/artifacts/ |
| DataBundle.EncodeValue | src/main/java/org/hyperagents/yggdrasil/cartago/CartagoDataBundle.java:52-66 | null has no pair (getClass throws); a value other than a list gets a text payload |
| DataBundle.EncodeList | src/main/java/org/hyperagents/yggdrasil/cartago/CartagoDataBundle.java:52-66 | one pair per parameter, in order, and it throws exactly when some parameter does |
| DataBundle.PairsToJson | src/main/java/org/hyperagents/yggdrasil/cartago/CartagoDataBundle.java:21-23 | the JSON array has one element per pair |
| DataBundle.PairToJson | src/main/java/org/hyperagents/yggdrasil/cartago/CartagoDataBundle.java:21-23 | each pair is written as a two-element array headed by its class name |
| DataBundle.ToJson | src/main/java/org/hyperagents/yggdrasil/cartago/CartagoDataBundle.java:21-23 | toJson succeeds exactly when every parameter can be paired, and writes the pairs' JSON |
| DataBundle.PairsFromJson | src/main/java/org/hyperagents/yggdrasil/cartago/CartagoDataBundle.java:25-27 | reading pairs needs an array and gives one pair per element |
| DataBundle.MapAllJson | src/main/java/org/hyperagents/yggdrasil/cartago/CartagoDataBundle.java:25-27 | reading a list of elements gives one pair per element |
| DataBundle.DecodePair | src/main/java/org/hyperagents/yggdrasil/cartago/CartagoDataBundle.java:30-49 | a string pair always decodes; a pair of an unknown class decodes to null |
| DataBundle.DecodeList | src/main/java/org/hyperagents/yggdrasil/cartago/CartagoDataBundle.java:30-49 | one parameter per pair, in order, and it throws exactly when some pair does |
| DataBundle.FromJson | src/main/java/org/hyperagents/yggdrasil/cartago/CartagoDataBundle.java:25-27 | fromJson gives one parameter per element of the array |
| DataBundle.ReceivedList | src/main/java/org/hyperagents/yggdrasil/cartago/CartagoDataBundle.java:30-49 | what a list of parameters is received as has one entry per parameter |
| DataBundle.DecodeEncodeValue | src/main/java/org/hyperagents/yggdrasil/cartago/CartagoDataBundle.java:30-66 | decoding a parameter's pair gives what the parameter is received as |
| DataBundle.DecodeEncodeList | src/main/java/org/hyperagents/yggdrasil/cartago/CartagoDataBundle.java:30-66 | decoding the pairs of a parameter list gives what each parameter is received as, in order |
| DataBundle.PairsJsonRoundTrip | src/main/java/org/hyperagents/yggdrasil/cartago/CartagoDataBundle.java:21-27 | the pairs read back from their JSON are the pairs written |
| DataBundle.MapAllJsonRoundTrip | src/main/java/org/hyperagents/yggdrasil/cartago/CartagoDataBundle.java:21-27 | the elements written for the pairs read back as those pairs |
| DataBundle.PairJsonRoundTrip | src/main/java/org/hyperagents/yggdrasil/cartago/CartagoDataBundle.java:21-27 | one pair read back from its JSON is the pair written |
| DataBundle.FromJsonToJson | src/main/java/org/hyperagents/yggdrasil/cartago/CartagoDataBundle.java:21-66 | fromJson(toJson(params)) gives, in order, strings, ints and booleans as themselves, lists as arrays and longs as null |
| DataBundle.LongIsLost | src/main/java/org/hyperagents/yggdrasil/cartago/CartagoDataBundle.java:44-46 | a long parameter comes back null, since its class is not one the decoder knows |
| JavaLang.SplitLastPiece | yggdrasil-context/src/main/java/org/hyperagents/yggdrasil/context/http/Utils.java:57-58 | the last piece of String.split on one character is the text between the last separator and the trailing separators, and a string of separators only splits into nothing |
| JavaLang.SplitWithoutSep | yggdrasil-context/src/main/java/org/hyperagents/yggdrasil/context/http/Utils.java:57-58 | a string without the separator splits into itself |
| JavaLang.SplitOnlySeps | yggdrasil-context/src/main/java/org/hyperagents/yggdrasil/context/http/Utils.java:57-58 | a run of separators splits into nothing |
| JavaLang.SplitWithTrailingSeps | yggdrasil-context/src/main/java/org/hyperagents/yggdrasil/context/http/Utils.java:57-58 | trailing separators after a text not ending in one are dropped, and the last piece is the text's last segment |
| JavaLang.TrailingSepsDropped | yggdrasil-context/src/main/java/org/hyperagents/yggdrasil/context/http/Utils.java:57-58 | trailing separators after a text whose full split ends in a non-empty piece do not change the split |
| JavaLang.ParseIntToString | src/main/java/org/hyperagents/yggdrasil/cartago/CartagoDataBundle.java:36-37 | Integer.valueOf of an int's decimal text gives the int back |
| JavaLang.ParseBoolToString | src/main/java/org/hyperagents/yggdrasil/cartago/CartagoDataBundle.java:40-41 | Boolean.valueOf of a boolean's text gives the boolean back |
| JavaLang.WrapInt32 | yggdrasil-context/src/main/java/org/hyperagents/yggdrasil/auth/model/ContextBasedAuthorization.java:132-140 | Java int arithmetic keeps the value modulo 2^32 |

## Left out

- Network and file I/O are inputs to the model, not modelled behaviour:
  - opening policy URLs, reading RSPQL query files (`parseRSPQLQuery`) and writing repositories to files (`serializeSailRepository`, `serializeRepoConnection`);
  - subscribing to the WebSub hub (`subscribeToHub`).
  The outcome of each of these is a parameter.
- Parsing and serialising Turtle, SHACL validation, SPARQL queries over the membership store and the CSPARQL engine are oracle parameters. Their own semantics are not modelled.
- The static and profiled context repositories (`setupStaticContextRepo`, `setupProfiledContextRepo`) are modelled by their contents only. Loading them from files is not modelled.
- `getContextDomainGroupURIs` is modelled by its result, the list of group IRIs (or a failed query), given as an input to `addDynamicContext`.
- `handleContextServiceRepresentation` in the context handler has an empty body and is not modelled.
- The Vert.x event bus is not modelled:
  - message codecs are registered by class;
  - `MessageAddresses` is not part of this model;
  - reply timeouts are not modelled as time.
  A request's outcome is an input (`Messages.ServiceOutcome`), and `Messages.BusOutcome` says how a handler's answers become that outcome.
- Concurrency and the asynchronous order of callbacks are left out. Each handler runs to completion once its reply is given.
- The singletons (`AuthorizationRegistry.getInstance`, `HypermediaArtifactRegistry.getInstance`) are single objects passed to the classes that use them.
- Blank-node identifiers and UUIDs are random in the source. Here they are parameters (`freshId`).
- Logging and `System.out` output are left out.
- Java's hash-table iteration order is not modelled:
  - `getArtifactSemanticType` returns some type IRI mapped to the class name, not a particular one;
  - `register` takes the artifact's actions in the order given.
- WAC.WACVerticle.SetupAuthorizationRegistry: when it throws past its catch, the source's `start()` never reaches `setupRequestHandling` (WACVerticle.java:83-94), so the service answers no message; the model still lets `HandleMessage` be called on such a verticle.
- Json.AsLong: a JSON number outside 64 bits gives None, where Gson's `getAsLong` wraps it through `BigDecimal.longValue()`.
- JavaLang.ParseDecimal: only ASCII digits are accepted, where `Long.parseLong` and `Integer.valueOf` also accept other Unicode decimal digits through `Character.digit`.
- ContextMgmt.ValidationOutcome: `repoOk` is the outcome of opening the repository connection, which comes before the resource IRI is built; reading the statements after the IRI check is taken not to fail.
- WACVerticle.java:167 calls a one-argument `hasAccessAuthorization` that AuthorizationRegistry.java does not define. It is modelled as "the resource has some rule".
- The base class `HypermediaTDArtifact` is not part of this model: `addMetadata` records the graph only, and `getArtifactUri`, `super.setupOperations` and `registerInteractionAffordances` are left out.
- The Radiator and ExhaustHood example artifacts are not modelled.
- DataBundle.DecodePair: the `java.lang.Double` branch keeps the payload text (`DDouble`). Parsing a double and its NumberFormatException are left out, since floating point is not modelled.
- DataBundle.ToJson: only the JSON structure is modelled (arrays and strings). Writing it out as text with escaping, and Jackson's parsing of that text, are left out.
- DataBundle.FromJson: JSON shapes other than arrays of [class name, payload] pairs are refused as a whole, where Jackson would bind some of them differently. A pair with fewer than two elements is refused by the model (`PairFromJson` requires two); the source reads `get(1)` only for the five known class names and gives null for any other class without reading the payload.
- DataBundle.Received: the `Object[]` a nested list decodes to is a value (`DArray`). A long, or any class other than the five the decoder names, comes back null, as in the source. Re-encoding an `Object[]` is not modelled.
- ContextMgmtHandlers.VertxString: JSON values nested inside the delivery payload are treated as making `getString` throw. Converting them to text is left out.
- ContextManagementConfigs.GetStringOr: a nested JSON value under a string key counts as throwing. Vert.x's conversion of it to text is left out.
- Uris.ToUrl: only the scheme detection of java.net.URI is modelled; the rest of its grammar is an oracle (`parses`). A MalformedURLException for an unknown protocol is folded into the later oracle (reading the policy, the engine configuration).
- ContextDomains.ContextDomain.constructor: the NullPointerException and IllegalArgumentException that escape its catch are not raised by the constructor itself; its caller PutDomain checks for them and registers nothing.
- ContextDomains.ContextDomain.constructor: whether the engine configuration loads (`SDSConfiguration`, `EngineConfiguration`) is an oracle (`loads`). Once it loads, the CSPARQL engine's `register` is taken not to throw, for streams and for queries, including the null query `parseRSPQLQuery` gives for an unparsable URL or an unreadable file, so every query URL is recorded.
- Uris.ReadQuery: a query URL that is null is not modelled, since configured query lists hold strings.
- Uris.IsFileScheme: the scheme is compared by folding ASCII letters only; Java's equalsIgnoreCase also folds other letters, which a scheme that parses does not hold.
- Json.ErrorJson: the message is put between quotes without JSON string escaping, so a message holding '"' or '\' is not encoded as Vert.x would encode it.
- ContextManagementConfigs.GetStringOr: a key stored with a JSON null gives the default, where Vert.x's getString(key, def) gives null.
- WACConfigs.GetBooleanOr: a key stored with a JSON null gives the default, where Vert.x's getBoolean(key, def) gives null (which then fails to unbox).
- Json.ElementText: a nested array or object inside a list counts as throwing, where Object::toString gives its encoding.
- `JsonObjectUtils` is not part of this model. Its getters are taken to give a value exactly when the key holds a value of the right JSON type.
- The constructor of `ContextDomainImpl` is not part of this model. Configuration domain entries are read as `ContextDomainModelImpl` reads them.
