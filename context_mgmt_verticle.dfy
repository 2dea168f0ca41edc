/**
 * The context management service: the registered context streams and
 * domains, the index of protected artifacts with their access-condition
 * graphs, and the handling of requests, above all the decision whether the
 * context of a requester grants access to a resource.
 */
module ContextMgmt {
  import opened Wrappers
  import opened JavaLang
  import opened Rdf
  import Vocab
  import opened Messages
  import opened ContextStreams
  import opened ContextDomains
  import opened ContextStreamModels
  import opened ContextDomainModels
  import opened Uris

  // ---------------------------------------------------------------- inputs

  /** An artifact of the environment configuration, with the URL of its context access policy if it has one. */
  datatype ArtifactModel = ArtifactModel(name: string, contextAccessPolicyURL: Option<string>)

  /** A workspace of the environment configuration. */
  datatype WorkspaceModel = WorkspaceModel(name: string, artifacts: seq<ArtifactModel>)

  /**
   * What loading the access conditions and the context into a SHACL
   * repository and committing does: the commit succeeds, or something throws,
   * a validation violation or another error, with the message of its cause
   * when it has one.
   */
  datatype Validation = Conforms | Rejected(cause: Option<string>)

  /** How handling a request ends, after the responses listed: normally, with an IllegalArgumentException, or with an exception nothing catches. */
  datatype Outcome =
    | Completed(responses: seq<Response>)
    | IllegalArgument(responses: seq<Response>)
    | Escaped(responses: seq<Response>)

  const ALLOW: Response := Reply(BoolBody(true))
  const ARGUMENTS_BADLY_FORMATTED: string := "Arguments badly formatted."
  const UNKNOWN_MESSAGE_TYPE: string := "Unknown message type."

  /** String conversion of a possibly null string, as string concatenation performs it. */
  function TextOf(s: Option<string>): string
  {
    if s.Some? then s.value else "null"
  }

  /** The text of the 403 reply. */
  function DenialMessage(cause: Option<string>): string
  {
    "Access denied. Reason: " + (if cause.Some? then cause.value else "Unknown error")
  }

  // ---------------------------------------------------------------- the policy index

  /** The IRI under which the artifact will be served: the key of the policy index. */
  function PolicyKey(baseUri: string, ws: string, artifact: string): string
  {
    baseUri + "/workspaces/" + ws + "/artifacts/" + artifact + "#artifact"
  }

  /** Within one workspace, different artifact names give different keys. */
  lemma PolicyKeyInjective(baseUri: string, ws: string, a: string, b: string)
    requires PolicyKey(baseUri, ws, a) == PolicyKey(baseUri, ws, b)
    ensures a == b
  {
    var p := baseUri + "/workspaces/" + ws + "/artifacts/";
    var ka := PolicyKey(baseUri, ws, a);
    assert ka == p + a + "#artifact";
    assert PolicyKey(baseUri, ws, b) == p + b + "#artifact";
    assert |a| == |b|;
    assert a == ka[|p|..|p| + |a|];
    assert b == ka[|p|..|p| + |b|];
  }

  /** e is the pair the setup visits for artifact a. */
  predicate IsEntryOf(baseUri: string, ws: string, a: ArtifactModel, e: (string, string))
  {
    a.contextAccessPolicyURL.Some? && e == (PolicyKey(baseUri, ws, a.name), a.contextAccessPolicyURL.value)
  }

  /** The (key, policy URL) pairs the setup visits in one workspace, in order: artifacts without a policy are passed over. */
  function ArtifactEntries(baseUri: string, ws: string, arts: seq<ArtifactModel>): (r: seq<(string, string)>)
    ensures forall e :: e in r <==> exists i :: 0 <= i < |arts| && IsEntryOf(baseUri, ws, arts[i], e)
  {
    if |arts| == 0 then []
    else
      var rest := ArtifactEntries(baseUri, ws, arts[1..]);
      assert forall e :: e in rest <==> exists i :: 1 <= i < |arts| && IsEntryOf(baseUri, ws, arts[i], e) by {
        forall e | e in rest
          ensures exists i :: 1 <= i < |arts| && IsEntryOf(baseUri, ws, arts[i], e)
        {
          var i :| 0 <= i < |arts[1..]| && IsEntryOf(baseUri, ws, arts[1..][i], e);
          assert arts[i + 1] == arts[1..][i];
        }
        forall i | 1 <= i < |arts| && arts[i].contextAccessPolicyURL.Some?
          ensures (PolicyKey(baseUri, ws, arts[i].name), arts[i].contextAccessPolicyURL.value) in rest
        {
          assert arts[1..][i - 1] == arts[i];
        }
      }
      var a := arts[0];
      if a.contextAccessPolicyURL.Some? then [(PolicyKey(baseUri, ws, a.name), a.contextAccessPolicyURL.value)] + rest
      else rest
  }

  /** The pairs of every workspace, workspace by workspace. */
  function PolicyEntries(baseUri: string, wss: seq<WorkspaceModel>): seq<(string, string)>
  {
    if |wss| == 0 then [] else ArtifactEntries(baseUri, wss[0].name, wss[0].artifacts) + PolicyEntries(baseUri, wss[1..])
  }

  /** A pair is visited exactly when it belongs to an artifact with a policy in some workspace. */
  lemma {:induction false} PolicyEntriesMembers(baseUri: string, wss: seq<WorkspaceModel>, e: (string, string))
    ensures e in PolicyEntries(baseUri, wss) <==>
      exists w, i :: 0 <= w < |wss| && 0 <= i < |wss[w].artifacts| && IsEntryOf(baseUri, wss[w].name, wss[w].artifacts[i], e)
  {
    if |wss| > 0 {
      PolicyEntriesMembers(baseUri, wss[1..], e);
      if e in PolicyEntries(baseUri, wss[1..]) {
        var w, i :| 0 <= w < |wss[1..]| && 0 <= i < |wss[1..][w].artifacts| && IsEntryOf(baseUri, wss[1..][w].name, wss[1..][w].artifacts[i], e);
        assert wss[1..][w] == wss[w + 1];
      }
      if exists w, i :: 0 <= w < |wss| && 0 <= i < |wss[w].artifacts| && IsEntryOf(baseUri, wss[w].name, wss[w].artifacts[i], e) {
        var w, i :| 0 <= w < |wss| && 0 <= i < |wss[w].artifacts| && IsEntryOf(baseUri, wss[w].name, wss[w].artifacts[i], e);
        if w > 0 {
          assert wss[1..][w - 1] == wss[w];
        }
      }
    }
  }

  /** The policy index and the named graphs of access conditions. */
  datatype PolicyState = PolicyState(policies: map<string, string>, conditions: map<string, seq<Statement>>)

  /** The state after loading some entries, and whether the loading ran to the end without throwing. */
  datatype Loaded = Loaded(state: PolicyState, ok: bool)

  /** The named graph under k; an absent graph is empty. */
  function GraphOf(m: map<string, seq<Statement>>, k: string): seq<Statement>
  {
    if k in m then m[k] else []
  }

  /**
   * The setup loop: each key is put into the index first; then createIRI on
   * the key and the loading of the policy may throw, which ends the setup.
   * A loaded policy is added to the named graph of its key.
   */
  function LoadPolicies(s: PolicyState, entries: seq<(string, string)>, load: string -> Option<seq<Statement>>): Loaded
    decreases |entries|
  {
    if |entries| == 0 then Loaded(s, true)
    else
      var (key, url) := entries[0];
      var indexed := s.(policies := s.policies[key := url]);
      if !ValidIri(key) then Loaded(indexed, false)
      else
        var g := load(url);
        if g.None? then Loaded(indexed, false)
        else LoadPolicies(indexed.(conditions := indexed.conditions[key := GraphOf(indexed.conditions, key) + g.value]),
                          entries[1..], load)
  }

  /**
   * The loading succeeds exactly when every key is an IRI and every policy
   * loads; only keys of visited entries are added to the index; after a
   * success every key is indexed; and the key whose policy fails is indexed
   * all the same.
   */
  lemma {:induction false} LoadPoliciesResult(s: PolicyState, entries: seq<(string, string)>,
                                              load: string -> Option<seq<Statement>>)
    ensures var r := LoadPolicies(s, entries, load);
      && (r.ok <==> forall i :: 0 <= i < |entries| ==> ValidIri(entries[i].0) && load(entries[i].1).Some?)
      && (forall k :: k in r.state.policies ==> k in s.policies || exists i :: 0 <= i < |entries| && entries[i].0 == k)
      && (r.ok ==> forall i :: 0 <= i < |entries| ==> entries[i].0 in r.state.policies)
      && (!r.ok ==> exists i :: 0 <= i < |entries| && entries[i].0 in r.state.policies
                     && (!ValidIri(entries[i].0) || load(entries[i].1).None?))
    decreases |entries|
  {
    if |entries| > 0 {
      var (key, url) := entries[0];
      var indexed := s.(policies := s.policies[key := url]);
      if ValidIri(key) && load(url).Some? {
        var next := indexed.(conditions := indexed.conditions[key := GraphOf(indexed.conditions, key) + load(url).value]);
        LoadPoliciesResult(next, entries[1..], load);
        var r := LoadPolicies(next, entries[1..], load);
        assert LoadPolicies(s, entries, load) == r;
        forall k | k in r.state.policies
          ensures k in s.policies || exists i :: 0 <= i < |entries| && entries[i].0 == k
        {
          if k !in next.policies {
            var i :| 0 <= i < |entries[1..]| && entries[1..][i].0 == k;
            assert entries[i + 1].0 == k;
          } else if k !in s.policies {
            assert entries[0].0 == k;
          }
        }
        if r.ok {
          forall i | 0 <= i < |entries|
            ensures ValidIri(entries[i].0) && load(entries[i].1).Some? && entries[i].0 in r.state.policies
          {
            if i > 0 {
              assert entries[1..][i - 1] == entries[i];
            } else {
              assert key in next.policies;
              ContinuedKeepsKey(next, entries[1..], load, key);
            }
          }
        } else {
          var i :| 0 <= i < |entries[1..]| && entries[1..][i].0 in r.state.policies
            && (!ValidIri(entries[1..][i].0) || load(entries[1..][i].1).None?);
          assert entries[i + 1] == entries[1..][i];
        }
      } else {
        assert LoadPolicies(s, entries, load) == Loaded(indexed, false);
        assert entries[0].0 in indexed.policies;
      }
    }
  }

  /** Loading more entries never drops a key from the index. */
  lemma {:induction false} ContinuedKeepsKey(s: PolicyState, entries: seq<(string, string)>,
                                             load: string -> Option<seq<Statement>>, k: string)
    requires k in s.policies
    ensures k in LoadPolicies(s, entries, load).state.policies
    decreases |entries|
  {
    if |entries| > 0 {
      var (key, url) := entries[0];
      var indexed := s.(policies := s.policies[key := url]);
      if ValidIri(key) && load(url).Some? {
        ContinuedKeepsKey(indexed.(conditions := indexed.conditions[key := GraphOf(indexed.conditions, key) + load(url).value]),
                          entries[1..], load, k);
      }
    }
  }

  /** Loading a + b is loading a, then, if that did not throw, loading b. */
  lemma {:induction false} LoadPoliciesAppend(s: PolicyState, a: seq<(string, string)>, b: seq<(string, string)>,
                                              load: string -> Option<seq<Statement>>)
    ensures var ra := LoadPolicies(s, a, load);
      LoadPolicies(s, a + b, load) == if ra.ok then LoadPolicies(ra.state, b, load) else ra
    decreases |a|
  {
    if |a| == 0 {
      assert a + b == b;
    } else {
      assert (a + b)[0] == a[0] && (a + b)[1..] == a[1..] + b;
      var (key, url) := a[0];
      var indexed := s.(policies := s.policies[key := url]);
      if ValidIri(key) && load(url).Some? {
        LoadPoliciesAppend(indexed.(conditions := indexed.conditions[key := GraphOf(indexed.conditions, key) + load(url).value]),
                           a[1..], b, load);
      }
    }
  }

  // ---------------------------------------------------------------- the access conditions

  /** The replaceAll lambda: an object whose string value is the accessRequester placeholder becomes the requester IRI. */
  function CustomizeStatement(st: Statement, requester: string): Statement
  {
    if StringValue(st.obj) == Vocab.ACCESS_REQUESTER then Statement(st.subj, st.pred, Iri(requester)) else st
  }

  /** Whether some object is the placeholder. */
  predicate HasPlaceholder(sts: seq<Statement>)
  {
    exists i :: 0 <= i < |sts| && StringValue(sts[i].obj) == Vocab.ACCESS_REQUESTER
  }

  /** customizeAccessConditions: None where createIRI throws on the requester, which only happens at a placeholder. */
  function Customize(sts: seq<Statement>, requester: string): (r: Option<seq<Statement>>)
    ensures r.None? <==> HasPlaceholder(sts) && !ValidIri(requester)
    ensures r.Some? ==> |r.value| == |sts| && forall i :: 0 <= i < |sts| ==>
      r.value[i].subj == sts[i].subj && r.value[i].pred == sts[i].pred
      && (StringValue(sts[i].obj) == Vocab.ACCESS_REQUESTER ==> r.value[i].obj == Iri(requester))
      && (StringValue(sts[i].obj) != Vocab.ACCESS_REQUESTER ==> r.value[i] == sts[i])
  {
    if HasPlaceholder(sts) && !ValidIri(requester) then None
    else Some(seq(|sts|, i requires 0 <= i < |sts| => CustomizeStatement(sts[i], requester)))
  }

  /** Without a placeholder the conditions are left exactly as they are, whoever the requester. */
  lemma CustomizeWithoutPlaceholder(sts: seq<Statement>, requester: string)
    requires !HasPlaceholder(sts)
    ensures Customize(sts, requester) == Some(sts)
  {
    var r := Customize(sts, requester).value;
    forall i | 0 <= i < |sts|
      ensures r[i] == sts[i]
    {
      assert StringValue(sts[i].obj) != Vocab.ACCESS_REQUESTER;
    }
    assert r == sts;
  }

  /**
   * The decision of validateContextBasedAccess, given the policy index, the
   * access-condition graphs, the static and profiled context, the dynamic
   * context (None where a group names an unknown domain, which throws), and
   * the outcomes of the repository and of the validation. repoOk is whether
   * the connection to the access-conditions repository opens; that happens
   * before the resource IRI is built, so a failed connection allows even an
   * invalid IRI. The statement read after the IRI check is taken not to fail.
   */
  function ValidationOutcome(policies: map<string, string>, conditions: map<string, seq<Statement>>,
                             context: seq<Statement>, dynamic: Option<seq<Statement>>,
                             requester: string, resource: string, repoOk: bool,
                             validate: (seq<Statement>, seq<Statement>) -> Validation): Outcome
  {
    if resource !in policies then Completed([ALLOW])
    else if dynamic.None? then Escaped([])
    else if !repoOk then Completed([ALLOW])
    else if !ValidIri(resource) then IllegalArgument([])
    else
      var shapes := Customize(GraphOf(conditions, resource), requester);
      if shapes.None? then IllegalArgument([])
      else match validate(shapes.value, context + dynamic.value)
        case Conforms => Completed([ALLOW])
        case Rejected(cause) => Completed([Fail(SC_FORBIDDEN, DenialMessage(cause)), ALLOW])
  }

  /** A resource outside the policy index is allowed at once, whatever the context. */
  lemma UnprotectedAllowed(policies: map<string, string>, conditions: map<string, seq<Statement>>,
                           context: seq<Statement>, dynamic: Option<seq<Statement>>, requester: string,
                           resource: string, repoOk: bool, validate: (seq<Statement>, seq<Statement>) -> Validation)
    requires resource !in policies
    ensures ValidationOutcome(policies, conditions, context, dynamic, requester, resource, repoOk, validate)
      == Completed([ALLOW])
  {
  }

  /** When the access conditions cannot be read, access is allowed by default. */
  lemma UnreadableConditionsAllowed(policies: map<string, string>, conditions: map<string, seq<Statement>>,
                                    context: seq<Statement>, dyn: seq<Statement>, requester: string,
                                    resource: string, validate: (seq<Statement>, seq<Statement>) -> Validation)
    ensures ValidationOutcome(policies, conditions, context, Some(dyn), requester, resource, false, validate)
      == Completed([ALLOW])
  {
  }

  /**
   * A failed validation sends fail(403) and then, falling through, reply(true):
   * every run that completes ends with reply(true), and 403 is sent exactly
   * when the validation throws.
   */
  lemma CompletedEndsAllowing(policies: map<string, string>, conditions: map<string, seq<Statement>>,
                              context: seq<Statement>, dynamic: Option<seq<Statement>>, requester: string,
                              resource: string, repoOk: bool, validate: (seq<Statement>, seq<Statement>) -> Validation)
    ensures var o := ValidationOutcome(policies, conditions, context, dynamic, requester, resource, repoOk, validate);
      o.Completed? ==> (|o.responses| > 0 && o.responses[|o.responses| - 1] == ALLOW
        && (|o.responses| == 2 <==> o.responses[0].Fail?)
        && (o.responses[0].Fail? ==> o.responses[0].code == SC_FORBIDDEN))
  {
  }

  /** The run against conditions that the validation rejects: both sends. */
  lemma RejectedSendsBoth(policies: map<string, string>, conditions: map<string, seq<Statement>>,
                          context: seq<Statement>, dyn: seq<Statement>, requester: string, resource: string,
                          validate: (seq<Statement>, seq<Statement>) -> Validation, cause: Option<string>)
    requires resource in policies && ValidIri(resource) && ValidIri(requester)
    requires validate(Customize(GraphOf(conditions, resource), requester).value, context + dyn) == Rejected(cause)
    ensures ValidationOutcome(policies, conditions, context, Some(dyn), requester, resource, true, validate)
      == Completed([Fail(SC_FORBIDDEN, DenialMessage(cause)), ALLOW])
  {
  }

  /** A requester that is not an IRI meets a placeholder: IllegalArgumentException, before any validation. */
  lemma BadRequesterRejected(policies: map<string, string>, conditions: map<string, seq<Statement>>,
                             context: seq<Statement>, dyn: seq<Statement>, requester: string, resource: string,
                             validate: (seq<Statement>, seq<Statement>) -> Validation)
    requires resource in policies && ValidIri(resource) && !ValidIri(requester)
    requires HasPlaceholder(GraphOf(conditions, resource))
    ensures ValidationOutcome(policies, conditions, context, Some(dyn), requester, resource, true, validate)
      == IllegalArgument([])
  {
  }

  /** What the dispatcher turns an outcome into: the responses sent, and whether an exception escaped. */
  function Deliver(o: Outcome): (r: (seq<Response>, bool))
    ensures o.Completed? ==> r == (o.responses, false)
    ensures o.IllegalArgument? ==> r == (o.responses + [Fail(SC_BAD_REQUEST, ARGUMENTS_BADLY_FORMATTED)], false)
    ensures o.Escaped? ==> r == (o.responses, true)
  {
    match o
    case Completed(rs) => (rs, false)
    case IllegalArgument(rs) => (rs + [Fail(SC_BAD_REQUEST, ARGUMENTS_BADLY_FORMATTED)], false)
    case Escaped(rs) => (rs, true)
  }

  // ---------------------------------------------------------------- domain setup

  /** Every stream the domain needs is registered. */
  predicate Covered(d: ContextDomainModel, streams: set<Option<string>>)
  {
    forall i :: 0 <= i < |d.streams| ==> Some(d.streams[i]) in streams
  }

  /**
   * The engine initialisation of the domain constructor throws past its
   * catch: the engine URL is null or relative, or the engine starts
   * (loads(d): its configuration loads) and some membership query URL makes
   * new File(new URI(q)) throw an IllegalArgumentException, which
   * parseRSPQLQuery does not catch either.
   */
  predicate EngineEscapes(d: ContextDomainModel, parses: string -> bool, loads: ContextDomainModel -> bool)
  {
    var u := ToUrl(d.engineConfigUrl, parses);
    Uncaught(u) || (u.Absolute? && loads(d) && QueryEscapesAt(d.membershipRules, parses) < |d.membershipRules|)
  }

  /** The index of the first query URL that makes new File throw, or the number of queries. */
  function QueryEscapesAt(qs: seq<string>, parses: string -> bool): nat
  {
    if |qs| == 0 then 0
    else if ReadQuery(qs[0], parses).QueryEscapes? then 0
    else 1 + QueryEscapesAt(qs[1..], parses)
  }

  /** No query before the index makes new File throw, and the one at the index does. */
  lemma {:induction false} QueryEscapesAtIs(qs: seq<string>, parses: string -> bool)
    ensures QueryEscapesAt(qs, parses) <= |qs|
    ensures forall i :: 0 <= i < QueryEscapesAt(qs, parses) ==> !ReadQuery(qs[i], parses).QueryEscapes?
    ensures QueryEscapesAt(qs, parses) < |qs| ==> ReadQuery(qs[QueryEscapesAt(qs, parses)], parses).QueryEscapes?
  {
    if |qs| > 0 && !ReadQuery(qs[0], parses).QueryEscapes? {
      QueryEscapesAtIs(qs[1..], parses);
      assert forall i :: 1 <= i < |qs| ==> qs[1..][i - 1] == qs[i];
    }
  }

  /** The domain can be created: its streams are registered and its constructor does not throw. */
  predicate Buildable(d: ContextDomainModel, streams: set<Option<string>>, parses: string -> bool,
                      loads: ContextDomainModel -> bool)
  {
    Covered(d, streams) && !EngineEscapes(d, parses, loads)
  }

  /** The index of the first domain that cannot be created, or the number of domains. */
  function FirstUnbuildable(ds: seq<ContextDomainModel>, streams: set<Option<string>>, parses: string -> bool,
                            loads: ContextDomainModel -> bool): (r: nat)
    ensures r <= |ds|
    ensures forall i :: 0 <= i < r ==> Buildable(ds[i], streams, parses, loads)
    ensures r < |ds| ==> !Buildable(ds[r], streams, parses, loads)
  {
    if |ds| == 0 then 0
    else if !Buildable(ds[0], streams, parses, loads) then 0
    else 1 + FirstUnbuildable(ds[1..], streams, parses, loads)
  }

  lemma FirstUnbuildableStops(ds: seq<ContextDomainModel>, streams: set<Option<string>>, parses: string -> bool,
                              loads: ContextDomainModel -> bool, i: nat)
    requires i <= FirstUnbuildable(ds, streams, parses, loads) && i < |ds| && !Buildable(ds[i], streams, parses, loads)
    ensures i == FirstUnbuildable(ds, streams, parses, loads)
  {
  }

  lemma FirstUnbuildableGoesOn(ds: seq<ContextDomainModel>, streams: set<Option<string>>, parses: string -> bool,
                               loads: ContextDomainModel -> bool, i: nat)
    requires i <= FirstUnbuildable(ds, streams, parses, loads) && i < |ds| && Buildable(ds[i], streams, parses, loads)
    ensures i < FirstUnbuildable(ds, streams, parses, loads)
  {
  }

  /** Once the engine starts, a query URL that new File rejects makes the domain unbuildable, wherever it stands in the list. */
  lemma EscapingQueryUnbuildable(d: ContextDomainModel, streams: set<Option<string>>, parses: string -> bool,
                                 loads: ContextDomainModel -> bool, i: nat)
    requires ToUrl(d.engineConfigUrl, parses).Absolute? && loads(d)
    requires i < |d.membershipRules| && ReadQuery(d.membershipRules[i], parses).QueryEscapes?
    ensures !Buildable(d, streams, parses, loads)
  {
    QueryEscapesAtIs(d.membershipRules, parses);
  }

  /**
   * When the engine does not start (its URL has a syntax error or its
   * configuration does not load), the query URLs are never read, so a
   * domain whose streams are registered is built whatever they are.
   */
  lemma UnstartedEngineIgnoresQueries(d: ContextDomainModel, streams: set<Option<string>>, parses: string -> bool,
                                      loads: ContextDomainModel -> bool)
    requires Covered(d, streams)
    requires ToUrl(d.engineConfigUrl, parses).SyntaxError? || (ToUrl(d.engineConfigUrl, parses).Absolute? && !loads(d))
    ensures Buildable(d, streams, parses, loads)
  {
  }

  lemma QueryEscapesAtStops(qs: seq<string>, parses: string -> bool, i: nat)
    requires i <= QueryEscapesAt(qs, parses) && i < |qs| && ReadQuery(qs[i], parses).QueryEscapes?
    ensures i == QueryEscapesAt(qs, parses)
  {
    QueryEscapesAtIs(qs, parses);
  }

  lemma QueryEscapesAtGoesOn(qs: seq<string>, parses: string -> bool, i: nat)
    requires i <= QueryEscapesAt(qs, parses) && i < |qs| && !ReadQuery(qs[i], parses).QueryEscapes?
    ensures i < QueryEscapesAt(qs, parses)
  {
    QueryEscapesAtIs(qs, parses);
  }

  /** The keys the domains are put under. */
  function DomainKeys(ds: seq<ContextDomainModel>): set<Option<string>>
  {
    set i | 0 <= i < |ds| :: ds[i].domainUri
  }

  /** The keys the stream entries are put under. */
  function StreamKeys(ss: seq<ContextStreamModel>): set<Option<string>>
  {
    set i | 0 <= i < |ss| :: ss[i].streamUri
  }

  lemma StreamKeysSnoc(ss: seq<ContextStreamModel>, i: nat)
    requires i < |ss|
    ensures StreamKeys(ss[..i + 1]) == StreamKeys(ss[..i]) + {ss[i].streamUri}
  {
    assert ss[..i + 1][i] == ss[i];
    assert forall j :: 0 <= j < i ==> ss[..i + 1][j] == ss[..i][j];
  }

  lemma DomainKeysSnoc(ds: seq<ContextDomainModel>, i: nat)
    requires i < |ds|
    ensures DomainKeys(ds[..i + 1]) == DomainKeys(ds[..i]) + {ds[i].domainUri}
  {
    assert ds[..i + 1][i] == ds[i];
    assert forall j :: 0 <= j < i ==> ds[..i + 1][j] == ds[..i][j];
  }

  /** The request content the event-bus oracles provide: Turtle parsing, the group query, the repository and the validation. */
  datatype Oracles = Oracles(
    parseGraph: string -> Option<Graph>,
    groupURIs: Option<seq<string>>,
    repoOk: bool,
    validate: (seq<Statement>, seq<Statement>) -> Validation)

  // ---------------------------------------------------------------- the verticle

  class ContextMgmtVerticle {
    const serviceURI: string
    /** The contents of the static and the profiled context repositories. */
    const staticContext: seq<Statement>
    const profiledContext: seq<Statement>
    var contextStreamMap: map<Option<string>, ContextStream>
    var contextDomains: map<Option<string>, ContextDomain>
    var artifactPolicies: map<string, string>
    /** The named graphs of the access-conditions repository, by artifact IRI. */
    var accessConditions: map<string, seq<Statement>>

    constructor (serviceURI: string, staticContext: seq<Statement>, profiledContext: seq<Statement>)
      ensures this.serviceURI == serviceURI && this.staticContext == staticContext
      ensures this.profiledContext == profiledContext
      ensures contextStreamMap == map[] && contextDomains == map[]
      ensures artifactPolicies == map[] && accessConditions == map[]
    {
      this.serviceURI := serviceURI;
      this.staticContext := staticContext;
      this.profiledContext := profiledContext;
      contextStreamMap := map[];
      contextDomains := map[];
      artifactPolicies := map[];
      accessConditions := map[];
    }

    /**
     * initializeContextStreams: one new stream per entry, under its URI (a
     * later entry with the same URI replaces an earlier one). The hub
     * subscription is outside the model; its failure is only logged.
     */
    method InitializeContextStreams(streams: seq<ContextStreamModel>, parseUri: string -> Option<UriParts>)
      modifies this
      ensures contextStreamMap.Keys == old(contextStreamMap).Keys + StreamKeys(streams)
      ensures forall k :: k in contextStreamMap && k !in StreamKeys(streams) ==> contextStreamMap[k] == old(contextStreamMap)[k]
      ensures forall k :: k in StreamKeys(streams) ==> (fresh(contextStreamMap[k])
        && contextStreamMap[k].streamURI == k && contextStreamMap[k].lastUpdateTimestamp == 0)
      ensures contextDomains == old(contextDomains) && artifactPolicies == old(artifactPolicies)
      ensures accessConditions == old(accessConditions)
    {
      for i := 0 to |streams|
        invariant contextStreamMap.Keys == old(contextStreamMap).Keys + StreamKeys(streams[..i])
        invariant forall k :: k in contextStreamMap && k !in StreamKeys(streams[..i]) ==> contextStreamMap[k] == old(contextStreamMap)[k]
        invariant forall k :: k in StreamKeys(streams[..i]) ==> (fresh(contextStreamMap[k])
          && contextStreamMap[k].streamURI == k && contextStreamMap[k].lastUpdateTimestamp == 0)
        invariant contextDomains == old(contextDomains) && artifactPolicies == old(artifactPolicies)
        invariant accessConditions == old(accessConditions)
      {
        var info := streams[i];
        var parsed := if info.streamUri.Some? then parseUri(info.streamUri.value) else None;
        var stream := new ContextStream(info.streamUri, parsed, info.ontologyUrl, Some(info.assertions));
        contextStreamMap := contextStreamMap[info.streamUri := stream];
        StreamKeysSnoc(streams, i);
      }
      assert streams[..|streams|] == streams;
    }

    /**
     * setupCDGMembershipRepo: each domain, in order, is created and put under
     * its URI, until one cannot be: it needs a stream that is not registered,
     * which throws, or its engine URL or one of its query URLs makes the
     * domain constructor throw. The exception ends the setup. The engine is
     * outside the model: loads(d) says whether d's engine configuration loads.
     */
    method SetupCDGMembershipRepo(domains: seq<ContextDomainModel>, parses: string -> bool,
                                  loads: ContextDomainModel -> bool) returns (ok: bool)
      modifies this
      ensures ok <==> FirstUnbuildable(domains, contextStreamMap.Keys, parses, loads) == |domains|
      ensures contextDomains.Keys == old(contextDomains).Keys
        + DomainKeys(domains[..FirstUnbuildable(domains, contextStreamMap.Keys, parses, loads)])
      ensures forall k :: k in DomainKeys(domains[..FirstUnbuildable(domains, contextStreamMap.Keys, parses, loads)]) ==>
        fresh(contextDomains[k]) && contextDomains[k].store == [] && contextDomains[k].contextStreams == []
      ensures contextStreamMap == old(contextStreamMap) && artifactPolicies == old(artifactPolicies)
      ensures accessConditions == old(accessConditions)
    {
      var n := FirstUnbuildable(domains, contextStreamMap.Keys, parses, loads);
      ghost var made: set<Option<string>> := {};
      for i := 0 to |domains|
        invariant i <= n && made == DomainKeys(domains[..i])
        invariant contextDomains.Keys == old(contextDomains).Keys + made
        invariant forall k :: k in made ==>
          fresh(contextDomains[k]) && contextDomains[k].store == [] && contextDomains[k].contextStreams == []
        invariant contextStreamMap == old(contextStreamMap) && artifactPolicies == old(artifactPolicies)
        invariant accessConditions == old(accessConditions)
      {
        ghost var before := contextDomains;
        var built := PutNextDomain(domains, i, parses, loads);
        if !built {
          return false;
        }
        DomainKeysSnoc(domains, i);
        forall k | k in made + {domains[i].domainUri}
          ensures fresh(contextDomains[k]) && contextDomains[k].store == [] && contextDomains[k].contextStreams == []
        {
          if k != domains[i].domainUri {
            assert k in before && contextDomains[k] == before[k];
          }
        }
        made := made + {domains[i].domainUri};
      }
      assert domains[..|domains|] == domains;
      return true;
    }

    /** The body of setupCDGMembershipRepo's loop: domain i is built exactly when it is not the first unbuildable one. */
    method PutNextDomain(domains: seq<ContextDomainModel>, i: nat, parses: string -> bool,
                         loads: ContextDomainModel -> bool) returns (built: bool)
      requires i < |domains| && i <= FirstUnbuildable(domains, contextStreamMap.Keys, parses, loads)
      modifies this
      ensures built <==> i < FirstUnbuildable(domains, old(contextStreamMap).Keys, parses, loads)
      ensures !built ==> contextDomains == old(contextDomains)
      ensures built ==> contextDomains.Keys == old(contextDomains).Keys + {domains[i].domainUri}
      ensures built ==> forall k :: k in old(contextDomains) && k != domains[i].domainUri ==>
        contextDomains[k] == old(contextDomains)[k]
      ensures built ==> var c := contextDomains[domains[i].domainUri];
        fresh(c) && c.store == [] && c.contextStreams == []
      ensures contextStreamMap == old(contextStreamMap) && artifactPolicies == old(artifactPolicies)
      ensures accessConditions == old(accessConditions)
    {
      var d := domains[i];
      built := false;
      if Covered(d, contextStreamMap.Keys) {
        built := PutDomain(d, parses, loads);
      }
      if built {
        FirstUnbuildableGoesOn(domains, contextStreamMap.Keys, parses, loads, i);
      } else {
        FirstUnbuildableStops(domains, contextStreamMap.Keys, parses, loads, i);
      }
    }

    /**
     * One domain of setupCDGMembershipRepo: created with its required streams
     * and put under its URI. When the constructor throws past its catch (a
     * null or relative engine URL, or a query URL new File rejects once the
     * engine has started), nothing is put. A URL the URI parser rejects, or a
     * configuration that does not load, is caught inside the constructor,
     * and the domain then has no membership queries.
     */
    method PutDomain(d: ContextDomainModel, parses: string -> bool, loads: ContextDomainModel -> bool)
      returns (built: bool)
      requires Covered(d, contextStreamMap.Keys)
      modifies this
      ensures built <==> !EngineEscapes(d, parses, loads)
      ensures !built ==> contextDomains == old(contextDomains)
      ensures built ==> contextDomains.Keys == old(contextDomains).Keys + {d.domainUri}
      ensures built ==> forall k :: k in old(contextDomains) && k != d.domainUri ==> contextDomains[k] == old(contextDomains)[k]
      ensures built ==> var c := contextDomains[d.domainUri];
        fresh(c) && c.store == [] && c.contextStreams == []
        && c.contextDomainURI == TextOf(d.domainUri) && c.engineConfigURL == d.engineConfigUrl.value
        && c.membershipRuleQueryURLs == d.membershipRules
        && (ToUrl(d.engineConfigUrl, parses).Absolute? && loads(d) ==>
              forall q :: q in c.membershipRuleQueries <==> q in d.membershipRules)
        && (!(ToUrl(d.engineConfigUrl, parses).Absolute? && loads(d)) ==> c.membershipRuleQueries == {})
      ensures contextStreamMap == old(contextStreamMap) && artifactPolicies == old(artifactPolicies)
      ensures accessConditions == old(accessConditions)
    {
      var url := ToUrl(d.engineConfigUrl, parses);
      if Uncaught(url) {
        return false;
      }
      var starts := url.Absolute? && loads(d);
      if starts {
        var i := 0;
        while i < |d.membershipRules|
          invariant i <= QueryEscapesAt(d.membershipRules, parses)
          invariant contextDomains == old(contextDomains) && contextStreamMap == old(contextStreamMap)
          invariant artifactPolicies == old(artifactPolicies) && accessConditions == old(accessConditions)
        {
          if ReadQuery(d.membershipRules[i], parses).QueryEscapes? {
            QueryEscapesAtStops(d.membershipRules, parses, i);
            return false;
          }
          QueryEscapesAtGoesOn(d.membershipRules, parses, i);
          i := i + 1;
        }
      }
      var registered := contextStreamMap;
      var required := seq(|d.streams|, j requires 0 <= j < |d.streams| => registered[Some(d.streams[j])]);
      var domain := new ContextDomain(TextOf(d.domainUri), d.engineConfigUrl.value, d.membershipRules,
                                      required, starts);
      contextDomains := contextDomains[d.domainUri := domain];
      return true;
    }

    /** The artifacts of one workspace: the inner loop of setupContextAccessConditionsRepo. */
    method LoadWorkspacePolicies(baseUri: string, ws: WorkspaceModel, load: string -> Option<seq<Statement>>)
      returns (ok: bool)
      modifies this
      ensures Loaded(PolicyState(artifactPolicies, accessConditions), ok)
        == LoadPolicies(PolicyState(old(artifactPolicies), old(accessConditions)),
                        ArtifactEntries(baseUri, ws.name, ws.artifacts), load)
      ensures contextStreamMap == old(contextStreamMap) && contextDomains == old(contextDomains)
    {
      var arts := ws.artifacts;
      for j := 0 to |arts|
        invariant LoadPolicies(PolicyState(artifactPolicies, accessConditions), ArtifactEntries(baseUri, ws.name, arts[j..]), load)
          == LoadPolicies(PolicyState(old(artifactPolicies), old(accessConditions)), ArtifactEntries(baseUri, ws.name, arts), load)
        invariant contextStreamMap == old(contextStreamMap) && contextDomains == old(contextDomains)
      {
        var a := arts[j];
        assert arts[j..][0] == a && arts[j..][1..] == arts[j + 1..];
        if a.contextAccessPolicyURL.Some? {
          var url := a.contextAccessPolicyURL.value;
          var key := PolicyKey(baseUri, ws.name, a.name);
          artifactPolicies := artifactPolicies[key := url];
          if !ValidIri(key) {
            return false;
          }
          var g := load(url);
          if g.None? {
            return false;
          }
          accessConditions := accessConditions[key := GraphOf(accessConditions, key) + g.value];
        }
      }
      return true;
    }

    /**
     * setupContextAccessConditionsRepo: each artifact with a policy is put
     * into the index under its key, and its policy is loaded into the named
     * graph of that key; the first failure ends the setup.
     */
    method SetupContextAccessConditionsRepo(baseUri: string, workspaces: seq<WorkspaceModel>,
                                            load: string -> Option<seq<Statement>>) returns (ok: bool)
      modifies this
      ensures Loaded(PolicyState(artifactPolicies, accessConditions), ok)
        == LoadPolicies(PolicyState(old(artifactPolicies), old(accessConditions)), PolicyEntries(baseUri, workspaces), load)
      ensures contextStreamMap == old(contextStreamMap) && contextDomains == old(contextDomains)
    {
      for i := 0 to |workspaces|
        invariant LoadPolicies(PolicyState(artifactPolicies, accessConditions), PolicyEntries(baseUri, workspaces[i..]), load)
          == LoadPolicies(PolicyState(old(artifactPolicies), old(accessConditions)), PolicyEntries(baseUri, workspaces), load)
        invariant contextStreamMap == old(contextStreamMap) && contextDomains == old(contextDomains)
      {
        var ws := workspaces[i];
        assert workspaces[i..][0] == ws && workspaces[i..][1..] == workspaces[i + 1..];
        var before := PolicyState(artifactPolicies, accessConditions);
        LoadPoliciesAppend(before, ArtifactEntries(baseUri, ws.name, ws.artifacts), PolicyEntries(baseUri, workspaces[i + 1..]), load);
        ok := LoadWorkspacePolicies(baseUri, ws, load);
        if !ok {
          return false;
        }
      }
      return true;
    }

    /**
     * The setup part of start: streams, then domains, then the policy index;
     * an exception ends the setup (start only logs it and fails its promise).
     * The static and profiled repositories and the hub subscriptions are
     * outside the model.
     */
    method Setup(streams: seq<ContextStreamModel>, domains: seq<ContextDomainModel>,
                 baseUri: string, workspaces: seq<WorkspaceModel>,
                 parseUri: string -> Option<UriParts>, parses: string -> bool, loads: ContextDomainModel -> bool,
                 load: string -> Option<seq<Statement>>) returns (ok: bool)
      modifies this
      ensures contextStreamMap.Keys == old(contextStreamMap).Keys + StreamKeys(streams)
      ensures contextDomains.Keys == old(contextDomains).Keys
        + DomainKeys(domains[..FirstUnbuildable(domains, contextStreamMap.Keys, parses, loads)])
      ensures FirstUnbuildable(domains, contextStreamMap.Keys, parses, loads) < |domains| ==>
        !ok && artifactPolicies == old(artifactPolicies) && accessConditions == old(accessConditions)
      ensures FirstUnbuildable(domains, contextStreamMap.Keys, parses, loads) == |domains| ==>
        Loaded(PolicyState(artifactPolicies, accessConditions), ok)
          == LoadPolicies(PolicyState(old(artifactPolicies), old(accessConditions)), PolicyEntries(baseUri, workspaces), load)
    {
      InitializeContextStreams(streams, parseUri);
      ok := SetupCDGMembershipRepo(domains, parses, loads);
      if ok {
        ok := SetupContextAccessConditionsRepo(baseUri, workspaces, load);
      }
    }

    /** isAccessProtected. */
    predicate IsAccessProtected(resource: string)
      reads this
    {
      resource in artifactPolicies
    }

    /**
     * Once the policy index is what loading the environment's pairs gives,
     * a resource is protected only if it was indexed before or is the served
     * IRI of an artifact with a policy; after a successful loading every such
     * artifact is protected.
     */
    lemma ProtectedResources(s0: PolicyState, baseUri: string, wss: seq<WorkspaceModel>,
                             load: string -> Option<seq<Statement>>, resource: string)
      requires artifactPolicies == LoadPolicies(s0, PolicyEntries(baseUri, wss), load).state.policies
      ensures IsAccessProtected(resource) ==>
        (resource in s0.policies ||
         exists w, i :: 0 <= w < |wss| && 0 <= i < |wss[w].artifacts| && wss[w].artifacts[i].contextAccessPolicyURL.Some?
           && resource == PolicyKey(baseUri, wss[w].name, wss[w].artifacts[i].name))
      ensures LoadPolicies(s0, PolicyEntries(baseUri, wss), load).ok ==>
        forall w, i :: 0 <= w < |wss| && 0 <= i < |wss[w].artifacts| && wss[w].artifacts[i].contextAccessPolicyURL.Some? ==>
          IsAccessProtected(PolicyKey(baseUri, wss[w].name, wss[w].artifacts[i].name))
    {
      var es := PolicyEntries(baseUri, wss);
      LoadPoliciesResult(s0, es, load);
      if IsAccessProtected(resource) && resource !in s0.policies {
        var j :| 0 <= j < |es| && es[j].0 == resource;
        PolicyEntriesMembers(baseUri, wss, es[j]);
      }
      if LoadPolicies(s0, es, load).ok {
        forall w, i | 0 <= w < |wss| && 0 <= i < |wss[w].artifacts| && wss[w].artifacts[i].contextAccessPolicyURL.Some?
          ensures IsAccessProtected(PolicyKey(baseUri, wss[w].name, wss[w].artifacts[i].name))
        {
          var a := wss[w].artifacts[i];
          var e := (PolicyKey(baseUri, wss[w].name, a.name), a.contextAccessPolicyURL.value);
          PolicyEntriesMembers(baseUri, wss, e);
          var j :| 0 <= j < |es| && es[j] == e;
        }
      }
    }

    /**
     * The membership statements of the domains of the groups, in order; None
     * where a group's domain is not registered (the null domain throws).
     */
    function DynamicContext(groups: seq<string>): Option<seq<Statement>>
      reads this, contextDomains.Values
    {
      if |groups| == 0 then Some([])
      else
        var key := Some(DomainFromGroup(groups[0]));
        if key !in contextDomains then None
        else
          var sts := contextDomains[key].GetMembershipStatements(None);
          var rest := DynamicContext(groups[1..]);
          if rest.None? then None else Some(sts.value + rest.value)
    }

    /**
     * The dynamic context exists exactly when the domain of every group is
     * registered, and then it holds exactly the memberIn statements stored by
     * those domains.
     */
    lemma {:induction false} DynamicContextDefined(groups: seq<string>)
      ensures DynamicContext(groups).Some? <==> forall i :: 0 <= i < |groups| ==> Some(DomainFromGroup(groups[i])) in contextDomains
      ensures DynamicContext(groups).Some? ==> forall st :: st in DynamicContext(groups).value <==>
        exists i :: 0 <= i < |groups| && st in contextDomains[Some(DomainFromGroup(groups[i]))].store && st.pred == Vocab.MEMBER_IN
    {
      if |groups| > 0 {
        DynamicContextDefined(groups[1..]);
        assert forall i :: 1 <= i < |groups| ==> groups[1..][i - 1] == groups[i];
        var key := Some(DomainFromGroup(groups[0]));
        if key in contextDomains && DynamicContext(groups[1..]).Some? {
          forall st | st in DynamicContext(groups).value
            ensures exists i :: 0 <= i < |groups| && st in contextDomains[Some(DomainFromGroup(groups[i]))].store && st.pred == Vocab.MEMBER_IN
          {
            if st !in contextDomains[key].GetMembershipStatements(None).value {
              var i :| 0 <= i < |groups[1..]| && st in contextDomains[Some(DomainFromGroup(groups[1..][i]))].store && st.pred == Vocab.MEMBER_IN;
              assert groups[1..][i] == groups[i + 1];
            }
          }
        }
      }
    }

    /** addDynamicContext: the statements to add; a failed group query adds none. */
    method AddDynamicContext(groups: Option<seq<string>>) returns (dyn: Option<seq<Statement>>)
      ensures dyn == if groups.None? then Some([]) else DynamicContext(groups.value)
    {
      if groups.None? {
        return Some([]);
      }
      var gs := groups.value;
      var acc: seq<Statement> := [];
      assert gs[0..] == gs;
      assert DynamicContext(gs).Some? ==> [] + DynamicContext(gs).value == DynamicContext(gs).value;
      for i := 0 to |gs|
        invariant DynamicContext(gs) == (var r := DynamicContext(gs[i..]); if r.None? then None else Some(acc + r.value))
      {
        assert gs[i..][0] == gs[i] && gs[i..][1..] == gs[i + 1..];
        var key := Some(DomainFromGroup(gs[i]));
        if key !in contextDomains {
          return None;
        }
        var sts := contextDomains[key].GetMembershipStatements(None);
        var rest := DynamicContext(gs[i + 1..]);
        if rest.Some? {
          assert acc + (sts.value + rest.value) == (acc + sts.value) + rest.value;
        }
        acc := acc + sts.value;
      }
      assert gs[|gs|..] == [];
      assert acc + [] == acc;
      return Some(acc);
    }

    /** customizeAccessConditions, in place; false where createIRI throws, at the first placeholder, before anything changed. */
    method CustomizeAccessConditions(a: array<Statement>, requester: string) returns (ok: bool)
      modifies a
      ensures ok <==> Customize(old(a[..]), requester).Some?
      ensures ok ==> a[..] == Customize(old(a[..]), requester).value
      ensures !ok ==> a[..] == old(a[..])
    {
      for i := 0 to a.Length
        invariant forall j :: 0 <= j < i ==> a[j] == CustomizeStatement(old(a[j]), requester)
        invariant forall j :: i <= j < a.Length ==> a[j] == old(a[j])
        invariant !ValidIri(requester) ==> forall j :: 0 <= j < i ==> StringValue(old(a[j]).obj) != Vocab.ACCESS_REQUESTER
      {
        if StringValue(a[i].obj) == Vocab.ACCESS_REQUESTER {
          if !ValidIri(requester) {
            assert forall j :: 0 <= j < a.Length ==> a[j] == old(a[j]);
            assert HasPlaceholder(old(a[..])) by {
              assert StringValue(old(a[..])[i].obj) == Vocab.ACCESS_REQUESTER;
            }
            return false;
          }
          a[i] := Statement(a[i].subj, a[i].pred, Iri(requester));
        }
      }
      assert !ValidIri(requester) ==> !HasPlaceholder(old(a[..]));
      return true;
    }

    /** validateContextBasedAccess. */
    method ValidateContextBasedAccess(requester: string, resource: string, oracles: Oracles) returns (o: Outcome)
      ensures o == ValidationOutcome(artifactPolicies, accessConditions, staticContext + profiledContext,
        if oracles.groupURIs.None? then Some([]) else DynamicContext(oracles.groupURIs.value),
        requester, resource, oracles.repoOk, oracles.validate)
    {
      if !IsAccessProtected(resource) {
        return Completed([ALLOW]);
      }
      var data := staticContext + profiledContext;
      var dyn := AddDynamicContext(oracles.groupURIs);
      if dyn.None? {
        return Escaped([]);
      }
      if !oracles.repoOk {
        return Completed([ALLOW]);
      }
      if !ValidIri(resource) {
        return IllegalArgument([]);
      }
      var conditions := GraphOf(accessConditions, resource);
      var a := new Statement[|conditions|](j requires 0 <= j < |conditions| => conditions[j]);
      assert a[..] == conditions;
      var ok := CustomizeAccessConditions(a, requester);
      if !ok {
        return IllegalArgument([]);
      }
      match oracles.validate(a[..], data + dyn.value)
      case Conforms =>
        o := Completed([ALLOW]);
      case Rejected(cause) =>
        o := Completed([Fail(SC_FORBIDDEN, DenialMessage(cause))]);
        o := Completed(o.responses + [ALLOW]);
    }

    /** updateContextStream: 404 for an unknown stream; otherwise the parsed graph goes to the stream with the timestamp. */
    method UpdateContextStream(uri: string, content: string, t: Int64, parseGraph: string -> Option<Graph>)
      returns (o: Outcome)
      modifies if Some(uri) in contextStreamMap then {contextStreamMap[Some(uri)], contextStreamMap[Some(uri)].dataStream} else {}
      ensures Some(uri) !in contextStreamMap ==> o == Completed([Fail(SC_NOT_FOUND, "Unknown stream: " + uri)])
      ensures Some(uri) in contextStreamMap && parseGraph(content).None? ==> o == Escaped([])
      ensures Some(uri) in contextStreamMap && parseGraph(content).Some? ==>
        var s := contextStreamMap[Some(uri)];
        o == Completed([Reply(TextBody("Stream " + uri + " updated successfully."))])
        && s.lastUpdateTimestamp == t && s.dataStream == old(s.dataStream)
        && s.dataStream.items == old(s.dataStream.items) + [(parseGraph(content).value, t)]
    {
      if Some(uri) !in contextStreamMap {
        return Completed([Fail(SC_NOT_FOUND, "Unknown stream: " + uri)]);
      }
      var stream := contextStreamMap[Some(uri)];
      var g := parseGraph(content);
      if g.None? {
        return Escaped([]);
      }
      stream.UpdateStream(g.value, t);
      return Completed([Reply(TextBody("Stream " + uri + " updated successfully."))]);
    }

    /**
     * The request handler of setupRequestHandling: the message variant picks
     * the operation; a variant without a case, subscription verification
     * among them, gets 400.
     */
    method HandleMessage(msg: ContextMessage, oracles: Oracles) returns (responses: seq<Response>, escaped: bool)
      modifies if msg.ContextStreamUpdate? && Some(msg.streamURI) in contextStreamMap
        then {contextStreamMap[Some(msg.streamURI)], contextStreamMap[Some(msg.streamURI)].dataStream} else {}
      ensures msg.ValidateContextBasecAccess? ==> (responses, escaped) == Deliver(ValidationOutcome(
        artifactPolicies, accessConditions, staticContext + profiledContext,
        if oracles.groupURIs.None? then Some([]) else DynamicContext(oracles.groupURIs.value),
        msg.accessRequesterURI, msg.accessedResourceURI, oracles.repoOk, oracles.validate))
      ensures msg.GetStaticContext? ==> responses == [Reply(StatementsBody(staticContext))] && !escaped
      ensures msg.GetProfiledContext? ==> responses == [Reply(StatementsBody(profiledContext))] && !escaped
      ensures msg.ContextStreamUpdate? && Some(msg.streamURI) !in contextStreamMap ==>
        responses == [Fail(SC_NOT_FOUND, "Unknown stream: " + msg.streamURI)] && !escaped
      ensures msg.ContextStreamUpdate? && Some(msg.streamURI) in contextStreamMap ==>
        var s := contextStreamMap[Some(msg.streamURI)];
        var g := oracles.parseGraph(msg.updateContent);
        (g.None? ==> responses == [] && escaped)
        && (g.Some? ==>
              responses == [Reply(TextBody("Stream " + msg.streamURI + " updated successfully."))] && !escaped
              && s.lastUpdateTimestamp == msg.updateTimestamp && s.dataStream == old(s.dataStream)
              && s.dataStream.items == old(s.dataStream.items) + [(g.value, msg.updateTimestamp)])
      ensures msg.VerifyContextStreamSubscription? ==> responses == [Fail(SC_BAD_REQUEST, UNKNOWN_MESSAGE_TYPE)] && !escaped
    {
      match msg
      case ValidateContextBasecAccess(requester, resource) =>
        var o := ValidateContextBasedAccess(requester, resource, oracles);
        responses, escaped := Deliver(o).0, Deliver(o).1;
      case GetStaticContext =>
        responses, escaped := [Reply(StatementsBody(staticContext))], false;
      case GetProfiledContext(_) =>
        responses, escaped := [Reply(StatementsBody(profiledContext))], false;
      case ContextStreamUpdate(uri, content, t) =>
        var o := UpdateContextStream(uri, content, t, oracles.parseGraph);
        responses, escaped := Deliver(o).0, Deliver(o).1;
      case VerifyContextStreamSubscription(_) =>
        responses, escaped := [Fail(SC_BAD_REQUEST, UNKNOWN_MESSAGE_TYPE)], false;
    }
  }
}
