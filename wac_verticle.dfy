/**
 * The access-control service: it loads the context-based authorizations of
 * the environment's artifacts into the registry at start-up, answers whether
 * an agent may access a resource (asking the context management service when
 * a rule applies), and serves the Web Access Control document of a resource.
 */
module WAC {
  import opened Wrappers
  import opened JavaLang
  import opened Rdf
  import opened Json
  import opened Messages
  import opened AuthorizationAccessType
  import opened Authorization
  import opened Registry
  import ContextMgmt
  import opened Uris

  const BUS_ADDRESS: string := "org.hyperagents.yggdrasil.eventbus.wac"
  const WAC_METHOD: string := "org.hyperagents.yggdrasil.eventbus.headers.wacMethod"
  const ACCESSED_RESOURCE_URI: string := "org.hyperagents.yggdrasil.eventbus.headers.accessedResourceUri"
  const ACCESS_TYPE: string := "org.hyperagents.yggdrasil.eventbus.headers.accessType"
  const AGENT_WEBID: string := "org.hyperagents.yggdrasil.eventbus.headers.agentWebId"

  const VALIDATION_FAILED: string := "Authorization validation failed"
  const SERIALIZATION_FAILED: string := "Error converting the authorization model to a string"

  /** The body of the 404 answer for a resource without rules. */
  function NoPolicyError(resource: string): string
  {
    ErrorJson("Resource" + resource + " has no WAC policy")
  }

  // ---------------------------------------------------------------- the registry seen as values

  /** The registry with each rule object replaced by its record fields. */
  type RuleView = map<string, seq<Rule>>

  function View(m: map<string, Rules>): (v: RuleView)
    ensures v.Keys == m.Keys
    ensures forall k :: k in m ==> v[k] == FieldsOf(m[k])
  {
    map k | k in m :: FieldsOf(m[k])
  }

  /** addContextAuthorisation(r.resourceURI, r) on the view. */
  function AddRule(v: RuleView, r: Rule): RuleView
  {
    v[r.resourceURI := (if r.resourceURI in v then v[r.resourceURI] else []) + [r]]
  }

  /** The rules added one after the other. */
  function AddRules(v: RuleView, rs: seq<Rule>): RuleView
    decreases |rs|
  {
    if |rs| == 0 then v else AddRule(AddRules(v, rs[..|rs| - 1]), rs[|rs| - 1])
  }

  /**
   * The policy URL of the artifact makes new URI(url).toURL() throw an
   * exception that neither catch of setupAuthorizationRegistry takes: the
   * URL is relative.
   */
  predicate PolicyEscapes(a: ContextMgmt.ArtifactModel, parses: string -> bool)
  {
    a.contextAccessPolicyURL.Some? && Uncaught(ToUrl(a.contextAccessPolicyURL, parses))
  }

  /**
   * The rules the policy of one artifact yields: none without a policy URL,
   * when the URL does not become a URL, or when reading it fails.
   */
  function PolicyRules(a: ContextMgmt.ArtifactModel, parses: string -> bool, parse: string -> Option<Model>): seq<Rule>
  {
    match ToUrl(a.contextAccessPolicyURL, parses)
    case Absolute(url) =>
      var m := parse(url);
      if m.None? then [] else FromModelRules(m.value)
    case _ => []
  }

  /** The rules of the artifacts, in order. */
  function ArtifactRules(arts: seq<ContextMgmt.ArtifactModel>, parses: string -> bool, parse: string -> Option<Model>): seq<Rule>
    decreases |arts|
  {
    if |arts| == 0 then [] else ArtifactRules(arts[..|arts| - 1], parses, parse) + PolicyRules(arts[|arts| - 1], parses, parse)
  }

  /** The index of the first artifact whose policy URL escapes, or the number of artifacts. */
  function FirstEscape(arts: seq<ContextMgmt.ArtifactModel>, parses: string -> bool): (r: nat)
    ensures r <= |arts|
    ensures forall i :: 0 <= i < r ==> !PolicyEscapes(arts[i], parses)
    ensures r < |arts| ==> PolicyEscapes(arts[r], parses)
  {
    if |arts| == 0 then 0
    else if PolicyEscapes(arts[0], parses) then 0
    else 1 + FirstEscape(arts[1..], parses)
  }

  /** The artifacts of all workspaces, in order. */
  function EnvironmentArtifacts(wss: seq<ContextMgmt.WorkspaceModel>): seq<ContextMgmt.ArtifactModel>
    decreases |wss|
  {
    if |wss| == 0 then [] else EnvironmentArtifacts(wss[..|wss| - 1]) + wss[|wss| - 1].artifacts
  }

  /** FirstEscape is the only index with its two properties. */
  lemma {:induction false} FirstEscapeIs(arts: seq<ContextMgmt.ArtifactModel>, parses: string -> bool, r: nat)
    requires r <= |arts|
    requires forall i :: 0 <= i < r ==> !PolicyEscapes(arts[i], parses)
    requires r < |arts| ==> PolicyEscapes(arts[r], parses)
    ensures FirstEscape(arts, parses) == r
  {
    var f := FirstEscape(arts, parses);
    assert f < |arts| ==> PolicyEscapes(arts[f], parses);
  }

  lemma FirstEscapeGoesOn(arts: seq<ContextMgmt.ArtifactModel>, parses: string -> bool, j: nat)
    requires j <= FirstEscape(arts, parses) && j < |arts| && !PolicyEscapes(arts[j], parses)
    ensures j < FirstEscape(arts, parses)
  {
  }

  /** After artifacts that do not escape, the first escape is found in what follows. */
  lemma FirstEscapeAppend(a: seq<ContextMgmt.ArtifactModel>, b: seq<ContextMgmt.ArtifactModel>, parses: string -> bool)
    requires FirstEscape(a, parses) == |a|
    ensures FirstEscape(a + b, parses) == |a| + FirstEscape(b, parses)
  {
    var k := FirstEscape(b, parses);
    forall i | 0 <= i < |a| + k
      ensures !PolicyEscapes((a + b)[i], parses)
    {
      if i >= |a| {
        assert (a + b)[i] == b[i - |a|];
      }
    }
    if k < |b| {
      assert (a + b)[|a| + k] == b[k];
    }
    FirstEscapeIs(a + b, parses, |a| + k);
  }

  /** An escape inside a prefix is the first escape of the whole sequence. */
  lemma FirstEscapePrefix(a: seq<ContextMgmt.ArtifactModel>, all: seq<ContextMgmt.ArtifactModel>, parses: string -> bool)
    requires a <= all && FirstEscape(a, parses) < |a|
    ensures FirstEscape(all, parses) == FirstEscape(a, parses)
  {
    var k := FirstEscape(a, parses);
    assert forall i :: 0 <= i <= k ==> all[i] == a[i];
    FirstEscapeIs(all, parses, k);
  }

  lemma {:induction false} ArtifactRulesAppend(a: seq<ContextMgmt.ArtifactModel>, b: seq<ContextMgmt.ArtifactModel>,
                                               parses: string -> bool, parse: string -> Option<Model>)
    ensures ArtifactRules(a + b, parses, parse) == ArtifactRules(a, parses, parse) + ArtifactRules(b, parses, parse)
    decreases |b|
  {
    if |b| == 0 {
      assert a + b == a;
    } else {
      var init := b[..|b| - 1];
      assert (a + b)[..|a + b| - 1] == a + init;
      ArtifactRulesAppend(a, init, parses, parse);
    }
  }

  lemma EnvironmentArtifactsSnoc(wss: seq<ContextMgmt.WorkspaceModel>, w: nat)
    requires w < |wss|
    ensures EnvironmentArtifacts(wss[..w + 1]) == EnvironmentArtifacts(wss[..w]) + wss[w].artifacts
  {
    assert wss[..w + 1][..w] == wss[..w];
  }

  /** The artifacts of the first w workspaces come first. */
  lemma {:induction false} EnvironmentArtifactsPrefix(wss: seq<ContextMgmt.WorkspaceModel>, w: nat)
    requires w <= |wss|
    ensures EnvironmentArtifacts(wss[..w]) <= EnvironmentArtifacts(wss)
    decreases |wss|
  {
    if w == |wss| {
      assert wss[..w] == wss;
    } else {
      var init := wss[..|wss| - 1];
      assert init[..w] == wss[..w];
      EnvironmentArtifactsPrefix(init, w);
    }
  }

  /** Adding a rule object to the registry adds its fields to the view. */
  lemma ViewOfAdd(m: map<string, Rules>, a: ContextBasedAuthorization)
    ensures View(AddTo(m, a.resourceURI, a)) == AddRule(View(m), a.Fields())
  {
    var k := a.resourceURI;
    ViewUpdate(m, k, RulesOf(m, k) + [a]);
    FieldsOfAppend(RulesOf(m, k), [a]);
    assert FieldsOf([a]) == [a.Fields()];
    assert FieldsOf(RulesOf(m, k)) == if k in View(m) then View(m)[k] else [];
  }

  /** Replacing the rule objects of one resource replaces its fields in the view. */
  lemma ViewUpdate(m: map<string, Rules>, k: string, rs: Rules)
    ensures View(m[k := rs]) == View(m)[k := FieldsOf(rs)]
  {
    var lhs, rhs := View(m[k := rs]), View(m)[k := FieldsOf(rs)];
    assert lhs.Keys == rhs.Keys;
    forall key | key in lhs
      ensures lhs[key] == rhs[key]
    {
      if key == k {
        assert lhs[key] == FieldsOf(rs) == rhs[key];
      } else {
        assert lhs[key] == FieldsOf(m[key]) == rhs[key];
      }
    }
  }

  lemma FieldsOfSnoc(xs: Rules, k: nat)
    requires k < |xs|
    ensures FieldsOf(xs[..k + 1]) == FieldsOf(xs[..k]) + [xs[k].Fields()]
  {
    FieldsOfAppend(xs[..k], [xs[k]]);
    assert xs[..k + 1] == xs[..k] + [xs[k]];
  }

  lemma AddRulesSnoc(v: RuleView, rs: seq<Rule>, r: Rule)
    ensures AddRules(v, rs + [r]) == AddRule(AddRules(v, rs), r)
  {
    assert (rs + [r])[..|rs|] == rs;
  }

  /** One more rule object added moves the view one rule further. */
  lemma AddStep(v0: RuleView, m: map<string, Rules>, auths: Rules, k: nat)
    requires k < |auths| && View(m) == AddRules(v0, FieldsOf(auths[..k]))
    ensures View(AddTo(m, auths[k].resourceURI, auths[k])) == AddRules(v0, FieldsOf(auths[..k + 1]))
  {
    ViewOfAdd(m, auths[k]);
    FieldsOfSnoc(auths, k);
    AddRulesSnoc(v0, FieldsOf(auths[..k]), auths[k].Fields());
  }

  lemma {:induction false} AddRulesAppend(v: RuleView, a: seq<Rule>, b: seq<Rule>)
    ensures AddRules(v, a + b) == AddRules(AddRules(v, a), b)
    decreases |b|
  {
    if |b| == 0 {
      assert a + b == a;
    } else {
      assert (a + b)[..|a + b| - 1] == a + b[..|b| - 1];
      AddRulesAppend(v, a, b[..|b| - 1]);
    }
  }

  /** One rule added: listed under its resource, every old list kept as a prefix, no other key. */
  lemma AddRuleFacts(w: RuleView, r: Rule)
    ensures r.resourceURI in AddRule(w, r) && r in AddRule(w, r)[r.resourceURI]
    ensures forall k :: k in w ==> k in AddRule(w, r) && w[k] <= AddRule(w, r)[k]
    ensures forall k :: k in AddRule(w, r) ==> k in w || k == r.resourceURI
  {
  }

  /**
   * After adding rules, every rule is listed under its resource, and every
   * resource keeps its old rules first.
   */
  lemma AddRulesContains(v: RuleView, rs: seq<Rule>)
    ensures forall i :: 0 <= i < |rs| ==> rs[i].resourceURI in AddRules(v, rs) && rs[i] in AddRules(v, rs)[rs[i].resourceURI]
    ensures forall k :: k in v ==> k in AddRules(v, rs) && v[k] <= AddRules(v, rs)[k]
    ensures forall k :: k in AddRules(v, rs) ==> k in v || exists i :: 0 <= i < |rs| && rs[i].resourceURI == k
  {
    AddRulesKeepOld(v, rs);
    AddRulesListEach(v, rs);
    AddRulesNoOtherKey(v, rs);
  }

  lemma {:induction false} AddRulesKeepOld(v: RuleView, rs: seq<Rule>)
    ensures forall k :: k in v ==> k in AddRules(v, rs) && v[k] <= AddRules(v, rs)[k]
    decreases |rs|
  {
    if |rs| > 0 {
      AddRulesKeepOld(v, rs[..|rs| - 1]);
      AddRuleFacts(AddRules(v, rs[..|rs| - 1]), rs[|rs| - 1]);
    }
  }

  lemma {:induction false} AddRulesListEach(v: RuleView, rs: seq<Rule>)
    ensures forall i :: 0 <= i < |rs| ==> rs[i].resourceURI in AddRules(v, rs) && rs[i] in AddRules(v, rs)[rs[i].resourceURI]
    decreases |rs|
  {
    if |rs| > 0 {
      var init := rs[..|rs| - 1];
      var last := rs[|rs| - 1];
      var w := AddRules(v, init);
      AddRulesListEach(v, init);
      AddRuleFacts(w, last);
      forall i | 0 <= i < |rs|
        ensures rs[i].resourceURI in AddRule(w, last) && rs[i] in AddRule(w, last)[rs[i].resourceURI]
      {
        if i < |init| {
          assert rs[i] == init[i];
          assert w[rs[i].resourceURI] <= AddRule(w, last)[rs[i].resourceURI];
        }
      }
    }
  }

  lemma {:induction false} AddRulesNoOtherKey(v: RuleView, rs: seq<Rule>)
    ensures forall k :: k in AddRules(v, rs) ==> k in v || exists i :: 0 <= i < |rs| && rs[i].resourceURI == k
    decreases |rs|
  {
    if |rs| > 0 {
      var init := rs[..|rs| - 1];
      var last := rs[|rs| - 1];
      var w := AddRules(v, init);
      AddRulesNoOtherKey(v, init);
      AddRuleFacts(w, last);
      forall k | k in AddRule(w, last)
        ensures k in v || exists i :: 0 <= i < |rs| && rs[i].resourceURI == k
      {
        if k != last.resourceURI && k !in v {
          var i :| 0 <= i < |init| && init[i].resourceURI == k;
          assert rs[i] == init[i];
        }
      }
    }
  }

  /** The state of the environment walk when workspace w escapes. */
  lemma EscapeInWorkspace(wss: seq<ContextMgmt.WorkspaceModel>, w: nat, parses: string -> bool)
    requires w < |wss|
    requires FirstEscape(EnvironmentArtifacts(wss[..w]), parses) == |EnvironmentArtifacts(wss[..w])|
    requires FirstEscape(wss[w].artifacts, parses) < |wss[w].artifacts|
    ensures var pre := EnvironmentArtifacts(wss[..w]);
      var k := FirstEscape(wss[w].artifacts, parses);
      var all := EnvironmentArtifacts(wss);
      FirstEscape(all, parses) == |pre| + k < |all| && all[..|pre| + k] == pre + wss[w].artifacts[..k]
  {
    var pre := EnvironmentArtifacts(wss[..w]);
    var arts := wss[w].artifacts;
    EnvironmentArtifactsSnoc(wss, w);
    EnvironmentArtifactsPrefix(wss, w + 1);
    FirstEscapeAppend(pre, arts, parses);
    FirstEscapePrefix(pre + arts, EnvironmentArtifacts(wss), parses);
    assert (pre + arts)[..|pre| + FirstEscape(arts, parses)] == pre + arts[..FirstEscape(arts, parses)];
  }

  /** The rules the environment walk loads when workspace w escapes. */
  lemma EscapeRules(wss: seq<ContextMgmt.WorkspaceModel>, w: nat, parses: string -> bool, parse: string -> Option<Model>)
    requires w < |wss|
    requires FirstEscape(EnvironmentArtifacts(wss[..w]), parses) == |EnvironmentArtifacts(wss[..w])|
    requires FirstEscape(wss[w].artifacts, parses) < |wss[w].artifacts|
    ensures var all := EnvironmentArtifacts(wss);
      FirstEscape(all, parses) < |all|
      && ArtifactRules(all[..FirstEscape(all, parses)], parses, parse)
        == ArtifactRules(EnvironmentArtifacts(wss[..w]), parses, parse)
          + ArtifactRules(wss[w].artifacts[..FirstEscape(wss[w].artifacts, parses)], parses, parse)
  {
    var pre := EnvironmentArtifacts(wss[..w]);
    var head := wss[w].artifacts[..FirstEscape(wss[w].artifacts, parses)];
    var all := EnvironmentArtifacts(wss);
    EscapeInWorkspace(wss, w, parses);
    assert all[..FirstEscape(all, parses)] == pre + head;
    ArtifactRulesAppend(pre, head, parses, parse);
  }

  /** The state of the environment walk when workspace w does not escape. */
  lemma NoEscapeInWorkspace(wss: seq<ContextMgmt.WorkspaceModel>, w: nat, parses: string -> bool, parse: string -> Option<Model>)
    requires w < |wss|
    requires FirstEscape(EnvironmentArtifacts(wss[..w]), parses) == |EnvironmentArtifacts(wss[..w])|
    requires FirstEscape(wss[w].artifacts, parses) == |wss[w].artifacts|
    ensures FirstEscape(EnvironmentArtifacts(wss[..w + 1]), parses) == |EnvironmentArtifacts(wss[..w + 1])|
    ensures ArtifactRules(EnvironmentArtifacts(wss[..w + 1]), parses, parse)
      == ArtifactRules(EnvironmentArtifacts(wss[..w]), parses, parse)
        + ArtifactRules(wss[w].artifacts[..FirstEscape(wss[w].artifacts, parses)], parses, parse)
  {
    EnvironmentArtifactsSnoc(wss, w);
    FirstEscapeAppend(EnvironmentArtifacts(wss[..w]), wss[w].artifacts, parses);
    assert wss[w].artifacts[..FirstEscape(wss[w].artifacts, parses)] == wss[w].artifacts;
    ArtifactRulesAppend(EnvironmentArtifacts(wss[..w]), wss[w].artifacts, parses, parse);
  }

  /** The walk of the environment after workspace w, in terms of the views before and after it. */
  lemma WorkspaceStep(wss: seq<ContextMgmt.WorkspaceModel>, w: nat, parses: string -> bool, parse: string -> Option<Model>,
                      v0: RuleView, v1: RuleView, v2: RuleView)
    requires w < |wss|
    requires FirstEscape(EnvironmentArtifacts(wss[..w]), parses) == |EnvironmentArtifacts(wss[..w])|
    requires v1 == AddRules(v0, ArtifactRules(EnvironmentArtifacts(wss[..w]), parses, parse))
    requires v2 == AddRules(v1, ArtifactRules(wss[w].artifacts[..FirstEscape(wss[w].artifacts, parses)], parses, parse))
    ensures FirstEscape(wss[w].artifacts, parses) == |wss[w].artifacts| ==>
      FirstEscape(EnvironmentArtifacts(wss[..w + 1]), parses) == |EnvironmentArtifacts(wss[..w + 1])|
      && v2 == AddRules(v0, ArtifactRules(EnvironmentArtifacts(wss[..w + 1]), parses, parse))
    ensures FirstEscape(wss[w].artifacts, parses) < |wss[w].artifacts| ==> var all := EnvironmentArtifacts(wss);
      FirstEscape(all, parses) < |all|
      && v2 == AddRules(v0, ArtifactRules(all[..FirstEscape(all, parses)], parses, parse))
  {
    var a := ArtifactRules(EnvironmentArtifacts(wss[..w]), parses, parse);
    var b := ArtifactRules(wss[w].artifacts[..FirstEscape(wss[w].artifacts, parses)], parses, parse);
    AddRulesAppend(v0, a, b);
    if FirstEscape(wss[w].artifacts, parses) < |wss[w].artifacts| {
      EscapeRules(wss, w, parses, parse);
    } else {
      NoEscapeInWorkspace(wss, w, parses, parse);
    }
  }

  lemma {:induction false} ArtifactRulesHas(arts: seq<ContextMgmt.ArtifactModel>, parses: string -> bool,
                                            parse: string -> Option<Model>, i: nat)
    requires i < |arts|
    ensures forall r :: r in PolicyRules(arts[i], parses, parse) ==> r in ArtifactRules(arts, parses, parse)
    decreases |arts|
  {
    if i < |arts| - 1 {
      assert arts[..|arts| - 1][i] == arts[i];
      ArtifactRulesHas(arts[..|arts| - 1], parses, parse, i);
    }
  }

  /**
   * A readable policy of an artifact before the first one whose URL escapes
   * contributes all its rules to what the walk loads.
   */
  lemma ArtifactRulesContain(arts: seq<ContextMgmt.ArtifactModel>, parses: string -> bool,
                             parse: string -> Option<Model>, i: nat)
    requires i < FirstEscape(arts, parses)
    ensures forall r :: r in PolicyRules(arts[i], parses, parse) ==>
      r in ArtifactRules(arts[..FirstEscape(arts, parses)], parses, parse)
  {
    assert arts[..FirstEscape(arts, parses)][i] == arts[i];
    ArtifactRulesHas(arts[..FirstEscape(arts, parses)], parses, parse, i);
  }

  // ---------------------------------------------------------------- the document of a resource

  /** Every rule object has its instance IRI. */
  predicate AllNamed(rs: Rules)
    reads rs
  {
    forall i :: 0 <= i < |rs| ==> rs[i].authIRI.Some?
  }

  /** The models merged one after the other into an empty model. */
  function Union(ds: seq<Described>): Model
    decreases |ds|
  {
    if |ds| == 0 then [] else AddAll(Union(ds[..|ds| - 1]), ds[|ds| - 1].model)
  }

  /** The merged model holds exactly the statements of the parts. */
  lemma {:induction false} UnionContents(ds: seq<Described>, st: Statement)
    ensures st in Union(ds) <==> exists i :: 0 <= i < |ds| && st in ds[i].model
    decreases |ds|
  {
    if |ds| > 0 {
      var init := ds[..|ds| - 1];
      UnionContents(init, st);
      if st in Union(ds) && st !in ds[|ds| - 1].model {
        var i :| 0 <= i < |init| && st in init[i].model;
        assert ds[i] == init[i];
      }
      if exists i :: 0 <= i < |ds| && st in ds[i].model {
        var i :| 0 <= i < |ds| && st in ds[i].model;
        if i < |init| {
          assert init[i] == ds[i];
        }
      }
    }
  }

  /**
   * toModel on each rule object in turn, merging the models; it stops at
   * the first object that cannot be described. An object that already has
   * an instance IRI keeps it.
   */
  method DescribeAll(rs: Rules, freshId: nat -> string) returns (model: Option<Model>, ghost ds: seq<Described>)
    modifies rs
    ensures forall j :: 0 <= j < |rs| && old(rs[j].authIRI).Some? ==> rs[j].authIRI == old(rs[j].authIRI)
    ensures model.Some? ==> DescribedAs(rs, ds) && model == Some(Union(ds))
    ensures model.None? ==> SomeUndescribable(rs)
  {
    var m: Model := [];
    ds := [];
    for i := 0 to |rs|
      invariant forall j :: 0 <= j < |rs| && old(rs[j].authIRI).Some? ==> rs[j].authIRI == old(rs[j].authIRI)
      invariant DescribedAs(rs[..i], ds) && m == Union(ds)
    {
      var d := DescribeNext(rs, i, ds, freshId(i));
      if d.None? {
        return None, ds;
      }
      assert (ds + [d.value])[..|ds|] == ds;
      m := AddAll(m, d.value.model);
      ds := ds + [d.value];
    }
    assert rs[..|rs|] == rs;
    return Some(m), ds;
  }

  // ---------------------------------------------------------------- the service

  class WACVerticle {
    /** The authorization registry (a singleton in Java). */
    const registry: AuthorizationRegistry
    /** Whether the context management message box is enabled; a disabled box completes every request successfully. */
    const contextEnabled: bool

    constructor (registry: AuthorizationRegistry, contextEnabled: bool)
      ensures this.registry == registry && this.contextEnabled == contextEnabled
    {
      this.registry := registry;
      this.contextEnabled := contextEnabled;
    }

    /** The rule objects added one after the other, each under its resource. */
    method AddAuthorisations(auths: Rules)
      modifies registry
      ensures View(registry.authMap) == AddRules(View(old(registry.authMap)), FieldsOf(auths))
      ensures old(registry.Valid()) ==> registry.Valid()
    {
      ghost var v0 := View(registry.authMap);
      for k := 0 to |auths|
        invariant View(registry.authMap) == AddRules(v0, FieldsOf(auths[..k]))
        invariant old(registry.Valid()) ==> registry.Valid()
      {
        AddStep(v0, registry.authMap, auths, k);
        registry.AddContextAuthorisation(auths[k].resourceURI, auths[k]);
      }
      assert auths[..|auths|] == auths;
    }

    /**
     * One artifact: its policy, when it has one and it can be read, is added
     * rule by rule. A relative policy URL throws out of the walk (escaped),
     * before anything is added.
     */
    method LoadArtifactPolicy(a: ContextMgmt.ArtifactModel, parses: string -> bool, parse: string -> Option<Model>)
      returns (escaped: bool)
      modifies registry
      ensures escaped <==> PolicyEscapes(a, parses)
      ensures escaped ==> registry.authMap == old(registry.authMap)
      ensures View(registry.authMap) == AddRules(View(old(registry.authMap)), PolicyRules(a, parses, parse))
      ensures old(registry.Valid()) ==> registry.Valid()
    {
      if a.contextAccessPolicyURL.None? {
        return false;
      }
      var url := ToUrl(a.contextAccessPolicyURL, parses);
      if Uncaught(url) {
        return true;
      }
      if url.Absolute? {
        var m := parse(url.url);
        if m.Some? {
          var auths := FromModel(m.value);
          AddAuthorisations(auths);
        }
      }
      return false;
    }

    /** The artifacts of one workspace, in order, up to the first whose policy URL escapes. */
    method LoadWorkspace(arts: seq<ContextMgmt.ArtifactModel>, parses: string -> bool, parse: string -> Option<Model>)
      returns (escaped: bool)
      modifies registry
      ensures escaped <==> FirstEscape(arts, parses) < |arts|
      ensures View(registry.authMap) == AddRules(View(old(registry.authMap)), ArtifactRules(arts[..FirstEscape(arts, parses)], parses, parse))
      ensures old(registry.Valid()) ==> registry.Valid()
    {
      ghost var v0 := View(registry.authMap);
      ghost var n := FirstEscape(arts, parses);
      for j := 0 to |arts|
        invariant j <= n
        invariant View(registry.authMap) == AddRules(v0, ArtifactRules(arts[..j], parses, parse))
        invariant old(registry.Valid()) ==> registry.Valid()
      {
        assert arts[..j + 1][..j] == arts[..j];
        AddRulesAppend(v0, ArtifactRules(arts[..j], parses, parse), PolicyRules(arts[j], parses, parse));
        escaped := LoadArtifactPolicy(arts[j], parses, parse);
        if escaped {
          FirstEscapeIs(arts, parses, j);
          return;
        }
        FirstEscapeGoesOn(arts, parses, j);
      }
      assert arts[..|arts|] == arts;
      return false;
    }

    /**
     * setupAuthorizationRegistry: for every artifact of every workspace with a
     * policy URL, read the policy and add each of its rules under the rule's
     * resource. parse stands for opening the URL and reading its Turtle; it
     * is None when that fails, which skips the artifact, as does a URL that
     * the URI parser rejects. A relative URL throws out of the nested
     * forEach and out of start: the artifacts after it are never loaded
     * (escaped), and start then never sets up the request handling.
     */
    method SetupAuthorizationRegistry(wss: seq<ContextMgmt.WorkspaceModel>, parses: string -> bool,
                                      parse: string -> Option<Model>) returns (escaped: bool)
      modifies registry
      ensures var all := EnvironmentArtifacts(wss);
        (escaped <==> FirstEscape(all, parses) < |all|)
        && View(registry.authMap) == AddRules(View(old(registry.authMap)), ArtifactRules(all[..FirstEscape(all, parses)], parses, parse))
      ensures old(registry.Valid()) ==> registry.Valid()
    {
      ghost var v0 := View(registry.authMap);
      for w := 0 to |wss|
        invariant FirstEscape(EnvironmentArtifacts(wss[..w]), parses) == |EnvironmentArtifacts(wss[..w])|
        invariant View(registry.authMap) == AddRules(v0, ArtifactRules(EnvironmentArtifacts(wss[..w]), parses, parse))
        invariant old(registry.Valid()) ==> registry.Valid()
      {
        escaped := LoadNextWorkspace(wss, w, parses, parse, v0);
        if escaped {
          return;
        }
      }
      assert wss[..|wss|] == wss;
      assert EnvironmentArtifacts(wss)[..|EnvironmentArtifacts(wss)|] == EnvironmentArtifacts(wss);
      return false;
    }

    /** One step of setupAuthorizationRegistry: workspace w, after the earlier ones loaded without an escape. */
    method LoadNextWorkspace(wss: seq<ContextMgmt.WorkspaceModel>, w: nat, parses: string -> bool,
                             parse: string -> Option<Model>, ghost v0: RuleView) returns (escaped: bool)
      requires w < |wss|
      requires FirstEscape(EnvironmentArtifacts(wss[..w]), parses) == |EnvironmentArtifacts(wss[..w])|
      requires View(registry.authMap) == AddRules(v0, ArtifactRules(EnvironmentArtifacts(wss[..w]), parses, parse))
      modifies registry
      ensures !escaped ==>
        FirstEscape(EnvironmentArtifacts(wss[..w + 1]), parses) == |EnvironmentArtifacts(wss[..w + 1])|
        && View(registry.authMap) == AddRules(v0, ArtifactRules(EnvironmentArtifacts(wss[..w + 1]), parses, parse))
      ensures escaped ==> var all := EnvironmentArtifacts(wss);
        FirstEscape(all, parses) < |all|
        && View(registry.authMap) == AddRules(v0, ArtifactRules(all[..FirstEscape(all, parses)], parses, parse))
      ensures old(registry.Valid()) ==> registry.Valid()
    {
      ghost var v1 := View(registry.authMap);
      escaped := LoadWorkspace(wss[w].artifacts, parses, parse);
      WorkspaceStep(wss, w, parses, parse, v0, v1, View(registry.authMap));
    }

    /**
     * validateAuthorization: an access type that is not an access-mode name
     * makes Optional.get throw, and nothing is answered. The registry is
     * looked up under the agent's IRI. Without a rule the answer is true;
     * otherwise the context management service decides: success gives true,
     * any failure 403.
     */
    method ValidateAuthorization(resource: string, agent: string, accessType: string, reply: ServiceOutcome)
      returns (responses: seq<Response>, forwarded: Option<ContextMessage>, escaped: bool)
      ensures escaped <==> FromName(accessType).None?
      ensures escaped ==> responses == [] && forwarded == None
      ensures !escaped && !AnyGrants(RulesOf(registry.authMap, agent), FromName(accessType).value) ==>
        responses == [Reply(BoolBody(true))] && forwarded == None
      ensures !escaped && AnyGrants(RulesOf(registry.authMap, agent), FromName(accessType).value) ==>
        (forwarded == Some(ValidateContextBasecAccess(agent, resource))
        && responses == if !contextEnabled || reply.Succeeded? then [Reply(BoolBody(true))] else [Fail(SC_FORBIDDEN, VALIDATION_FAILED)])
    {
      var t := FromName(accessType);
      if t.None? {
        return [], None, true;
      }
      var protected := registry.HasAccessAuthorization(agent, t.value);
      if !protected {
        return [Reply(BoolBody(true))], None, false;
      }
      forwarded := Some(ValidateContextBasecAccess(agent, resource));
      var outcome := if contextEnabled then reply else Succeeded;
      if outcome.Succeeded? {
        responses := [Reply(BoolBody(true))];
      } else {
        responses := [Fail(SC_FORBIDDEN, VALIDATION_FAILED)];
      }
      escaped := false;
    }

    /** The rule objects of a resource, read in the pre-state. */
    function RulesFor(resource: string): Rules
      reads this, registry
    {
      RulesOf(registry.authMap, resource)
    }

    /**
     * getWACRepresentation: 404 with a JSON error when the resource has no
     * rule; otherwise the union of the rules' descriptions, serialized as
     * Turtle by serialize (None when it throws, which gives 500). Describing
     * a rule mints its instance IRI (from freshId) when it has none; a rule
     * that cannot be described throws, and nothing is answered.
     */
    method GetWACRepresentation(resource: string, freshId: nat -> string, serialize: Model -> Option<string>)
      returns (responses: seq<Response>, escaped: bool, ghost ds: seq<Described>)
      modifies RulesFor(resource)
      ensures RulesFor(resource) == old(RulesFor(resource))
      ensures resource !in registry.authMap ==> !escaped && responses == [Fail(SC_NOT_FOUND, NoPolicyError(resource))]
      ensures forall i :: 0 <= i < |RulesFor(resource)| && old(RulesFor(resource)[i].authIRI).Some? ==>
        RulesFor(resource)[i].authIRI == old(RulesFor(resource)[i].authIRI)
      ensures resource in registry.authMap && !escaped ==>
        (DescribedAs(RulesFor(resource), ds)
        && responses == match serialize(Union(ds))
             case Some(text) => [Reply(TextBody(text))]
             case None => [Fail(SC_INTERNAL_SERVER_ERROR, SERIALIZATION_FAILED)])
      ensures escaped ==> responses == [] && SomeUndescribable(RulesFor(resource))
    {
      ds := [];
      if resource !in registry.authMap {
        return [Fail(SC_NOT_FOUND, NoPolicyError(resource))], false, ds;
      }
      var rs := registry.GetContextAuthorisations(resource);
      var model;
      model, ds := DescribeAll(rs, freshId);
      if model.None? {
        return [], true, ds;
      }
      var text := serialize(model.value);
      if text.Some? {
        responses := [Reply(TextBody(text.value))];
      } else {
        responses := [Fail(SC_INTERNAL_SERVER_ERROR, SERIALIZATION_FAILED)];
      }
      escaped := false;
    }

    /**
     * The consumer: a request is dispatched on its kind. A null body makes the
     * pattern switch throw, and nothing is answered.
     */
    method HandleMessage(body: Option<WACMessage>, reply: ServiceOutcome, freshId: nat -> string, serialize: Model -> Option<string>)
      returns (responses: seq<Response>, forwarded: Option<ContextMessage>, escaped: bool, ghost ds: seq<Described>)
      modifies if body.Some? && body.value.GetWACResource? then RulesFor(body.value.accessedResourceURI) else []
      ensures body.None? ==> escaped && responses == [] && forwarded == None
      ensures body.Some? && body.value.AuthorizeAccess? ==>
        var t := FromName(body.value.accessType);
        var protected := t.Some? && AnyGrants(RulesOf(registry.authMap, body.value.agentURI), t.value);
        (escaped <==> t.None?)
        && (t.None? ==> responses == [] && forwarded == None)
        && (t.Some? && !protected ==> responses == [Reply(BoolBody(true))] && forwarded == None)
        && (protected ==>
              forwarded == Some(ValidateContextBasecAccess(body.value.agentURI, body.value.accessedResourceURI))
              && responses == if !contextEnabled || reply.Succeeded? then [Reply(BoolBody(true))] else [Fail(SC_FORBIDDEN, VALIDATION_FAILED)])
      ensures body.Some? && body.value.GetWACResource? ==> forwarded == None
      ensures body.Some? && body.value.GetWACResource? && body.value.accessedResourceURI !in registry.authMap ==>
        !escaped && responses == [Fail(SC_NOT_FOUND, NoPolicyError(body.value.accessedResourceURI))]
      ensures body.Some? && body.value.GetWACResource? && body.value.accessedResourceURI in registry.authMap ==>
        var rs := RulesFor(body.value.accessedResourceURI);
        (!escaped ==>
           DescribedAs(rs, ds)
           && responses == match serialize(Union(ds))
                case Some(text) => [Reply(TextBody(text))]
                case None => [Fail(SC_INTERNAL_SERVER_ERROR, SERIALIZATION_FAILED)])
        && (escaped ==> responses == [] && SomeUndescribable(rs))
    {
      ds := [];
      if body.None? {
        return [], None, true, ds;
      }
      match body.value
      case AuthorizeAccess(resource, agent, accessType) =>
        responses, forwarded, escaped := ValidateAuthorization(resource, agent, accessType, reply);
      case GetWACResource(resource) =>
        responses, escaped, ds := GetWACRepresentation(resource, freshId, serialize);
        forwarded := None;
    }
  }

  /** The Java constant names (READ, WRITE, ...) are not access-mode names: a request naming one is never answered. */
  lemma ConstantNameNeverValidated(t: AccessType)
    ensures FromName(ConstantName(t)).None?
  {
    FromNameOfName(t, ConstantName(t));
  }
}
