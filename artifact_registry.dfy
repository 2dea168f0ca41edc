/**
 * The registry of hypermedia artifacts: which environment hosts each
 * workspace, the artifact templates and their semantic types, the
 * description of each artifact, the router from an HTTP request to an action
 * name, the API key of each artifact, and the URL prefixes built from the
 * HTTP prefix.
 */
module ArtifactRegistry {
  import opened Wrappers
  import opened Json

  const DEFAULT_HTTP_PREFIX: string := "http://localhost:8080"

  /** One put into a string-to-string table. */
  datatype Entry = Entry(key: string, value: string)

  /** Hashtable.put of each entry in turn. */
  function PutAll(m: map<string, string>, es: seq<Entry>): map<string, string>
    decreases |es|
  {
    if |es| == 0 then m else PutAll(m, es[..|es| - 1])[es[|es| - 1].key := es[|es| - 1].value]
  }

  /** Putting a concatenation is putting one part after the other. */
  lemma {:induction false} PutAllAppend(m: map<string, string>, a: seq<Entry>, b: seq<Entry>)
    ensures PutAll(m, a + b) == PutAll(PutAll(m, a), b)
    decreases |b|
  {
    if |b| == 0 {
      assert a + b == a;
    } else {
      var n := |b| - 1;
      assert (a + b)[..|a + b| - 1] == a + b[..n];
      assert (a + b)[|a + b| - 1] == b[n];
      PutAllAppend(m, a, b[..n]);
    }
  }

  /** The entry of es at i is the last one with its key. */
  predicate LastFor(es: seq<Entry>, k: string, i: int)
  {
    0 <= i < |es| && es[i].key == k && forall j :: i < j < |es| ==> es[j].key != k
  }

  /** After the puts, a key is present when it was before or some entry has it. */
  lemma {:induction false} PutAllKeys(m: map<string, string>, es: seq<Entry>, k: string)
    ensures k in PutAll(m, es) <==> k in m || exists i :: 0 <= i < |es| && es[i].key == k
    decreases |es|
  {
    if |es| > 0 {
      var n := |es| - 1;
      var init := es[..n];
      PutAllKeys(m, init, k);
      if exists i :: 0 <= i < |init| && init[i].key == k {
        var i :| 0 <= i < |init| && init[i].key == k;
        assert es[i] == init[i];
      }
      if exists i :: 0 <= i < |es| && es[i].key == k {
        var i :| 0 <= i < |es| && es[i].key == k;
        if i < n {
          assert init[i] == es[i];
        }
      }
    }
  }

  /** A key's value after the puts is that of the last entry with it: later puts overwrite earlier ones. */
  lemma {:induction false} PutAllLast(m: map<string, string>, es: seq<Entry>, k: string, i: int)
    requires LastFor(es, k, i)
    ensures k in PutAll(m, es) && PutAll(m, es)[k] == es[i].value
    decreases |es|
  {
    var n := |es| - 1;
    if i < n {
      var init := es[..n];
      assert init[i] == es[i];
      forall j | i < j < n ensures init[j].key != k {
        assert init[j] == es[j];
      }
      PutAllLast(m, init, k, i);
    }
  }

  /** A key no entry has keeps its old value. */
  lemma {:induction false} PutAllUntouched(m: map<string, string>, es: seq<Entry>, k: string)
    requires k in m
    requires forall i :: 0 <= i < |es| ==> es[i].key != k
    ensures k in PutAll(m, es) && PutAll(m, es)[k] == m[k]
    decreases |es|
  {
    if |es| > 0 {
      var n := |es| - 1;
      assert forall i :: 0 <= i < n ==> es[..n][i] == es[i];
      PutAllUntouched(m, es[..n], k);
    }
  }

  // ---------------------------------------------------------------- artifacts

  /** A form of an action affordance: its HTTP method, when it has one, and its target. */
  datatype Form = Form(methodName: Option<string>, target: string)

  /** An action affordance with its forms, the first one first. */
  datatype ActionAffordance = ActionAffordance(forms: seq<Form>)

  /**
   * What register reads of an artifact: its name, its hypermedia
   * description, and its action affordances by action name, in the order
   * the artifact's map yields them.
   */
  datatype HypermediaArtifact = HypermediaArtifact(name: string, description: string,
                                                   actions: seq<(string, seq<ActionAffordance>)>)

  /** The route of one affordance: method followed by target, to the action name, when its first form has a method. */
  function RouteOf(name: string, aff: ActionAffordance): (r: seq<Entry>)
    ensures |r| <= 1
    ensures |r| == 1 <==> |aff.forms| > 0 && aff.forms[0].methodName.Some?
    ensures |r| == 1 ==> r[0] == Entry(aff.forms[0].methodName.value + aff.forms[0].target, name)
  {
    if |aff.forms| > 0 && aff.forms[0].methodName.Some? then
      [Entry(aff.forms[0].methodName.value + aff.forms[0].target, name)]
    else []
  }

  /** The routes of the affordances of one action, in order. */
  function ActionRoutes(name: string, affs: seq<ActionAffordance>): seq<Entry>
    decreases |affs|
  {
    if |affs| == 0 then [] else ActionRoutes(name, affs[..|affs| - 1]) + RouteOf(name, affs[|affs| - 1])
  }

  /** The routes of all the actions, in order. */
  function Routes(actions: seq<(string, seq<ActionAffordance>)>): seq<Entry>
    decreases |actions|
  {
    if |actions| == 0 then []
    else Routes(actions[..|actions| - 1]) + ActionRoutes(actions[|actions| - 1].0, actions[|actions| - 1].1)
  }

  /** Every route goes to the name of the action it comes from, and its key is a form's method and target. */
  lemma {:induction false} ActionRoutesFrom(name: string, affs: seq<ActionAffordance>, e: Entry)
    requires e in ActionRoutes(name, affs)
    ensures e.value == name
    ensures exists b :: 0 <= b < |affs| && RouteOf(name, affs[b]) == [e]
    decreases |affs|
  {
    var n := |affs| - 1;
    if e in ActionRoutes(name, affs[..n]) {
      ActionRoutesFrom(name, affs[..n], e);
      var b :| 0 <= b < n && RouteOf(name, affs[..n][b]) == [e];
      assert affs[..n][b] == affs[b];
    } else {
      assert RouteOf(name, affs[n]) == [e];
    }
  }

  // ---------------------------------------------------------------- templates

  /** The index of the first entry whose value is not a JSON string (the cast throws there), or the length. */
  function FirstNonString(es: seq<(string, Json)>): (k: nat)
    ensures k <= |es|
    ensures forall i :: 0 <= i < k ==> es[i].1.JString?
    ensures k < |es| ==> !es[k].1.JString?
  {
    if |es| == 0 then 0
    else if !es[0].1.JString? then 0
    else
      var k := FirstNonString(es[1..]);
      assert forall i :: 1 <= i < k + 1 ==> es[i] == es[1..][i - 1];
      k + 1
  }

  /** Entries whose values are all strings, as puts. */
  function StringEntries(es: seq<(string, Json)>): (r: seq<Entry>)
    requires forall i :: 0 <= i < |es| ==> es[i].1.JString?
    ensures |r| == |es| && forall i :: 0 <= i < |es| ==> r[i] == Entry(es[i].0, es[i].1.s)
  {
    seq(|es|, i requires 0 <= i < |es| && es[i].1.JString? => Entry(es[i].0, es[i].1.s))
  }

  /** The URL prefix of the artifacts of a workspace, or the error getHttpArtifactsPrefix throws. */
  function ArtifactsPrefix(httpPrefix: string, workspaces: map<string, string>, ws: string): (r: Result<string, string>)
    ensures r.Ok? <==> ws in workspaces
    ensures r.Ok? ==> r.value == httpPrefix + "/environments/" + workspaces[ws] + "/workspaces/" + ws + "/artifacts/"
    ensures r.Err? ==> r.error == "Workspace " + ws + " not found in any environment."
  {
    if ws in workspaces then Ok(httpPrefix + "/environments/" + workspaces[ws] + "/workspaces/" + ws + "/artifacts/")
    else Err("Workspace " + ws + " not found in any environment.")
  }

  /** The registry. The Java class is a singleton; one object is modelled. */
  class HypermediaArtifactRegistry {
    /** Workspace name to the name of its environment. */
    var workspaceEnvironmentMap: map<string, string>
    /** Artifact type IRI to the class name of the artifact. */
    var artifactSemanticTypes: map<string, string>
    /** Artifact name to the description of its HTTP interface. */
    var artifactTemplateDescriptions: map<string, string>
    /** HTTP method followed by target URI, to an action name. */
    var artifactActionRouter: map<string, string>
    /** Artifact IRI to its API key. */
    var artifactAPIKeys: map<string, string>
    var httpPrefix: string

    constructor ()
      ensures workspaceEnvironmentMap == map[] && artifactSemanticTypes == map[]
      ensures artifactTemplateDescriptions == map[] && artifactActionRouter == map[] && artifactAPIKeys == map[]
      ensures httpPrefix == DEFAULT_HTTP_PREFIX
    {
      workspaceEnvironmentMap := map[];
      artifactSemanticTypes := map[];
      artifactTemplateDescriptions := map[];
      artifactActionRouter := map[];
      artifactAPIKeys := map[];
      httpPrefix := DEFAULT_HTTP_PREFIX;
    }

    /**
     * register: the description is stored under the artifact's name, and
     * each affordance whose first form has a method routes method + target
     * to its action name, later routes overwriting earlier ones.
     */
    method Register(artifact: HypermediaArtifact)
      modifies this
      ensures artifactTemplateDescriptions == old(artifactTemplateDescriptions)[artifact.name := artifact.description]
      ensures artifactActionRouter == PutAll(old(artifactActionRouter), Routes(artifact.actions))
      ensures workspaceEnvironmentMap == old(workspaceEnvironmentMap) && artifactSemanticTypes == old(artifactSemanticTypes)
      ensures artifactAPIKeys == old(artifactAPIKeys) && httpPrefix == old(httpPrefix)
    {
      artifactTemplateDescriptions := artifactTemplateDescriptions[artifact.name := artifact.description];
      ghost var r0 := artifactActionRouter;
      var actions := artifact.actions;
      for a := 0 to |actions|
        invariant artifactActionRouter == PutAll(r0, Routes(actions[..a]))
        invariant artifactTemplateDescriptions == old(artifactTemplateDescriptions)[artifact.name := artifact.description]
        invariant workspaceEnvironmentMap == old(workspaceEnvironmentMap) && artifactSemanticTypes == old(artifactSemanticTypes)
        invariant artifactAPIKeys == old(artifactAPIKeys) && httpPrefix == old(httpPrefix)
      {
        var name := actions[a].0;
        var affs := actions[a].1;
        ghost var before := Routes(actions[..a]);
        for b := 0 to |affs|
          invariant artifactActionRouter == PutAll(PutAll(r0, before), ActionRoutes(name, affs[..b]))
          invariant artifactTemplateDescriptions == old(artifactTemplateDescriptions)[artifact.name := artifact.description]
          invariant workspaceEnvironmentMap == old(workspaceEnvironmentMap) && artifactSemanticTypes == old(artifactSemanticTypes)
          invariant artifactAPIKeys == old(artifactAPIKeys) && httpPrefix == old(httpPrefix)
        {
          assert affs[..b + 1][..b] == affs[..b];
          var aff := affs[b];
          PutAllAppend(PutAll(r0, before), ActionRoutes(name, affs[..b]), RouteOf(name, aff));
          if |aff.forms| > 0 && aff.forms[0].methodName.Some? {
            var form := aff.forms[0];
            artifactActionRouter := artifactActionRouter[form.methodName.value + form.target := name];
            assert [Entry(form.methodName.value + form.target, name)][..0] == [];
          }
        }
        assert affs[..|affs|] == affs;
        assert actions[..a + 1][..a] == actions[..a];
        PutAllAppend(r0, before, ActionRoutes(name, affs));
      }
      assert actions[..|actions|] == actions;
    }

    /** addWorkspace: the workspace is hosted by the environment, replacing any earlier one. */
    method AddWorkspace(envName: string, workspaceName: string)
      modifies this
      ensures workspaceEnvironmentMap == old(workspaceEnvironmentMap)[workspaceName := envName]
      ensures GetEnvironmentForWorkspace(workspaceName) == Some(envName)
      ensures artifactSemanticTypes == old(artifactSemanticTypes) && artifactTemplateDescriptions == old(artifactTemplateDescriptions)
      ensures artifactActionRouter == old(artifactActionRouter) && artifactAPIKeys == old(artifactAPIKeys)
      ensures httpPrefix == old(httpPrefix)
    {
      workspaceEnvironmentMap := workspaceEnvironmentMap[workspaceName := envName];
    }

    /** getEnvironmentForWorkspace: the hosting environment, empty for an unknown workspace. */
    function GetEnvironmentForWorkspace(workspaceName: string): (r: Option<string>)
      reads this
      ensures r.None? <==> workspaceName !in workspaceEnvironmentMap
      ensures r.Some? ==> r.value == workspaceEnvironmentMap[workspaceName]
    {
      if workspaceName in workspaceEnvironmentMap then Some(workspaceEnvironmentMap[workspaceName]) else None
    }

    /**
     * addArtifactTemplates: nothing for null; otherwise each entry in turn is
     * put, until a value that is not a string makes the cast (or the put of
     * null) throw. thrown says whether it did.
     */
    method AddArtifactTemplates(templates: Option<seq<(string, Json)>>) returns (thrown: bool)
      modifies this
      ensures templates.None? ==> !thrown && artifactSemanticTypes == old(artifactSemanticTypes)
      ensures templates.Some? ==>
        var k := FirstNonString(templates.value);
        (thrown <==> k < |templates.value|)
        && artifactSemanticTypes == PutAll(old(artifactSemanticTypes), StringEntries(templates.value[..k]))
      ensures workspaceEnvironmentMap == old(workspaceEnvironmentMap) && artifactTemplateDescriptions == old(artifactTemplateDescriptions)
      ensures artifactActionRouter == old(artifactActionRouter) && artifactAPIKeys == old(artifactAPIKeys)
      ensures httpPrefix == old(httpPrefix)
    {
      if templates.None? {
        return false;
      }
      var es := templates.value;
      ghost var t0 := artifactSemanticTypes;
      for i := 0 to |es|
        invariant forall j :: 0 <= j < i ==> es[j].1.JString?
        invariant artifactSemanticTypes == PutAll(t0, StringEntries(es[..i]))
        invariant workspaceEnvironmentMap == old(workspaceEnvironmentMap) && artifactTemplateDescriptions == old(artifactTemplateDescriptions)
        invariant artifactActionRouter == old(artifactActionRouter) && artifactAPIKeys == old(artifactAPIKeys)
        invariant httpPrefix == old(httpPrefix)
      {
        if !es[i].1.JString? {
          assert FirstNonString(es) == i;
          return true;
        }
        assert StringEntries(es[..i + 1])[..i] == StringEntries(es[..i]);
        artifactSemanticTypes := artifactSemanticTypes[es[i].0 := es[i].1.s];
      }
      assert FirstNonString(es) == |es|;
      assert es[..|es|] == es;
      return false;
    }

    /** getArtifactTemplates: the known artifact type IRIs. */
    function GetArtifactTemplates(): (r: set<string>)
      reads this
      ensures forall t :: t in r <==> t in artifactSemanticTypes
    {
      artifactSemanticTypes.Keys
    }

    /** getArtifactSemanticType: some type IRI mapped to the class name, or empty when there is none. */
    method GetArtifactSemanticType(artifactTemplate: string) returns (r: Option<string>)
      ensures r.Some? ==> r.value in artifactSemanticTypes && artifactSemanticTypes[r.value] == artifactTemplate
      ensures r.None? <==> forall t :: t in artifactSemanticTypes ==> artifactSemanticTypes[t] != artifactTemplate
    {
      if t :| t in artifactSemanticTypes && artifactSemanticTypes[t] == artifactTemplate {
        r := Some(t);
      } else {
        r := None;
      }
    }

    /** getArtifactTemplate: the class name for a type IRI, empty when unknown. */
    function GetArtifactTemplate(artifactClass: string): (r: Option<string>)
      reads this
      ensures r.None? <==> artifactClass !in artifactSemanticTypes
      ensures r.Some? ==> r.value == artifactSemanticTypes[artifactClass]
    {
      if artifactClass in artifactSemanticTypes then Some(artifactSemanticTypes[artifactClass]) else None
    }

    /** getArtifactDescription: the stored description, null (None) when unknown. */
    function GetArtifactDescription(artifactName: string): (r: Option<string>)
      reads this
      ensures r.None? <==> artifactName !in artifactTemplateDescriptions
      ensures r.Some? ==> r.value == artifactTemplateDescriptions[artifactName]
    {
      if artifactName in artifactTemplateDescriptions then Some(artifactTemplateDescriptions[artifactName]) else None
    }

    /** getActionName: the action routed from method followed by request URI, null (None) when there is none. */
    function GetActionName(method_: string, requestURI: string): (r: Option<string>)
      reads this
      ensures r.None? <==> method_ + requestURI !in artifactActionRouter
      ensures r.Some? ==> r.value == artifactActionRouter[method_ + requestURI]
    {
      var key := method_ + requestURI;
      if key in artifactActionRouter then Some(artifactActionRouter[key]) else None
    }

    /** setAPIKeyForArtifact: the key replaces any earlier one. */
    method SetAPIKeyForArtifact(artifactId: string, apiKey: string)
      modifies this
      ensures artifactAPIKeys == old(artifactAPIKeys)[artifactId := apiKey]
      ensures GetAPIKeyForArtifact(artifactId) == Some(apiKey)
      ensures workspaceEnvironmentMap == old(workspaceEnvironmentMap) && artifactSemanticTypes == old(artifactSemanticTypes)
      ensures artifactTemplateDescriptions == old(artifactTemplateDescriptions) && artifactActionRouter == old(artifactActionRouter)
      ensures httpPrefix == old(httpPrefix)
    {
      artifactAPIKeys := artifactAPIKeys[artifactId := apiKey];
    }

    /** getAPIKeyForArtifact: the last key set, null (None) when none was. */
    function GetAPIKeyForArtifact(artifactId: string): (r: Option<string>)
      reads this
      ensures r.None? <==> artifactId !in artifactAPIKeys
      ensures r.Some? ==> r.value == artifactAPIKeys[artifactId]
    {
      if artifactId in artifactAPIKeys then Some(artifactAPIKeys[artifactId]) else None
    }

    /** setHttpPrefix: the prefix is replaced; nothing else changes. */
    method SetHttpPrefix(prefix: string)
      modifies this
      ensures httpPrefix == prefix
      ensures workspaceEnvironmentMap == old(workspaceEnvironmentMap) && artifactSemanticTypes == old(artifactSemanticTypes)
      ensures artifactTemplateDescriptions == old(artifactTemplateDescriptions) && artifactActionRouter == old(artifactActionRouter)
      ensures artifactAPIKeys == old(artifactAPIKeys)
    {
      httpPrefix := prefix;
    }

    /** getHttpEnvironmentsPrefix. */
    function GetHttpEnvironmentsPrefix(): (r: string)
      reads this
      ensures r == httpPrefix + "/environments/"
    {
      httpPrefix + "/environments/"
    }

    /** getHttpWorkspacesPrefix: under the environments prefix. */
    function GetHttpWorkspacesPrefix(envId: string): (r: string)
      reads this
      ensures r == httpPrefix + "/environments/" + envId + "/workspaces/"
    {
      GetHttpEnvironmentsPrefix() + envId + "/workspaces/"
    }

    /** getHttpArtifactsPrefix: under the prefix of the hosting environment; an unknown workspace throws. */
    function GetHttpArtifactsPrefix(workspaceName: string): (r: Result<string, string>)
      reads this
      ensures r == ArtifactsPrefix(httpPrefix, workspaceEnvironmentMap, workspaceName)
    {
      match GetEnvironmentForWorkspace(workspaceName)
      case Some(env) => Ok(GetHttpWorkspacesPrefix(env) + workspaceName + "/artifacts/")
      case None => Err("Workspace " + workspaceName + " not found in any environment.")
    }
  }

  /** After register, the last route with a key answers getActionName for it; a key no route has keeps its old answer. */
  lemma RouterAfterRegister(old_: map<string, string>, artifact: HypermediaArtifact, m: string, u: string, i: int)
    requires LastFor(Routes(artifact.actions), m + u, i)
    ensures var router := PutAll(old_, Routes(artifact.actions));
      m + u in router && router[m + u] == Routes(artifact.actions)[i].value
  {
    PutAllLast(old_, Routes(artifact.actions), m + u, i);
  }

  /** A fresh registry, then a workspace added: its artifacts live under the default prefix. */
  method PrefixOfNewWorkspace(envName: string, ws: string) returns (r: Result<string, string>)
    ensures r == Ok(DEFAULT_HTTP_PREFIX + "/environments/" + envName + "/workspaces/" + ws + "/artifacts/")
  {
    var registry := new HypermediaArtifactRegistry();
    registry.AddWorkspace(envName, ws);
    assert registry.workspaceEnvironmentMap[ws] == envName;
    r := registry.GetHttpArtifactsPrefix(ws);
  }
}
