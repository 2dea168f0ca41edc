/** The context-management configuration object, as ContextManagementConfigImpl builds it from the JSON configuration. */
module ContextManagementConfigs {
  import opened Wrappers
  import opened JavaLang
  import opened Json
  import opened ContextStreamConfigs
  import opened ContextDomainModels

  const CONTEXT_SERVICE_PATH: string := "context/"
  const DEFAULT_BASE_URI: string := "http://localhost/"

  datatype ContextManagementConfig = ContextManagementConfig(
    enabled: bool,
    baseURI: string,
    serviceURI: string,
    staticContextGraphURI: Option<string>,
    profiledContextGraphURI: Option<string>,
    contextStreams: seq<ContextStreamConfig>,
    contextDomains: seq<ContextDomainModel>)

  /**
   * Vert.x getString(key, def), with JsonObject taken to answer def for an
   * absent key or a JSON null and the text of any other primitive; nested
   * values are not modelled and count as throwing.
   */
  function GetStringOr(o: map<string, Json>, key: string, def: string): (r: Option<string>)
    ensures key !in o ==> r == Some(def)
    ensures key in o && o[key].JString? ==> r == Some(o[key].s)
  {
    if key !in o || o[key].JNull? then Some(def) else ElementText(o[key])
  }

  /** array.stream().map(obj -> new X((JsonObject) obj)): the cast throws on a non-object element. */
  function DecodeEach<T>(items: Option<seq<Json>>, decode: Option<map<string, Json>> -> Option<T>): (r: Option<seq<T>>)
    ensures items.None? ==> r == Some([])
    ensures items.Some? ==> (r.Some? <==> forall i :: 0 <= i < |items.value| ==>
      items.value[i].JObject? && decode(Some(items.value[i].fields)).Some?)
    ensures r.Some? && items.Some? ==> |r.value| == |items.value| && forall i :: 0 <= i < |items.value| ==>
      items.value[i].JObject? && decode(Some(items.value[i].fields)) == Some(r.value[i])
  {
    if items.None? then Some([])
    else MapAll(items.value, (j: Json) => if j.JObject? then decode(Some(j.fields)) else None)
  }

  /** The constructor; None where it throws (no http-config block, or an entry that cannot be read). */
  function DecodeConfig(config: map<string, Json>): (r: Option<ContextManagementConfig>)
    ensures OptObject(Some(config), "http-config").None? ==> r.None?
    ensures r.Some? ==> var cm := OptObject(Some(config), "context-management-config");
      && (r.value.enabled <==> cm.Some? && OptBool(cm, "enabled") == Some(true))
      && r.value.serviceURI == r.value.baseURI + CONTEXT_SERVICE_PATH
      && r.value.staticContextGraphURI == OptString(cm, "static-context")
      && r.value.profiledContextGraphURI == OptString(cm, "profiled-context")
      && Some(r.value.contextStreams) == DecodeEach(OptArray(cm, "context-streams"), DecodeStreamConfig)
      && Some(r.value.contextDomains) == DecodeEach(OptArray(cm, "context-domains"), DecodeDomainModel)
  {
    var cm := OptObject(Some(config), "context-management-config");
    var enabled := cm.Some? && OptBool(cm, "enabled").Some? && OptBool(cm, "enabled").value;
    var http := OptObject(Some(config), "http-config");
    if http.None? then None
    else
      var base := GetStringOr(http.value, "base-uri", DEFAULT_BASE_URI);
      var streams := DecodeEach(OptArray(cm, "context-streams"), DecodeStreamConfig);
      var domains := DecodeEach(OptArray(cm, "context-domains"), DecodeDomainModel);
      if base.None? || streams.None? || domains.None? then None
      else Some(ContextManagementConfig(enabled, base.value, base.value + CONTEXT_SERVICE_PATH,
        if cm.Some? then OptString(cm, "static-context") else None,
        if cm.Some? then OptString(cm, "profiled-context") else None,
        streams.value, domains.value))
  }

  /**
   * Without a context-management block the service is disabled, has no graph
   * URIs, streams or domains, and its URI is built from the base URI, by
   * default http://localhost/context/.
   */
  lemma NoBlockDefaults(config: map<string, Json>, http: map<string, Json>)
    requires "context-management-config" !in config
    requires "http-config" in config && config["http-config"] == JObject(http)
    requires "base-uri" !in http
    ensures var r := DecodeConfig(config);
      r == Some(ContextManagementConfig(false, DEFAULT_BASE_URI, "http://localhost/context/", None, None, [], []))
  {
    assert OptObject(Some(config), "context-management-config") == None;
    assert GetStringOr(http, "base-uri", DEFAULT_BASE_URI) == Some(DEFAULT_BASE_URI);
    assert DEFAULT_BASE_URI + CONTEXT_SERVICE_PATH == "http://localhost/context/";
  }

  /** The outcome of a search that may throw. */
  datatype Search<T> = Found(value: T) | NotFound | Throws

  /** getContextStreamByURI: the first stream whose URL equals uri; a null URL met first throws. */
  function StreamByURI(streams: seq<ContextStreamConfig>, uri: string): (r: Search<ContextStreamConfig>)
    ensures r.Found? ==> exists i :: (0 <= i < |streams| && streams[i] == r.value && streams[i].streamUrl == Some(uri)
      && forall j :: 0 <= j < i ==> streams[j].streamUrl.Some? && streams[j].streamUrl != Some(uri))
    ensures r.NotFound? <==> forall i :: 0 <= i < |streams| ==> streams[i].streamUrl.Some? && streams[i].streamUrl != Some(uri)
  {
    if |streams| == 0 then NotFound
    else if streams[0].streamUrl.None? then Throws
    else if streams[0].streamUrl == Some(uri) then Found(streams[0])
    else
      var r := StreamByURI(streams[1..], uri);
      if r.Found? then
        var i :| 0 <= i < |streams| - 1 && streams[1..][i] == r.value && streams[1..][i].streamUrl == Some(uri)
          && forall j :: 0 <= j < i ==> streams[1..][j].streamUrl.Some? && streams[1..][j].streamUrl != Some(uri);
        assert streams[i + 1] == r.value;
        r
      else r
  }

  /** getContextDomainByURI: the first domain whose URI equals uri; a null URI met first throws. */
  function DomainByURI(domains: seq<ContextDomainModel>, uri: string): (r: Search<ContextDomainModel>)
    ensures r.Found? ==> exists i :: (0 <= i < |domains| && domains[i] == r.value && domains[i].domainUri == Some(uri)
      && forall j :: 0 <= j < i ==> domains[j].domainUri.Some? && domains[j].domainUri != Some(uri))
    ensures r.NotFound? <==> forall i :: 0 <= i < |domains| ==> domains[i].domainUri.Some? && domains[i].domainUri != Some(uri)
  {
    if |domains| == 0 then NotFound
    else if domains[0].domainUri.None? then Throws
    else if domains[0].domainUri == Some(uri) then Found(domains[0])
    else
      var r := DomainByURI(domains[1..], uri);
      if r.Found? then
        var i :| 0 <= i < |domains| - 1 && domains[1..][i] == r.value && domains[1..][i].domainUri == Some(uri)
          && forall j :: 0 <= j < i ==> domains[1..][j].domainUri.Some? && domains[1..][j].domainUri != Some(uri);
        assert domains[i + 1] == r.value;
        r
      else r
  }

  /** When every URL is present, the search finds the first stream with the URL, and only misses when none has it. */
  lemma {:induction false} StreamByURIFirst(streams: seq<ContextStreamConfig>, uri: string, k: nat)
    requires k < |streams| && streams[k].streamUrl == Some(uri)
    requires forall j :: 0 <= j < k ==> streams[j].streamUrl.Some? && streams[j].streamUrl != Some(uri)
    ensures StreamByURI(streams, uri) == Found(streams[k])
  {
    if k > 0 {
      StreamByURIFirst(streams[1..], uri, k - 1);
    }
  }
}
