/** A context domain entry of the configuration, as ContextDomainModelImpl reads it. */
module ContextDomainModels {
  import opened Wrappers
  import opened Json

  datatype ContextDomainModel = ContextDomainModel(domainUri: Option<string>, streams: seq<string>,
                                                   membershipRules: seq<string>, engineConfigUrl: Option<string>)

  /** The constructor; None where a list holds a value whose toString throws. */
  function DecodeDomainModel(o: Option<map<string, Json>>): (r: Option<ContextDomainModel>)
    ensures r.Some? <==> StringList(OptArray(o, "streams")).Some? && StringList(OptArray(o, "membership_rules")).Some?
    ensures r.Some? ==> (r.value.domainUri == OptString(o, "domain_uri")
      && r.value.engineConfigUrl == OptString(o, "engine_config_url"))
    ensures r.Some? && OptArray(o, "streams").None? ==> r.value.streams == []
    ensures r.Some? && OptArray(o, "membership_rules").None? ==> r.value.membershipRules == []
  {
    var streams := StringList(OptArray(o, "streams"));
    var rules := StringList(OptArray(o, "membership_rules"));
    if streams.None? || rules.None? then None
    else Some(ContextDomainModel(OptString(o, "domain_uri"), streams.value, rules.value,
                                 OptString(o, "engine_config_url")))
  }

  /** getPrimaryStreamURI: the first stream, null when there is none. */
  function PrimaryStreamURI(d: ContextDomainModel): (r: Option<string>)
    ensures r.None? <==> |d.streams| == 0
    ensures r.Some? ==> r.value == d.streams[0]
  {
    if |d.streams| == 0 then None else Some(d.streams[0])
  }

  /** usesSingleStream. */
  predicate UsesSingleStream(d: ContextDomainModel)
  {
    |d.streams| == 1
  }

  /** A single-stream domain's primary stream is its only stream. */
  lemma SingleStreamIsPrimary(d: ContextDomainModel)
    requires UsesSingleStream(d)
    ensures PrimaryStreamURI(d) == Some(d.streams[0]) && d.streams == [d.streams[0]]
  {
  }

  /** A configuration entry that describes d. */
  function EncodeDomainModel(d: ContextDomainModel): map<string, Json>
  {
    PutOpt(PutOpt(map["streams" := JArray(Strings(d.streams)), "membership_rules" := JArray(Strings(d.membershipRules))],
      "domain_uri", d.domainUri), "engine_config_url", d.engineConfigUrl)
  }

  /** Reading the entry written for d gives d back, both lists in order. */
  lemma DomainModelRoundTrip(d: ContextDomainModel)
    ensures DecodeDomainModel(Some(EncodeDomainModel(d))) == Some(d)
  {
    var o := EncodeDomainModel(d);
    StringListOfStrings(d.streams);
    StringListOfStrings(d.membershipRules);
    assert OptArray(Some(o), "streams") == Some(Strings(d.streams));
    assert OptArray(Some(o), "membership_rules") == Some(Strings(d.membershipRules));
  }
}
