/** A context stream entry as ContextStreamImpl reads it (the type the configuration object holds). */
module ContextStreamConfigs {
  import opened Wrappers
  import opened Json

  datatype ContextStreamConfig = ContextStreamConfig(streamUrl: Option<string>, ontologyUrl: Option<string>,
                                                     generatorClass: Option<string>, singleAssertion: Option<bool>,
                                                     assertions: seq<string>)

  /** The constructor; None where the assertion list holds a value whose toString throws. */
  function DecodeStreamConfig(o: Option<map<string, Json>>): (r: Option<ContextStreamConfig>)
    ensures r.Some? <==> StringList(OptArray(o, "assertions")).Some?
    ensures r.Some? ==> (r.value.streamUrl == OptString(o, "stream_url")
      && r.value.ontologyUrl == OptString(o, "ontology_url")
      && r.value.generatorClass == OptString(o, "generator_class")
      && r.value.singleAssertion == OptBool(o, "single_assertion"))
    ensures r.Some? && OptArray(o, "assertions").None? ==> r.value.assertions == []
  {
    var assertions := StringList(OptArray(o, "assertions"));
    if assertions.None? then None
    else Some(ContextStreamConfig(OptString(o, "stream_url"), OptString(o, "ontology_url"),
                                  OptString(o, "generator_class"), OptBool(o, "single_assertion"),
                                  assertions.value))
  }

  /** A configuration entry that describes c. */
  function EncodeStreamConfig(c: ContextStreamConfig): map<string, Json>
  {
    var o := PutOpt(PutOpt(PutOpt(map["assertions" := JArray(Strings(c.assertions))], "stream_url", c.streamUrl),
      "ontology_url", c.ontologyUrl), "generator_class", c.generatorClass);
    if c.singleAssertion.Some? then o["single_assertion" := JBool(c.singleAssertion.value)]
    else o - {"single_assertion"}
  }

  /** Reading the entry written for c gives c back. */
  lemma StreamConfigRoundTrip(c: ContextStreamConfig)
    ensures DecodeStreamConfig(Some(EncodeStreamConfig(c))) == Some(c)
  {
    EncodedLookups(c);
    StringListOfStrings(c.assertions);
  }

  /** What each key of the entry written for c reads as. */
  lemma EncodedLookups(c: ContextStreamConfig)
    ensures var o := Some(EncodeStreamConfig(c));
      OptArray(o, "assertions") == Some(Strings(c.assertions))
      && OptString(o, "stream_url") == c.streamUrl
      && OptString(o, "ontology_url") == c.ontologyUrl
      && OptString(o, "generator_class") == c.generatorClass
      && OptBool(o, "single_assertion") == c.singleAssertion
  {
    ConfigKeysDistinct();
    var o1 := map["assertions" := JArray(Strings(c.assertions))];
    var o2 := PutOpt(o1, "stream_url", c.streamUrl);
    var o3 := PutOpt(o2, "ontology_url", c.ontologyUrl);
    var o4 := PutOpt(o3, "generator_class", c.generatorClass);
    var o := EncodeStreamConfig(c);
    PutOptKeeps(o1, "stream_url", c.streamUrl, "assertions");
    PutOptKeeps(o2, "ontology_url", c.ontologyUrl, "assertions");
    PutOptKeeps(o3, "generator_class", c.generatorClass, "assertions");
    PutOptSets(o1, "stream_url", c.streamUrl);
    PutOptKeeps(o2, "ontology_url", c.ontologyUrl, "stream_url");
    PutOptKeeps(o3, "generator_class", c.generatorClass, "stream_url");
    PutOptSets(o2, "ontology_url", c.ontologyUrl);
    PutOptKeeps(o3, "generator_class", c.generatorClass, "ontology_url");
    PutOptSets(o3, "generator_class", c.generatorClass);
    assert forall k :: k != "single_assertion" ==> Lookup(Some(o), k) == Lookup(Some(o4), k);
  }

  /**
   * isSingleAssertion is the stored flag: an entry with one assertion and no
   * single_assertion key has no flag, and one with the flag set has it
   * whatever the number of assertions.
   */
  lemma SingleAssertionIsStored(a: string)
    ensures DecodeStreamConfig(Some(map["assertions" := JArray([JString(a)])])).value.singleAssertion == None
    ensures DecodeStreamConfig(Some(map["single_assertion" := JBool(true)])).value
      == ContextStreamConfig(None, None, None, Some(true), [])
  {
    OneAssertionEntry(a);
    FlagOnlyEntry();
  }

  lemma OneAssertionEntry(a: string)
    ensures DecodeStreamConfig(Some(map["assertions" := JArray([JString(a)])])).value.singleAssertion == None
  {
    var o := Some(map["assertions" := JArray([JString(a)])]);
    ConfigKeysDistinct();
    StringListOfStrings([a]);
    assert Strings([a]) == [JString(a)];
    assert OptArray(o, "assertions") == Some(Strings([a]));
    assert Lookup(o, "single_assertion") == None;
  }

  lemma FlagOnlyEntry()
    ensures DecodeStreamConfig(Some(map["single_assertion" := JBool(true)])).value
      == ContextStreamConfig(None, None, None, Some(true), [])
  {
    var o := Some(map["single_assertion" := JBool(true)]);
    ConfigKeysDistinct();
    assert Lookup(o, "stream_url") == None && Lookup(o, "ontology_url") == None;
    assert Lookup(o, "generator_class") == None && Lookup(o, "assertions") == None;
    assert Lookup(o, "single_assertion") == Some(JBool(true));
  }

  /** The five keys of an entry are different strings. */
  lemma ConfigKeysDistinct()
    ensures "assertions" != "single_assertion" && "assertions" != "stream_url"
    ensures "assertions" != "ontology_url" && "assertions" != "generator_class"
    ensures "single_assertion" != "stream_url" && "single_assertion" != "ontology_url"
    ensures "single_assertion" != "generator_class" && "stream_url" != "ontology_url"
    ensures "stream_url" != "generator_class" && "ontology_url" != "generator_class"
  {
    assert "assertions"[0] != "stream_url"[0];
  }
}
