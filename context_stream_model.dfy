/** A context stream entry of the configuration, as ContextStreamModelImpl reads it. */
module ContextStreamModels {
  import opened Wrappers
  import opened Json

  /** Absent strings are Java nulls. */
  datatype ContextStreamModel = ContextStreamModel(streamUri: Option<string>, ontologyUrl: Option<string>,
                                                   assertions: seq<string>)

  /** The constructor; None where the assertion list holds a value whose toString throws. */
  function DecodeStreamModel(o: Option<map<string, Json>>): (r: Option<ContextStreamModel>)
    ensures r.Some? <==> StringList(OptArray(o, "assertions")).Some?
    ensures r.Some? ==> (r.value.streamUri == OptString(o, "stream_uri")
      && r.value.ontologyUrl == OptString(o, "ontology_url"))
    ensures r.Some? && OptArray(o, "assertions").None? ==> r.value.assertions == []
  {
    var assertions := StringList(OptArray(o, "assertions"));
    if assertions.None? then None
    else Some(ContextStreamModel(OptString(o, "stream_uri"), OptString(o, "ontology_url"), assertions.value))
  }

  /** A configuration entry that describes m. */
  function EncodeStreamModel(m: ContextStreamModel): map<string, Json>
  {
    PutOpt(PutOpt(map["assertions" := JArray(Strings(m.assertions))], "stream_uri", m.streamUri),
      "ontology_url", m.ontologyUrl)
  }

  /** Reading the entry written for m gives m back: each field and the assertion order survive. */
  lemma StreamModelRoundTrip(m: ContextStreamModel)
    ensures DecodeStreamModel(Some(EncodeStreamModel(m))) == Some(m)
  {
    var o := EncodeStreamModel(m);
    StringListOfStrings(m.assertions);
    assert OptArray(Some(o), "assertions") == Some(Strings(m.assertions));
  }
}
