/** The access-control configuration, as WACConfigImpl reads it. */
module WACConfigs {
  import opened Wrappers
  import opened Json

  /**
   * Vert.x getBoolean(key, def), with JsonObject taken to answer def for an
   * absent key or a JSON null; a non-boolean value throws (the cast fails).
   */
  function GetBooleanOr(o: map<string, Json>, key: string, def: bool): (r: Option<bool>)
    ensures key !in o ==> r == Some(def)
    ensures key in o && o[key].JBool? ==> r == Some(o[key].b)
  {
    if key !in o || o[key].JNull? then Some(def)
    else if o[key].JBool? then Some(o[key].b)
    else None
  }

  /** The constructor: enabled exactly when a "wac" object is present and its "enabled" is true; None where it throws. */
  function DecodeWACEnabled(config: map<string, Json>): (r: Option<bool>)
    ensures OptObject(Some(config), "wac").None? ==> r == Some(false)
    ensures r == Some(true) <==> ("wac" in config && config["wac"].JObject?
      && "enabled" in config["wac"].fields && config["wac"].fields["enabled"] == JBool(true))
  {
    var wac := OptObject(Some(config), "wac");
    if wac.None? then Some(false) else GetBooleanOr(wac.value, "enabled", false)
  }

  /** The four cases: no block, a block without the key, and the key set either way. */
  lemma WACEnabledCases(block: map<string, Json>)
    ensures DecodeWACEnabled(map[]) == Some(false)
    ensures "enabled" !in block ==> DecodeWACEnabled(map["wac" := JObject(block)]) == Some(false)
    ensures DecodeWACEnabled(map["wac" := JObject(block["enabled" := JBool(true)])]) == Some(true)
    ensures DecodeWACEnabled(map["wac" := JObject(block["enabled" := JBool(false)])]) == Some(false)
  {
  }
}
