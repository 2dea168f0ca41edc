/**
 * A context stream: an RDF stream of context assertions identified by an IRI,
 * with a short name taken from its path, the time of its last update, and the
 * data stream its updates are written to.
 */
module ContextStreams {
  import opened Wrappers
  import opened JavaLang
  import opened Rdf

  /** The parts of a java.net.URI the name extraction reads; either may be null. */
  datatype UriParts = UriParts(path: Option<string>, host: Option<string>)

  /** An RSP4J data stream: the timestamped graphs put into it, in order. Its IRI may be null. */
  class DataStream {
    const iri: Option<string>
    var items: seq<(Graph, Int64)>

    constructor (iri: Option<string>)
      ensures this.iri == iri && items == []
    {
      this.iri := iri;
      items := [];
    }

    method Put(g: Graph, t: Int64)
      modifies this
      ensures items == old(items) + [(g, t)]
    {
      items := items + [(g, t)];
    }
  }

  /**
   * extractStreamName, given the parse of the stream URI (None where
   * URI.create throws): the host for an empty or root path, otherwise the last
   * element of path.split("/"); "unnamed" where that throws. The result is
   * None where the Java method returns a null host.
   */
  function ExtractStreamName(parsed: Option<UriParts>): (r: Option<string>)
    ensures parsed.None? ==> r == Some("unnamed")
    ensures parsed.Some? && (parsed.value.path.None? || parsed.value.path.value in {"", "/"}) ==>
      r == parsed.value.host
    ensures parsed.Some? && parsed.value.path.Some? && parsed.value.path.value !in {"", "/"} ==>
      var p := TrimEnd(parsed.value.path.value, '/');
      r == Some(if p == "" then "unnamed" else LastSegment(p, '/'))
    ensures parsed.Some? && parsed.value.path.Some? && parsed.value.path.value !in {"", "/"} ==>
      r.Some? && r.value != "" && '/' !in r.value
  {
    if parsed.None? then Some("unnamed")
    else
      var path := parsed.value.path;
      if path.None? || path.value == "" || path.value == "/" then parsed.value.host
      else
        var segments := Split(path.value, '/');
        SplitLastPiece(path.value, '/');
        if |segments| == 0 then Some("unnamed")
        else
          var last := segments[|segments| - 1];
          // split drops trailing empty strings, so the fallbacks for an empty
          // last segment never apply
          assert last != "";
          Some(last)
  }

  /** A stream whose updates go to a data stream, remembering the last update time. */
  class ContextStream {
    /** None for a stream configured without a URI (a Java null). */
    const streamURI: Option<string>
    const streamName: Option<string>
    const ontologyURL: Option<string>
    const contextAssertionTypes: seq<string>
    var dataStream: DataStream
    var lastUpdateTimestamp: Int64

    /**
     * The constructor: a null assertion list gives an empty list; the data
     * stream is a new one named by the stream URI; the timestamp starts at 0.
     */
    constructor (streamURI: Option<string>, parsed: Option<UriParts>, ontologyURL: Option<string>,
                 contextAssertionTypes: Option<seq<string>>)
      ensures this.streamURI == streamURI && streamName == ExtractStreamName(parsed)
      ensures this.ontologyURL == ontologyURL
      ensures this.contextAssertionTypes == if contextAssertionTypes.None? then [] else contextAssertionTypes.value
      ensures fresh(dataStream) && dataStream.iri == streamURI && dataStream.items == []
      ensures lastUpdateTimestamp == 0
      ensures IsSingleAssertionStream() <==> contextAssertionTypes.Some? && |contextAssertionTypes.value| == 1
    {
      this.streamURI := streamURI;
      streamName := ExtractStreamName(parsed);
      this.ontologyURL := ontologyURL;
      this.contextAssertionTypes := if contextAssertionTypes.None? then [] else contextAssertionTypes.value;
      dataStream := new DataStream(streamURI);
      lastUpdateTimestamp := 0;
    }

    /** isSingleAssertionStream: exactly one assertion type. */
    predicate IsSingleAssertionStream()
    {
      |contextAssertionTypes| == 1
    }

    /**
     * updateStream: the graph goes to the current data stream and the
     * timestamp becomes t, whether or not t is later than the previous one.
     */
    method UpdateStream(g: Graph, t: Int64)
      modifies this, dataStream
      ensures dataStream == old(dataStream)
      ensures dataStream.items == old(dataStream.items) + [(g, t)]
      ensures lastUpdateTimestamp == t
    {
      dataStream.Put(g, t);
      lastUpdateTimestamp := t;
    }

    /** setWritableStream: later updates go to d. */
    method SetWritableStream(d: DataStream)
      modifies this
      ensures dataStream == d && lastUpdateTimestamp == old(lastUpdateTimestamp)
    {
      dataStream := d;
    }
  }

  /** A path made only of slashes (other than "/") gives "unnamed": its split is empty and indexing it throws. */
  lemma AllSlashPath(k: nat, host: Option<string>)
    requires k >= 2
    ensures ExtractStreamName(Some(UriParts(Some(Repeat('/', k)), host))) == Some("unnamed")
  {
    var p := Repeat('/', k);
    assert p[..2] == "//";
    assert TrimEnd(p, '/') == "";
  }
}
