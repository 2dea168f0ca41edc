/**
 * Small helpers of the HTTP layer: the local name of a concept IRI, the CORS
 * headers attached to responses, a pair type, and the shape of an HTTP
 * response as the handlers build it.
 */
module Utils {
  import opened Wrappers
  import opened JavaLang

  /** Tuple<X, Y>: an immutable pair. */
  datatype Tuple<X, Y> = Tuple(first: X, second: Y)

  /** Response headers: each name with its list of values. */
  type Headers = map<string, seq<string>>

  /** An HTTP response as a handler ends it. */
  datatype HttpResponse = HttpResponse(status: int, headers: Headers, body: string)

  const ACCESS_CONTROL_ALLOW_ORIGIN: string := "Access-Control-Allow-Origin"
  const ACCESS_CONTROL_ALLOW_CREDENTIALS: string := "Access-Control-Allow-Credentials"
  const ACCESS_CONTROL_ALLOW_METHODS: string := "Access-Control-Allow-Methods"

  /** getCorsHeaders. */
  function CorsHeaders(): Headers
  {
    map[ACCESS_CONTROL_ALLOW_ORIGIN := ["*"],
        ACCESS_CONTROL_ALLOW_CREDENTIALS := ["true"],
        ACCESS_CONTROL_ALLOW_METHODS := ["GET", "POST", "PUT", "DELETE", "HEAD", "OPTIONS"]]
  }

  /** Exactly three entries: any origin, credentials allowed, and the six methods in order. */
  lemma CorsHeadersExact()
    ensures |CorsHeaders()| == 3
    ensures CorsHeaders().Keys == {ACCESS_CONTROL_ALLOW_ORIGIN, ACCESS_CONTROL_ALLOW_CREDENTIALS, ACCESS_CONTROL_ALLOW_METHODS}
    ensures CorsHeaders()[ACCESS_CONTROL_ALLOW_ORIGIN] == ["*"]
    ensures CorsHeaders()[ACCESS_CONTROL_ALLOW_CREDENTIALS] == ["true"]
    ensures CorsHeaders()[ACCESS_CONTROL_ALLOW_METHODS] == ["GET", "POST", "PUT", "DELETE", "HEAD", "OPTIONS"]
  {
  }

  /**
   * getConceptLocalName: the last piece of the split on '/', then, if that
   * piece has a '#', the second piece of its split on '#'. None where Java
   * indexes out of bounds: a string of slashes only, or a piece whose split
   * on '#' has fewer than two pieces.
   */
  function GetConceptLocalName(uri: string): Option<string>
  {
    var parts := Split(uri, '/');
    if |parts| == 0 then None
    else
      var localName := parts[|parts| - 1];
      if '#' in localName then
        var pieces := Split(localName, '#');
        if |pieces| < 2 then None else Some(pieces[1])
      else Some(localName)
  }

  /** A name with neither '/' nor '#' is its own local name. */
  lemma LocalNameOfPlainName(s: string)
    requires '/' !in s && '#' !in s
    ensures GetConceptLocalName(s) == Some(s)
  {
    SplitWithoutSep(s, '/');
  }

  /** Without a fragment, the local name is the last segment once trailing slashes are ignored. */
  lemma LocalNameIsLastSegment(s: string)
    requires TrimEnd(s, '/') != "" && '#' !in s
    ensures GetConceptLocalName(s) == Some(LastSegment(TrimEnd(s, '/'), '/'))
  {
    SplitLastPiece(s, '/');
    var parts := Split(s, '/');
    var seg := parts[|parts| - 1];
    var t := TrimEnd(s, '/');
    var i := LastIndexOf(t, '/');
    assert seg == t[i + 1..];
    forall k | 0 <= k < |seg|
      ensures seg[k] != '#'
    {
      assert seg[k] == t[i + 1 + k] == s[i + 1 + k];
      assert s[i + 1 + k] in s;
    }
  }

  /** A trailing '/' does not change the local name. */
  lemma LocalNameIgnoresTrailingSlash(s: string)
    requires TrimEnd(s, '/') != ""
    ensures GetConceptLocalName(s + "/") == GetConceptLocalName(s)
  {
    var s' := s + "/";
    assert s'[..|s|] == s;
    assert TrimEnd(s', '/') == TrimEnd(s, '/');
    SplitLastPiece(s, '/');
    SplitLastPiece(s', '/');
  }

  /** A string of slashes only has no last piece, so Java indexes out of bounds. */
  lemma LocalNameOfSlashes(s: string)
    requires |s| > 0 && TrimEnd(s, '/') == ""
    ensures GetConceptLocalName(s) == None
  {
    SplitLastPiece(s, '/');
  }

  /**
   * With a fragment, the local name is the text between the first and the
   * second '#' (or the end), when that text is not empty.
   */
  lemma LocalNameOfFragment(a: string, b: string, c: string)
    requires '/' !in a + "#" + b + c
    requires '#' !in a && '#' !in b && b != ""
    requires c == "" || c[0] == '#'
    ensures GetConceptLocalName(a + "#" + b + c) == Some(b)
  {
    var s := a + "#" + b + c;
    SplitWithoutSep(s, '/');
    assert s[|a|] == '#';
    if c == "" {
      assert s == a + ['#'] + b;
      SecondPieceAtEnd(a, b);
    } else {
      assert s == a + ['#'] + (b + ['#'] + c[1..]);
      SecondPieceBeforeHash(a, b, c[1..]);
    }
  }

  /** The split on '#' of a + '#' + b is [a, b]. */
  lemma SecondPieceAtEnd(a: string, b: string)
    requires '#' !in a && '#' !in b && b != ""
    ensures var p := Split(a + ['#'] + b, '#'); |p| >= 2 && p[1] == b
  {
    var s := a + ['#'] + b;
    assert s[|a|] == '#';
    SplitAllAtSep(a, b, '#');
    SplitAllNoSep(a, '#');
    SplitAllNoSep(b, '#');
    assert SplitAll(s, '#') == [a, b];
    assert DropTrailingEmpty([a, b]) == [a, b];
  }

  /** The split on '#' of a + '#' + b + '#' + rest has b as its second piece. */
  lemma SecondPieceBeforeHash(a: string, b: string, rest: string)
    requires '#' !in a && '#' !in b && b != ""
    ensures var p := Split(a + ['#'] + (b + ['#'] + rest), '#'); |p| >= 2 && p[1] == b
  {
    var s := a + ['#'] + (b + ['#'] + rest);
    assert s[|a|] == '#';
    TwoPiecesFirst(a, b, rest);
    DropTrailingKeeps(SplitAll(s, '#'), 1);
  }

  /** The full split of a + '#' + b + '#' + rest starts with a and b. */
  lemma TwoPiecesFirst(a: string, b: string, rest: string)
    requires '#' !in a && '#' !in b
    ensures SplitAll(a + ['#'] + (b + ['#'] + rest), '#') == [a, b] + SplitAll(rest, '#')
  {
    SplitAllAtSep(a, b + ['#'] + rest, '#');
    SplitAllAtSep(b, rest, '#');
    SplitAllNoSep(a, '#');
    SplitAllNoSep(b, '#');
  }

  /** Nothing after the '#': the split on '#' has a single piece, and index 1 is out of bounds. */
  lemma LocalNameOfEmptyFragment(a: string)
    requires '/' !in a && '#' !in a
    ensures GetConceptLocalName(a + "#") == None
  {
    var s := a + "#";
    assert s[|a|] == '#';
    SplitWithoutSep(s, '/');
    assert s == a + ['#'] + "";
    SplitAllAtSep(a, "", '#');
    SplitAllNoSep(a, '#');
    assert SplitAll("", '#') == [""];
    assert SplitAll(s, '#') == [a, ""];
    assert DropTrailingEmpty([a, ""]) == DropTrailingEmpty([a]) by {
      assert [a, ""][..1] == [a];
    }
  }
}
