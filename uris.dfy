/**
 * The two steps by which the services turn a configured URL string into a
 * java.net.URL, new URI(s) followed by toURL(), and the ways the pair fails.
 * java.net.URI looks for a scheme up to the first ':', '/', '?' or '#'; a
 * string that has none is a relative reference, and toURL() throws an
 * IllegalArgumentException for it. The remaining grammar checks of the URI
 * parser are an oracle, parses. Also the step by which a membership query is
 * read, new File(new URI(s)), which throws for any URI that is not a plain
 * file URI.
 */
module Uris {
  import opened Wrappers

  /** The characters that end the search for a scheme. */
  const SCHEME_STOPS: string := ":/?#"

  /** The index of the first scheme stop in s, or |s| when there is none. */
  function SchemeEnd(s: string): (r: nat)
    ensures r <= |s|
    ensures forall i :: 0 <= i < r ==> s[i] !in SCHEME_STOPS
    ensures r < |s| ==> s[r] in SCHEME_STOPS
  {
    if |s| == 0 then 0
    else if s[0] in SCHEME_STOPS then 0
    else 1 + SchemeEnd(s[1..])
  }

  /** The first scheme stop is a ':': the URI has a scheme, so it is absolute. */
  predicate HasScheme(s: string)
  {
    SchemeEnd(s) < |s| && s[SchemeEnd(s)] == ':'
  }

  /**
   * How new URI(s).toURL() ends: a NullPointerException for a null string,
   * a URISyntaxException, an IllegalArgumentException ("URI is not
   * absolute"), or a URL.
   */
  datatype UrlStep = NullUrl | SyntaxError | NotAbsolute | Absolute(url: string)

  /** new URI(s).toURL(); an empty scheme (a leading ':') is a syntax error. */
  function ToUrl(s: Option<string>, parses: string -> bool): (r: UrlStep)
    ensures r.NullUrl? <==> s.None?
    ensures r.Absolute? ==> r.url == s.value && HasScheme(s.value) && SchemeEnd(s.value) > 0
    ensures r.NotAbsolute? ==> !HasScheme(s.value)
    ensures s.Some? && !parses(s.value) ==> r.SyntaxError?
  {
    if s.None? then NullUrl
    else if HasScheme(s.value) && SchemeEnd(s.value) == 0 then SyntaxError
    else if !parses(s.value) then SyntaxError
    else if !HasScheme(s.value) then NotAbsolute
    else Absolute(s.value)
  }

  /**
   * The failures that neither call site catches: both catch only the checked
   * URISyntaxException and MalformedURLException.
   */
  predicate Uncaught(r: UrlStep)
  {
    r.NullUrl? || r.NotAbsolute?
  }

  /** The scheme search stops at the first stop character after a prefix without one. */
  lemma {:induction false} SchemeEndAt(p: string, c: char, rest: string)
    requires forall i :: 0 <= i < |p| ==> p[i] !in SCHEME_STOPS
    requires c in SCHEME_STOPS
    ensures SchemeEnd(p + [c] + rest) == |p|
    ensures (p + [c] + rest)[|p|] == c
  {
    if |p| > 0 {
      assert (p + [c] + rest)[1..] == p[1..] + [c] + rest;
      SchemeEndAt(p[1..], c, rest);
    }
  }

  /** A string without any scheme stop has no scheme. */
  lemma {:induction false} NoStopNoScheme(s: string)
    requires forall i :: 0 <= i < |s| ==> s[i] !in SCHEME_STOPS
    ensures SchemeEnd(s) == |s| && !HasScheme(s)
  {
    if |s| > 0 {
      NoStopNoScheme(s[1..]);
    }
  }

  /**
   * A scheme name followed by ':' gives an absolute URL, whatever follows,
   * once the parser accepts the string.
   */
  lemma SchemeGivesAbsolute(scheme: string, rest: string, parses: string -> bool)
    requires |scheme| > 0 && forall i :: 0 <= i < |scheme| ==> scheme[i] !in SCHEME_STOPS
    requires parses(scheme + ":" + rest)
    ensures ToUrl(Some(scheme + ":" + rest), parses) == Absolute(scheme + ":" + rest)
  {
    SchemeEndAt(scheme, ':', rest);
  }

  /**
   * A path whose first stop is a '/' (a relative path such as
   * "policies/lamp.ttl") or that has no stop at all is never turned into a
   * URL: toURL() throws the uncaught IllegalArgumentException.
   */
  lemma RelativeThrows(seg: string, rest: string, parses: string -> bool)
    requires forall i :: 0 <= i < |seg| ==> seg[i] !in SCHEME_STOPS
    requires parses(seg + "/" + rest)
    ensures Uncaught(ToUrl(Some(seg + "/" + rest), parses))
  {
    SchemeEndAt(seg, '/', rest);
  }

  /** The same for a string without '/', '?', '#' or ':' (a bare file name). */
  lemma BareNameThrows(s: string, parses: string -> bool)
    requires forall i :: 0 <= i < |s| ==> s[i] !in SCHEME_STOPS
    requires parses(s)
    ensures ToUrl(Some(s), parses) == NotAbsolute
  {
    NoStopNoScheme(s);
  }

  // ---------------------------------------------------------------- new File(new URI(s))

  /**
   * The scheme is "file" ignoring case. A scheme that parses is ASCII, so
   * folding ASCII letters is what equalsIgnoreCase does on it.
   */
  predicate IsFileScheme(scheme: string)
  {
    |scheme| == 4 && scheme[0] in "fF" && scheme[1] in "iI" && scheme[2] in "lL" && scheme[3] in "eE"
  }

  /**
   * What follows "file:" is a hierarchical path without a query, a fragment
   * or an authority: it starts with '/', holds no '?' or '#', and when it
   * starts with "//" the authority after it is empty (so a third '/' follows).
   */
  predicate IsFilePath(p: string)
  {
    && |p| > 0 && p[0] == '/'
    && '?' !in p && '#' !in p
    && (|p| >= 2 && p[1] == '/' ==> |p| >= 3 && p[2] == '/')
  }

  /** The URI is absolute, its scheme is file and the rest is a plain path. */
  predicate IsFileUri(s: string)
  {
    HasScheme(s) && IsFileScheme(s[..SchemeEnd(s)]) && IsFilePath(s[SchemeEnd(s) + 1..])
  }

  /**
   * How parseRSPQLQuery's two steps end: a URISyntaxException, which it
   * catches and answers null for; an IllegalArgumentException from new File,
   * which it does not catch; or a file to read.
   */
  datatype QueryRead = QueryUnparsed | QueryEscapes | QueryFile

  /** new File(new URI(q)): only a parsing, absolute file URI with a plain path gives a file. */
  function ReadQuery(q: string, parses: string -> bool): (r: QueryRead)
    ensures r.QueryUnparsed? <==> ToUrl(Some(q), parses).SyntaxError?
    ensures r.QueryFile? <==> ToUrl(Some(q), parses).Absolute? && IsFileUri(q)
    ensures r.QueryEscapes? <==> !ToUrl(Some(q), parses).SyntaxError? && !IsFileUri(q)
  {
    var u := ToUrl(Some(q), parses);
    if u.SyntaxError? then QueryUnparsed
    else if u.Absolute? && IsFileUri(q) then QueryFile
    else QueryEscapes
  }

  /** A relative query path such as "rules/membership.rspql" makes new File throw. */
  lemma RelativeQueryEscapes(seg: string, rest: string, parses: string -> bool)
    requires forall i :: 0 <= i < |seg| ==> seg[i] !in SCHEME_STOPS
    requires parses(seg + "/" + rest)
    ensures ReadQuery(seg + "/" + rest, parses) == QueryEscapes
  {
    SchemeEndAt(seg, '/', rest);
  }

  /** A query URL with another scheme, such as "http://h/q.rspql", makes new File throw. */
  lemma OtherSchemeQueryEscapes(scheme: string, rest: string, parses: string -> bool)
    requires |scheme| > 0 && forall i :: 0 <= i < |scheme| ==> scheme[i] !in SCHEME_STOPS
    requires !IsFileScheme(scheme) && parses(scheme + ":" + rest)
    ensures ReadQuery(scheme + ":" + rest, parses) == QueryEscapes
  {
    SchemeEndAt(scheme, ':', rest);
    var s := scheme + ":" + rest;
    assert s[..|scheme|] == scheme;
  }

  /** "file:" followed by a plain path is read as a file, in any case of the scheme. */
  lemma FileQueryRead(scheme: string, path: string, parses: string -> bool)
    requires scheme == "file" || scheme == "FILE"
    requires IsFilePath(path) && parses(scheme + ":" + path)
    ensures ReadQuery(scheme + ":" + path, parses) == QueryFile
  {
    SchemeEndAt(scheme, ':', path);
    var s := scheme + ":" + path;
    assert s[..4] == scheme && s[5..] == path;
  }

  /** A file URI with a host, such as "file://h/q.rspql", has an authority, so new File throws. */
  lemma FileWithHostEscapes(host: string, rest: string, parses: string -> bool)
    requires |host| > 0 && host[0] != '/'
    requires parses("file://" + host + rest)
    ensures ReadQuery("file://" + host + rest, parses) == QueryEscapes
  {
    var s := "file://" + host + rest;
    assert s == "file" + [':'] + ("//" + host + rest);
    SchemeEndAt("file", ':', "//" + host + rest);
    assert s[5..] == "//" + host + rest;
    assert s[5..][2] == host[0];
  }
}
