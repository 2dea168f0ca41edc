/**
 * An artifact protected by context-based authorizations: it keeps its own
 * list of rule objects and, when its operations are set up, publishes them
 * in its description as metadata.
 */
module ContextAuthArtifacts {
  import opened Wrappers
  import opened JavaLang
  import opened Rdf
  import opened AuthorizationAccessType
  import opened AuthorizedEntityType
  import opened Authorization
  import Vocab

  const HASH_ARTIFACT: string := "#artifact"

  // ---------------------------------------------------------------- removeIf

  /** The filter of removeAuthorizations: a rule is kept when it protects another resource. */
  function ResourceIsNot(uri: string): ContextBasedAuthorization -> bool
  {
    (a: ContextBasedAuthorization) => a.resourceURI != uri
  }

  /** The filter of removeAuthorizationsToEntity: a rule is kept when it is granted to another entity. */
  function EntityIsNot(uri: string): ContextBasedAuthorization -> bool
  {
    (a: ContextBasedAuthorization) => a.authorizedEntityURI != uri
  }

  /** removeIf(auth -> auth.getResourceURI().equals(uri)). */
  function WithoutResource(xs: seq<ContextBasedAuthorization>, uri: string): (r: seq<ContextBasedAuthorization>)
    ensures forall i :: 0 <= i < |r| ==> r[i] in xs && r[i].resourceURI != uri
    ensures forall i :: 0 <= i < |xs| && xs[i].resourceURI != uri ==> xs[i] in r
  {
    Filter(xs, ResourceIsNot(uri))
  }

  /** removeIf(auth -> auth.getAuthorizedEntityURI().equals(uri)). */
  function WithoutEntity(xs: seq<ContextBasedAuthorization>, uri: string): (r: seq<ContextBasedAuthorization>)
    ensures forall i :: 0 <= i < |r| ==> r[i] in xs && r[i].authorizedEntityURI != uri
    ensures forall i :: 0 <= i < |xs| && xs[i].authorizedEntityURI != uri ==> xs[i] in r
  {
    Filter(xs, EntityIsNot(uri))
  }

  /**
   * removeAuthorizations goes element by element: a rule for the resource
   * goes, any other stays, and the ones that stay keep their order.
   */
  lemma WithoutResourceKeepsOrder(xs: seq<ContextBasedAuthorization>, ys: seq<ContextBasedAuthorization>,
                                  a: ContextBasedAuthorization, uri: string)
    ensures WithoutResource(xs + ys, uri) == WithoutResource(xs, uri) + WithoutResource(ys, uri)
    ensures WithoutResource([a], uri) == if a.resourceURI == uri then [] else [a]
  {
    FilterAppend(xs, ys, ResourceIsNot(uri));
    FilterOne(a, ResourceIsNot(uri));
  }

  /** removeAuthorizationsToEntity likewise, on the entity the rule is granted to. */
  lemma WithoutEntityKeepsOrder(xs: seq<ContextBasedAuthorization>, ys: seq<ContextBasedAuthorization>,
                                a: ContextBasedAuthorization, uri: string)
    ensures WithoutEntity(xs + ys, uri) == WithoutEntity(xs, uri) + WithoutEntity(ys, uri)
    ensures WithoutEntity([a], uri) == if a.authorizedEntityURI == uri then [] else [a]
  {
    FilterAppend(xs, ys, EntityIsNot(uri));
    FilterOne(a, EntityIsNot(uri));
  }

  // ---------------------------------------------------------------- the metadata graph

  /** The artifact typed as a context-authorized resource. */
  function ResourceTypeStatement(thing: string): Statement
  {
    Statement(Iri(thing), Vocab.RDF_TYPE, Iri(Vocab.CONTEXT_AUTHORIZED_RESOURCE))
  }

  /** The link from the artifact to one rule: a control authorization when CONTROL is among the rule's types. */
  function LinkStatement(thing: string, types: seq<AccessType>, iri: string): Statement
  {
    var p := if CONTROL in types then Vocab.HAS_CONTROL_AUTHORIZATION else Vocab.HAS_ACCESS_AUTHORIZATION;
    Statement(Iri(thing), p, Iri(iri))
  }

  /** The link of each rule, in order. */
  function Links(thing: string, rs: seq<ContextBasedAuthorization>, ds: seq<Described>): (r: seq<Statement>)
    requires |rs| == |ds|
    ensures |r| == |ds| && forall i :: 0 <= i < |ds| ==> r[i] == LinkStatement(thing, rs[i].accessTypes, ds[i].iri)
  {
    seq(|ds|, i requires 0 <= i < |ds| => LinkStatement(thing, rs[i].accessTypes, ds[i].iri))
  }

  /** The description of each rule, in order. */
  function Models(ds: seq<Described>): (r: seq<Model>)
    ensures |r| == |ds| && forall i :: 0 <= i < |ds| ==> r[i] == ds[i].model
  {
    seq(|ds|, i requires 0 <= i < |ds| => ds[i].model)
  }

  /** A first statement, then for each part its link and its statements, added in turn to one model. */
  function Chunks(head: Statement, links: seq<Statement>, models: seq<Model>): Model
    requires |links| == |models|
    decreases |links|
  {
    if |links| == 0 then [head]
    else
      var n := |links| - 1;
      AddAll(Add(Chunks(head, links[..n], models[..n]), links[n]), models[n])
  }

  /** The last part adds its link and its statements to the model of the parts before it. */
  lemma ChunksLast(head: Statement, links: seq<Statement>, models: seq<Model>, st: Statement)
    requires |links| == |models| > 0
    ensures var n := |links| - 1;
      st in Chunks(head, links, models) <==>
      st in Chunks(head, links[..n], models[..n]) || st == links[n] || st in models[n]
  {
  }

  /** Some part among the first k holds st, as its link or among its statements. */
  predicate InSomePart(st: Statement, links: seq<Statement>, models: seq<Model>, k: nat)
    requires k <= |links| == |models|
  {
    exists i :: 0 <= i < k && (st == links[i] || st in models[i])
  }

  /** The first k parts of a list are those of any list it is a prefix of. */
  lemma InSomePartPrefix(st: Statement, links: seq<Statement>, models: seq<Model>, n: nat)
    requires n < |links| == |models|
    ensures InSomePart(st, links[..n], models[..n], n) <==> InSomePart(st, links, models, n)
    ensures InSomePart(st, links, models, n + 1) <==>
      InSomePart(st, links, models, n) || st == links[n] || st in models[n]
  {
    if InSomePart(st, links, models, n) {
      var i :| 0 <= i < n && (st == links[i] || st in models[i]);
      assert links[..n][i] == links[i] && models[..n][i] == models[i];
    }
    if InSomePart(st, links[..n], models[..n], n) {
      var i :| 0 <= i < n && (st == links[..n][i] || st in models[..n][i]);
      assert links[..n][i] == links[i] && models[..n][i] == models[i];
    }
    if InSomePart(st, links, models, n + 1) {
      var i :| 0 <= i < n + 1 && (st == links[i] || st in models[i]);
      assert i < n ==> InSomePart(st, links, models, n);
    }
  }

  /** The merged model holds the first statement, every link and every part's statements, and nothing else. */
  lemma {:induction false} ChunksContents(head: Statement, links: seq<Statement>, models: seq<Model>, st: Statement)
    requires |links| == |models|
    ensures st in Chunks(head, links, models) <==> st == head || InSomePart(st, links, models, |links|)
    decreases |links|
  {
    if |links| > 0 {
      var n := |links| - 1;
      ChunksContents(head, links[..n], models[..n], st);
      ChunksLast(head, links, models, st);
      InSomePartPrefix(st, links, models, n);
    }
  }

  /**
   * The graph addAuthorizationMetadata builds: the type statement, then for
   * each rule in turn its link and its description. ds holds what toModel
   * gave for each rule.
   */
  function Metadata(thing: string, rs: seq<ContextBasedAuthorization>, ds: seq<Described>): Model
    requires |rs| == |ds|
  {
    Chunks(ResourceTypeStatement(thing), Links(thing, rs, ds), Models(ds))
  }

  /** One more rule adds its link, then its description, to the metadata of the rules before it. */
  lemma MetadataSnoc(thing: string, rs: seq<ContextBasedAuthorization>, ds: seq<Described>, d: Described, i: nat)
    requires i < |rs| && |ds| == i
    ensures Metadata(thing, rs[..i + 1], ds + [d])
      == AddAll(Add(Metadata(thing, rs[..i], ds), LinkStatement(thing, rs[i].accessTypes, d.iri)), d.model)
  {
    assert Links(thing, rs[..i + 1], ds + [d])[..i] == Links(thing, rs[..i], ds);
    assert Models(ds + [d])[..i] == Models(ds);
  }

  /** The metadata holds the type statement, each rule's link and each rule's description, and nothing else. */
  lemma MetadataContents(thing: string, rs: seq<ContextBasedAuthorization>, ds: seq<Described>, st: Statement)
    requires |rs| == |ds|
    ensures st in Metadata(thing, rs, ds) <==>
      st == ResourceTypeStatement(thing)
      || exists i :: 0 <= i < |ds| && (st == LinkStatement(thing, rs[i].accessTypes, ds[i].iri) || st in ds[i].model)
  {
    var links, models := Links(thing, rs, ds), Models(ds);
    ChunksContents(ResourceTypeStatement(thing), links, models, st);
    if InSomePart(st, links, models, |ds|) {
      var i :| 0 <= i < |ds| && (st == links[i] || st in models[i]);
      assert st == LinkStatement(thing, rs[i].accessTypes, ds[i].iri) || st in ds[i].model;
    }
  }

  /** The two link properties differ, so a rule's link says whether it grants CONTROL. */
  lemma LinkSaysControl(thing: string, types: seq<AccessType>, iri: string)
    ensures LinkStatement(thing, types, iri).pred == Vocab.HAS_CONTROL_AUTHORIZATION <==> CONTROL in types
    ensures LinkStatement(thing, types, iri).pred == Vocab.HAS_ACCESS_AUTHORIZATION <==> CONTROL !in types
  {
    var k := |Vocab.CASHMERE_NS| + 3;
    assert Vocab.HAS_CONTROL_AUTHORIZATION[k] == 'C';
    assert Vocab.HAS_ACCESS_AUTHORIZATION[k] == 'A';
  }

  /**
   * The loop of addAuthorizationMetadata: toModel on each rule object in
   * turn, each link and description added to the graph; it stops at the
   * first object that cannot be described. An object that already has an
   * instance IRI keeps it.
   */
  method BuildMetadata(thing: string, rs: seq<ContextBasedAuthorization>, freshId: nat -> string)
    returns (mb: Option<Model>, ghost ds: seq<Described>)
    modifies rs
    ensures forall j :: 0 <= j < |rs| && old(rs[j].authIRI).Some? ==> rs[j].authIRI == old(rs[j].authIRI)
    ensures mb.Some? ==> DescribedAs(rs, ds) && mb.value == Metadata(thing, rs, ds)
    ensures mb.None? ==> SomeUndescribable(rs)
  {
    var m: Model := [ResourceTypeStatement(thing)];
    ds := [];
    for i := 0 to |rs|
      invariant forall j :: 0 <= j < |rs| && old(rs[j].authIRI).Some? ==> rs[j].authIRI == old(rs[j].authIRI)
      invariant DescribedAs(rs[..i], ds) && m == Metadata(thing, rs[..i], ds)
    {
      var d := DescribeNext(rs, i, ds, freshId(i));
      if d.None? {
        return None, ds;
      }
      MetadataSnoc(thing, rs, ds, d.value, i);
      m := AddAll(Add(m, LinkStatement(thing, rs[i].accessTypes, d.value.iri)), d.value.model);
      ds := ds + [d.value];
    }
    assert rs[..|rs|] == rs;
    return Some(m), ds;
  }

  // ---------------------------------------------------------------- the artifact

  class ContextAuthArtifact {
    /** getArtifactUri() of the underlying hypermedia artifact. */
    const artifactUri: string
    /** The rule objects of this artifact, in registration order. */
    var authorizations: seq<ContextBasedAuthorization>
    /** The graphs handed to addMetadata, in order. */
    var metadata: seq<Model>

    constructor (artifactUri: string)
      ensures this.artifactUri == artifactUri && authorizations == [] && metadata == []
    {
      this.artifactUri := artifactUri;
      authorizations := [];
      metadata := [];
    }

    /** The IRI of the thing the artifact's description is about. */
    function ThingUri(): string
    {
      artifactUri + HASH_ARTIFACT
    }

    /** registerAuthorization(auth): appended at the end. */
    method RegisterAuthorization(auth: ContextBasedAuthorization)
      modifies this
      ensures authorizations == old(authorizations) + [auth] && metadata == old(metadata)
    {
      authorizations := authorizations + [auth];
    }

    /** removeAuthorization(auth): the first rule equal to auth goes, if there is one. */
    method RemoveAuthorization(auth: ContextBasedAuthorization)
      modifies this
      ensures authorizations == RemoveFirstEqual(old(authorizations), auth) && metadata == old(metadata)
    {
      authorizations := RemoveFirstEqual(authorizations, auth);
    }

    /** removeAuthorizations(resourceUri): every rule for that resource goes. */
    method RemoveAuthorizations(resourceUri: string)
      modifies this
      ensures authorizations == WithoutResource(old(authorizations), resourceUri) && metadata == old(metadata)
    {
      authorizations := WithoutResource(authorizations, resourceUri);
    }

    /** removeAuthorizationsToEntity(uri): every rule granted to that entity goes. */
    method RemoveAuthorizationsToEntity(requesterIdentifierUri: string)
      modifies this
      ensures authorizations == WithoutEntity(old(authorizations), requesterIdentifierUri) && metadata == old(metadata)
    {
      authorizations := WithoutEntity(authorizations, requesterIdentifierUri);
    }

    /** registerAuthorization by components: a new named rule with a single access type, appended. */
    method RegisterAuthorizationOf(resourceName: string, resourceUri: string, accessType: AccessType,
                                  requesterType: EntityType, requesterName: string, requesterIdentifierUri: string,
                                  accessConditionsShapeUri: string)
      modifies this
      ensures |authorizations| == |old(authorizations)| + 1 && authorizations[..|old(authorizations)|] == old(authorizations)
      ensures var a := authorizations[|authorizations| - 1];
        fresh(a)
        && a.Fields() == Rule(resourceUri, [accessType], requesterType, requesterIdentifierUri, accessConditionsShapeUri)
        && a.resourceName == Some(resourceName) && a.entityName == Some(requesterName) && a.authIRI == None
      ensures metadata == old(metadata)
    {
      var auth := new ContextBasedAuthorization.Named(resourceName, resourceUri, [accessType], requesterName,
                                                      requesterType, requesterIdentifierUri, accessConditionsShapeUri);
      authorizations := authorizations + [auth];
    }

    /**
     * addAuthorizationMetadata: the type statement, then for each rule its
     * link and the model toModel gives for it, handed to addMetadata. An
     * artifact IRI that is not an IRI makes the first add throw; a rule that
     * cannot be described makes toModel throw; either way nothing is added.
     * freshId(i) stands for the blank-node id minted for the i-th rule.
     */
    method AddAuthorizationMetadata(freshId: nat -> string) returns (ok: bool, ghost ds: seq<Described>)
      modifies this, authorizations
      ensures authorizations == old(authorizations)
      ensures forall j :: 0 <= j < |authorizations| && old(authorizations[j].authIRI).Some? ==>
        authorizations[j].authIRI == old(authorizations[j].authIRI)
      ensures !ValidIri(ThingUri()) ==> !ok && unchanged(authorizations)
      ensures ok ==> DescribedAs(authorizations, ds) && metadata == old(metadata) + [Metadata(ThingUri(), authorizations, ds)]
      ensures !ok ==> metadata == old(metadata) && (!ValidIri(ThingUri()) || SomeUndescribable(authorizations))
    {
      var thing := ThingUri();
      ok, ds := false, [];
      if ValidIri(thing) {
        var mb;
        mb, ds := BuildMetadata(thing, authorizations, freshId);
        if mb.Some? {
          ok := true;
          metadata := metadata + [mb.value];
        }
      }
    }
  }
}
