/**
 * The example lamp artifact protected by a shared-context authorization: the
 * lamp's state machine, plus the rule registered when its operations are set
 * up, both in the artifact's own list and in the authorization registry.
 */
module AuthHueLamp {
  import opened Wrappers
  import opened AuthorizationAccessType
  import opened AuthorizedEntityType
  import opened Authorization
  import opened Registry
  import opened ContextAuthArtifacts
  import opened HueLamp
  import Vocab

  const EXAMPLE_PREFIX: string := "http://example.org/"

  /** The shared-context rule of the lamp: READ and WRITE for the requester, under the light308 access condition. */
  function SharedRule(artifactUri: string): Rule
  {
    Rule(artifactUri, [READ, WRITE], AGENT, Vocab.ACCESS_REQUESTER, EXAMPLE_PREFIX + "light308AccessCondition")
  }

  /** A registry holding a rule with the shared types for the artifact makes it read- and write-protected. */
  lemma SharedRuleProtects(m: map<string, Rules>, artifactUri: string, a: ContextBasedAuthorization)
    requires a.Fields() == SharedRule(artifactUri)
    ensures AnyGrants(RulesOf(AddTo(m, artifactUri, a), artifactUri), READ)
    ensures AnyGrants(RulesOf(AddTo(m, artifactUri, a), artifactUri), WRITE)
    ensures !AnyGrants([a], CONTROL)
  {
    var rs := RulesOf(AddTo(m, artifactUri, a), artifactUri);
    assert rs[|rs| - 1] == a;
    assert READ in a.accessTypes && WRITE in a.accessTypes;
  }

  class AuthHueLampTD {
    /** The context-authorized artifact this lamp is. */
    const base: ContextAuthArtifact
    /** The authorization registry (a singleton in Java). */
    const registry: AuthorizationRegistry
    /** The "state" observable property. */
    var state: string
    /** The "color" observable property. */
    var color: string

    /** init(): off and blue, with no rule yet. */
    constructor (artifactUri: string, registry: AuthorizationRegistry)
      ensures state == OFF && color == DEFAULT_COLOR
      ensures fresh(base) && base.artifactUri == artifactUri && base.authorizations == [] && base.metadata == []
      ensures this.registry == registry
    {
      base := new ContextAuthArtifact(artifactUri);
      this.registry := registry;
      state := OFF;
      color := DEFAULT_COLOR;
    }

    /** init(state, color): exactly the given values, with no rule yet. */
    constructor Init(artifactUri: string, registry: AuthorizationRegistry, state: string, color: string)
      ensures this.state == state && this.color == color
      ensures fresh(base) && base.artifactUri == artifactUri && base.authorizations == [] && base.metadata == []
      ensures this.registry == registry
    {
      base := new ContextAuthArtifact(artifactUri);
      this.registry := registry;
      this.state := state;
      this.color := color;
    }

    /** getStatus: the current state and colour; nothing changes. */
    method GetStatus() returns (s: string, c: string)
      ensures s == state && c == color
    {
      s, c := state, color;
    }

    /** toggle: the state flips; the colour stays. */
    method Toggle()
      modifies this
      ensures state == Toggled(old(state)) && color == old(color)
    {
      if state == ON {
        state := OFF;
      } else {
        state := ON;
      }
    }

    /** setColor: the colour is replaced; the state stays. */
    method SetColor(c: string)
      modifies this
      ensures color == c && state == old(state)
    {
      color := c;
    }

    /**
     * registerSharedContextAutorizations: one new rule object, READ and WRITE
     * for the requester, appended to the artifact's list and added to the
     * registry under the artifact IRI, which is then read- and write-protected.
     */
    method RegisterSharedContextAuthorizations() returns (a: ContextBasedAuthorization)
      modifies base, registry
      ensures fresh(a) && a.Fields() == SharedRule(base.artifactUri) && a.authIRI == None
      ensures base.authorizations == old(base.authorizations) + [a] && base.metadata == old(base.metadata)
      ensures registry.authMap == AddTo(old(registry.authMap), base.artifactUri, a)
      ensures old(registry.Valid()) ==> registry.Valid()
      ensures AnyGrants(RulesOf(registry.authMap, base.artifactUri), READ)
      ensures AnyGrants(RulesOf(registry.authMap, base.artifactUri), WRITE)
    {
      var uri := base.artifactUri;
      a := new ContextBasedAuthorization(uri, [READ, WRITE], AGENT, Vocab.ACCESS_REQUESTER,
                                         EXAMPLE_PREFIX + "light308AccessCondition");
      base.RegisterAuthorization(a);
      registry.AddContextAuthorisation(uri, a);
      SharedRuleProtects(old(registry.authMap), uri, a);
    }

    /**
     * setupOperations: the shared rule is registered first, then the
     * metadata is built from the artifact's list, which now ends with it.
     * The set-up of the underlying hypermedia artifact is not part of this
     * model.
     */
    method SetupOperations(freshId: nat -> string) returns (a: ContextBasedAuthorization, ok: bool, ghost ds: seq<Described>)
      modifies base, registry, base.authorizations
      ensures fresh(a) && a.Fields() == SharedRule(base.artifactUri)
      ensures base.authorizations == old(base.authorizations) + [a]
      ensures registry.authMap == AddTo(old(registry.authMap), base.artifactUri, a)
      ensures ok ==>
        (DescribedAs(base.authorizations, ds)
         && base.metadata == old(base.metadata) + [Metadata(base.ThingUri(), base.authorizations, ds)])
      ensures !ok ==> base.metadata == old(base.metadata)
    {
      a := RegisterSharedContextAuthorizations();
      ok, ds := base.AddAuthorizationMetadata(freshId);
    }
  }
}
