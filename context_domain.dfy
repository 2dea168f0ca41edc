/**
 * A context domain: the group of entities that share a context, with the
 * in-memory store of memberIn statements that the membership rules derive,
 * the membership queries over that store, and the domain/group IRI transforms.
 */
module ContextDomains {
  import opened Wrappers
  import opened JavaLang
  import opened Rdf
  import Vocab
  import opened ContextStreams

  /** The path element that turns a domain IRI into its group IRI. */
  const GROUP_SUFFIX: string := "/group"

  /** getGroupFromDomain. */
  function GroupFromDomain(d: string): (g: string)
    ensures |g| == |d| + 6 && g[..|d|] == d && g[|d|..] == GROUP_SUFFIX
  {
    d + GROUP_SUFFIX
  }

  /** getDomainFromGroup: String.replace, which removes every "/group", not only a trailing one. */
  function DomainFromGroup(g: string): string
  {
    ReplaceAll(g, GROUP_SUFFIX, "")
  }

  /** Jena's Node.getURI(): only an IRI node has one; on any other node it throws. */
  function NodeUri(t: Term): Option<string>
  {
    if t.Iri? then Some(t.iri) else None
  }

  /** What the membership consumer does with one triple of a result graph. */
  datatype StepOutcome = Insert(st: Statement) | Skip | Stop

  /**
   * One triple: the predicate is turned into an IRI first, then, for memberIn
   * only, the subject and the object; any failure throws, which ends the
   * whole graph (the exception is caught outside the loop).
   */
  function Step(tr: Statement): (o: StepOutcome)
    ensures o.Insert? ==> o.st == tr && tr.pred == Vocab.MEMBER_IN
    ensures o.Skip? <==> ValidIri(tr.pred) && tr.pred != Vocab.MEMBER_IN
  {
    if !ValidIri(tr.pred) then Stop
    else if tr.pred != Vocab.MEMBER_IN then Skip
    else
      var s := NodeUri(tr.subj);
      if s.None? || !ValidIri(s.value) then Stop
      else
        var o := NodeUri(tr.obj);
        if o.None? || !ValidIri(o.value) then Stop
        else Insert(Statement(Iri(s.value), tr.pred, Iri(o.value)))
  }

  /** The store after consuming the triples of g in order, up to the first one that throws. */
  function Consume(store: seq<Statement>, g: Graph): seq<Statement>
    decreases |g|
  {
    if |g| == 0 then store
    else
      match Step(g[0])
      case Stop => store
      case Skip => Consume(store, g[1..])
      case Insert(st) => Consume(Add(store, st), g[1..])
  }

  /**
   * Consuming a graph only adds: the old store is kept as a prefix, no
   * statement is repeated, and every new statement is a memberIn triple of g.
   */
  lemma {:induction false} ConsumeGrows(store: seq<Statement>, g: Graph)
    requires NoDup(store)
    ensures var r := Consume(store, g);
      |store| <= |r| && r[..|store|] == store && NoDup(r)
      && forall i :: |store| <= i < |r| ==> r[i] in g && r[i].pred == Vocab.MEMBER_IN
    decreases |g|
  {
    if |g| > 0 {
      match Step(g[0])
      case Stop =>
      case Skip =>
        ConsumeGrows(store, g[1..]);
        GrowsFromTail(store, store, g, Consume(store, g[1..]));
      case Insert(st) =>
        var s' := Add(store, st);
        ConsumeGrows(s', g[1..]);
        GrowsFromTail(store, s', g, Consume(s', g[1..]));
    }
  }

  /**
   * One step of ConsumeGrows: when the step kept the store or added the head
   * memberIn triple g[0], what consuming the tail gives grows the same way.
   */
  lemma GrowsFromTail(store: seq<Statement>, s': seq<Statement>, g: Graph, r: seq<Statement>)
    requires |g| > 0 && (s' == store || (g[0].pred == Vocab.MEMBER_IN && s' == Add(store, g[0])))
    requires |s'| <= |r| && r[..|s'|] == s' && NoDup(r)
    requires forall i :: |s'| <= i < |r| ==> r[i] in g[1..] && r[i].pred == Vocab.MEMBER_IN
    ensures |store| <= |r| && r[..|store|] == store && NoDup(r)
    ensures forall i :: |store| <= i < |r| ==> r[i] in g && r[i].pred == Vocab.MEMBER_IN
  {
    assert |store| <= |s'| && s'[..|store|] == store;
    assert r[..|store|] == s'[..|store|];
    forall i | |store| <= i < |r| ensures r[i] in g && r[i].pred == Vocab.MEMBER_IN {
      if i < |s'| {
        assert r[i] == s'[i] == g[0];
      } else {
        assert r[i] in g[1..];
      }
    }
  }

  /** A graph without memberIn triples whose predicates are all IRIs leaves the store as it was. */
  lemma {:induction false} ConsumeIgnoresOthers(store: seq<Statement>, g: Graph)
    requires forall i :: 0 <= i < |g| ==> ValidIri(g[i].pred) && g[i].pred != Vocab.MEMBER_IN
    ensures Consume(store, g) == store
    decreases |g|
  {
    if |g| > 0 {
      assert Step(g[0]).Skip?;
      ConsumeIgnoresOthers(store, g[1..]);
    }
  }

  /** Consuming the same memberIn triple twice stores it once. */
  lemma ConsumeTwice(store: seq<Statement>, st: Statement)
    requires NoDup(store) && Step(st).Insert?
    ensures Consume(store, [st, st]) == Add(store, st)
    ensures NoDup(Consume(store, [st, st]))
  {
    assert [st, st][1..] == [st];
    assert [st][1..] == [];
    var once := Add(store, st);
    assert Consume(once, []) == once;
    assert Add(once, st) == once;
    assert Consume(once, [st]) == Consume(Add(once, st), []);
  }

  /** A triple that throws ends the graph: what came before it stays, what comes after is not read. */
  lemma {:induction false} ConsumeStopsAtFailure(store: seq<Statement>, a: Graph, tr: Statement, b: Graph)
    requires Step(tr).Stop?
    ensures Consume(store, a + [tr] + b) == Consume(store, a)
    decreases |a|
  {
    if |a| == 0 {
      assert a + [tr] + b == [tr] + b;
    } else {
      assert (a + [tr] + b)[1..] == a[1..] + [tr] + b;
      match Step(a[0])
      case Stop =>
      case Skip => ConsumeStopsAtFailure(store, a[1..], tr, b);
      case Insert(st) => ConsumeStopsAtFailure(Add(store, st), a[1..], tr, b);
    }
  }

  /**
   * An occurrence of "/group" at the front of d + "/group" would have to lie
   * in d: "/group" has no '/' after its first character, so no occurrence can
   * start inside d and end inside the suffix.
   */
  lemma NoOccurrenceAtFront(d: string)
    requires !Occurs(GROUP_SUFFIX, d) && |d| > 0
    ensures (d + GROUP_SUFFIX)[..6] != GROUP_SUFFIX
  {
    var s := d + GROUP_SUFFIX;
    if |d| >= 6 {
      assert s[..6] == d[0..6];
      assert !OccursAt(GROUP_SUFFIX, d, 0);
    } else {
      assert s[..6][|d|] == '/';
      assert GROUP_SUFFIX[|d|] != '/';
    }
  }

  /** The group IRI is accepted by createIRI exactly when the domain IRI is. */
  lemma GroupIriValid(d: string)
    ensures ValidIri(GroupFromDomain(d)) <==> ValidIri(d)
  {
    assert ':' !in GROUP_SUFFIX;
  }

  /** The group IRI of a domain without "/group" in it maps back to the domain. */
  lemma {:induction false} DomainOfGroup(d: string)
    requires !Occurs(GROUP_SUFFIX, d)
    ensures DomainFromGroup(GroupFromDomain(d)) == d
    decreases |d|
  {
    var s := d + GROUP_SUFFIX;
    if |d| == 0 {
      assert s[..6] == GROUP_SUFFIX;
      assert s[6..] == "";
    } else {
      NoOccurrenceAtFront(d);
      assert !Occurs(GROUP_SUFFIX, d[1..]) by {
        forall i | 0 <= i <= |d[1..]| ensures !OccursAt(GROUP_SUFFIX, d[1..], i) {
          if OccursAt(GROUP_SUFFIX, d[1..], i) {
            assert d[i + 1..i + 1 + 6] == d[1..][i..i + 6];
            assert OccursAt(GROUP_SUFFIX, d, i + 1);
          }
        }
      }
      DomainOfGroup(d[1..]);
      assert s[1..] == d[1..] + GROUP_SUFFIX;
      assert [d[0]] + d[1..] == d;
    }
  }

  /** Every "/group" goes, so a domain that has one does not come back from its group IRI. */
  lemma ReplacesEveryOccurrence()
    ensures GroupFromDomain("a:/group") == "a:/group/group"
    ensures DomainFromGroup("a:/group/group") == "a:"
  {
    var s := "a:/group/group";
    assert s[..6][0] == 'a' && GROUP_SUFFIX[0] == '/';
    assert s[1..] == ":/group/group";
    assert s[1..][..6][0] == ':';
    assert s[2..] == "/group/group";
    assert s[2..][..6] == GROUP_SUFFIX;
    assert s[2..][6..] == "/group";
    assert "/group"[..6] == GROUP_SUFFIX;
    assert "/group"[6..] == "";
    assert DomainFromGroup("/group") == "";
    assert DomainFromGroup("/group/group") == "";
    assert DomainFromGroup(":/group/group") == ":";
  }

  /** The membership store and queries of one context domain. */
  class ContextDomain {
    const contextDomainURI: string
    const engineConfigURL: string
    const membershipRuleQueryURLs: seq<string>
    /** Never assigned by the constructor, so always empty. */
    var contextStreams: seq<ContextStream>
    /** The keys of the query map: the membership queries registered with the engine. */
    var membershipRuleQueries: set<string>
    /** The memberIn statements of the membership repository. */
    var store: seq<Statement>

    /**
     * The constructor. The stream list argument is not stored. Engine
     * initialisation is outside the model: engineStarts says whether the
     * engine URL parsed and its configuration loaded, and then every
     * membership query is registered with the engine; otherwise the caught
     * exception (a URI syntax error, a malformed URL, a bad engine
     * configuration) is only logged and no query is registered. The
     * exceptions that escape the catch (a null or relative engine URL, a
     * query URL that is not a plain file URI) are checked by the caller
     * before it constructs (ContextMgmt's PutDomain), so this constructor is
     * only reached when none of them is thrown.
     */
    constructor (contextDomainURI: string, engineConfigURL: string, membershipRuleQueryURLs: seq<string>,
                 streams: seq<ContextStream>, engineStarts: bool)
      ensures this.contextDomainURI == contextDomainURI && this.engineConfigURL == engineConfigURL
      ensures this.membershipRuleQueryURLs == membershipRuleQueryURLs
      ensures contextStreams == [] && store == []
      ensures engineStarts ==> forall q :: q in membershipRuleQueries <==> q in membershipRuleQueryURLs
      ensures !engineStarts ==> membershipRuleQueries == {}
    {
      this.contextDomainURI := contextDomainURI;
      this.engineConfigURL := engineConfigURL;
      this.membershipRuleQueryURLs := membershipRuleQueryURLs;
      contextStreams := [];
      store := [];
      membershipRuleQueries := if engineStarts then set q | q in membershipRuleQueryURLs else {};
    }

    /** getContextDomainGroupURI. */
    function GetContextDomainGroupURI(): (g: string)
      ensures g == GroupFromDomain(contextDomainURI)
    {
      contextDomainURI + "/group"
    }

    /**
     * updateMembershipConsumer: the triples of g in order; memberIn triples
     * not yet stored are added; the first triple that throws ends the loop and
     * what was added before it stays.
     */
    method UpdateMembershipConsumer(g: Graph, t: Int64)
      modifies this
      ensures store == Consume(old(store), g)
      ensures contextStreams == old(contextStreams) && membershipRuleQueries == old(membershipRuleQueries)
    {
      var i := 0;
      while i < |g|
        invariant 0 <= i <= |g|
        invariant Consume(store, g[i..]) == Consume(old(store), g)
        invariant contextStreams == old(contextStreams) && membershipRuleQueries == old(membershipRuleQueries)
      {
        var tr := g[i];
        assert g[i..][0] == tr && g[i..][1..] == g[i + 1..];
        if !ValidIri(tr.pred) {
          return;
        }
        if tr.pred == Vocab.MEMBER_IN {
          var subj := NodeUri(tr.subj);
          if subj.None? || !ValidIri(subj.value) {
            return;
          }
          var obj := NodeUri(tr.obj);
          if obj.None? || !ValidIri(obj.value) {
            return;
          }
          var st := Statement(Iri(subj.value), tr.pred, Iri(obj.value));
          if st !in store {
            store := store + [st];
          }
        }
        i := i + 1;
      }
    }

    /**
     * verifyMembership: whether (a, memberIn, group IRI) is stored; false
     * where createIRI throws on a or on the group IRI.
     */
    function VerifyMembership(a: string): (b: bool)
      reads this
      ensures b <==> (ValidIri(a) && ValidIri(contextDomainURI)
        && Statement(Iri(a), Vocab.MEMBER_IN, Iri(GroupFromDomain(contextDomainURI))) in store)
    {
      var g := GetContextDomainGroupURI();
      GroupIriValid(contextDomainURI);
      ValidIri(a) && ValidIri(g) && Statement(Iri(a), Vocab.MEMBER_IN, Iri(g)) in store
    }

    /**
     * getMembershipStatements: every stored memberIn statement, for any group,
     * or, given a requester, those whose subject is that requester; empty
     * where createIRI throws on the requester.
     */
    function GetMembershipStatements(requester: Option<string>): (r: Option<seq<Statement>>)
      reads this
      ensures requester.Some? && !ValidIri(requester.value) <==> r.None?
      ensures r.Some? ==> forall st :: st in r.value <==>
        st in store && st.pred == Vocab.MEMBER_IN && (requester.Some? ==> st.subj == Iri(requester.value))
    {
      if requester.None? then Some(Filter(store, (st: Statement) => st.pred == Vocab.MEMBER_IN))
      else if !ValidIri(requester.value) then None
      else
        var a := Iri(requester.value);
        Some(Filter(store, (st: Statement) => st.subj == a && st.pred == Vocab.MEMBER_IN))
    }
  }

  /** What the membership store holds after the consumer has read a graph of memberIn triples. */
  lemma MemberAfterConsume(store: seq<Statement>, a: string, group: string)
    requires ValidIri(a) && ValidIri(group)
    ensures Statement(Iri(a), Vocab.MEMBER_IN, Iri(group))
      in Consume(store, [Statement(Iri(a), Vocab.MEMBER_IN, Iri(group))])
  {
    var st := Statement(Iri(a), Vocab.MEMBER_IN, Iri(group));
    assert Step(st) == Insert(st);
    assert [st][1..] == [];
  }
}
