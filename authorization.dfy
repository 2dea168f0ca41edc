/**
 * A context-based access authorization: a protected resource, the access
 * modes granted, the kind and IRI of the entity granted them, and the SHACL
 * shape holding the context conditions; plus its RDF description (toModel)
 * and the parser that reads rules back out of a policy model (fromModel).
 */
module Authorization {
  import opened Wrappers
  import opened JavaLang
  import opened Rdf
  import Vocab
  import opened AuthorizationAccessType
  import opened AuthorizedEntityType

  /** The namespace of the IRIs minted for rule instances. */
  const INSTANCE_NAMESPACE: string := "http://example.org/context-auth-instances/"

  /** The fields of a rule that equality, hashing and the RDF description read. */
  datatype Rule = Rule(
    resourceURI: string,
    accessTypes: seq<AccessType>,
    entityType: EntityType,
    entityURI: string,
    shapeURI: string)

  /** equals: resource, access types as an ordered list, entity type and shape; not the entity IRI. */
  predicate SameRule(a: Rule, b: Rule)
  {
    a.resourceURI == b.resourceURI && a.accessTypes == b.accessTypes
      && a.entityType == b.entityType && a.shapeURI == b.shapeURI
  }

  /** equals is an equivalence relation. */
  lemma SameRuleEquivalence(a: Rule, b: Rule, c: Rule)
    ensures SameRule(a, a)
    ensures SameRule(a, b) ==> SameRule(b, a)
    ensures SameRule(a, b) && SameRule(b, c) ==> SameRule(a, c)
  {
  }

  /** Rules that differ only in the entity IRI are equal. */
  lemma SameRuleIgnoresEntity(a: Rule, iri: string)
    ensures SameRule(a, a.(entityURI := iri))
  {
  }

  // ------------------------------------------------------------------ hashCode

  /** List.hashCode over the access types, given the enum constants' identity hashes. */
  function ListHash(ts: seq<AccessType>, typeHash: AccessType -> Int32): Int32
  {
    if |ts| == 0 then 1
    else WrapInt32(31 * ListHash(ts[..|ts| - 1], typeHash) + typeHash(ts[|ts| - 1]))
  }

  /**
   * hashCode: 17, then 31 * h + field hash over the four compared fields, in
   * 32-bit arithmetic. Enum constants hash by identity, which the JVM chooses,
   * so those hashes are parameters.
   */
  function RuleHash(r: Rule, typeHash: AccessType -> Int32, entityHash: EntityType -> Int32): Int32
  {
    var h0 := 17;
    var h1 := WrapInt32(31 * h0 + StringHash(r.resourceURI));
    var h2 := WrapInt32(31 * h1 + ListHash(r.accessTypes, typeHash));
    var h3 := WrapInt32(31 * h2 + entityHash(r.entityType));
    WrapInt32(31 * h3 + StringHash(r.shapeURI))
  }

  /** Equal rules hash alike, whatever hashes the JVM gives the enum constants. */
  lemma SameRuleSameHash(a: Rule, b: Rule, typeHash: AccessType -> Int32, entityHash: EntityType -> Int32)
    requires SameRule(a, b)
    ensures RuleHash(a, typeHash, entityHash) == RuleHash(b, typeHash, entityHash)
  {
  }

  // ------------------------------------------------------------------ toModel

  function TypeStatement(iri: string): Statement
  {
    Statement(Iri(iri), Vocab.RDF_TYPE, Iri(Vocab.CONTEXT_BASED_AUTHORIZATION))
  }

  function ModeStatement(iri: string, t: AccessType): Statement
  {
    Statement(Iri(iri), Vocab.ACL_MODE, Iri(Uri(t)))
  }

  function ModeStatements(iri: string, ts: seq<AccessType>): (r: seq<Statement>)
    ensures |r| == |ts| && forall i :: 0 <= i < |ts| ==> r[i] == ModeStatement(iri, ts[i])
  {
    if |ts| == 0 then [] else ModeStatements(iri, ts[..|ts| - 1]) + [ModeStatement(iri, ts[|ts| - 1])]
  }

  /** The statements toModel adds, in the order it adds them (before the model drops repeats). */
  function Description(r: Rule, iri: string): seq<Statement>
  {
    [TypeStatement(iri), Statement(Iri(iri), Vocab.ACL_ACCESS_TO, Iri(r.resourceURI))]
      + ModeStatements(iri, r.accessTypes)
      + [Statement(Iri(iri), Property(r.entityType), Iri(r.entityURI)),
         Statement(Iri(iri), Vocab.HAS_ACCESS_CONDITION, Iri(r.shapeURI))]
  }

  /** The statements of a description, position by position. */
  lemma DescriptionAt(r: Rule, iri: string)
    ensures var d := Description(r, iri); var n := |r.accessTypes|;
      |d| == n + 4 && d[0] == TypeStatement(iri)
      && d[1] == Statement(Iri(iri), Vocab.ACL_ACCESS_TO, Iri(r.resourceURI))
      && (forall i :: 0 <= i < n ==> d[2 + i] == ModeStatement(iri, r.accessTypes[i]))
      && d[n + 2] == Statement(Iri(iri), Property(r.entityType), Iri(r.entityURI))
      && d[n + 3] == Statement(Iri(iri), Vocab.HAS_ACCESS_CONDITION, Iri(r.shapeURI))
  {
    var head := [TypeStatement(iri), Statement(Iri(iri), Vocab.ACL_ACCESS_TO, Iri(r.resourceURI))];
    var modes := ModeStatements(iri, r.accessTypes);
    var tail := [Statement(Iri(iri), Property(r.entityType), Iri(r.entityURI)),
                 Statement(Iri(iri), Vocab.HAS_ACCESS_CONDITION, Iri(r.shapeURI))];
    var d := Description(r, iri);
    assert d == head + modes + tail;
    var n := |r.accessTypes|;
    assert |modes| == n;
    forall i | 0 <= i < n ensures d[2 + i] == ModeStatement(iri, r.accessTypes[i]) {
      assert d[2 + i] == modes[i];
    }
    assert d[n + 2] == tail[0];
    assert d[n + 3] == tail[1];
  }

  /** Every IRI toModel creates is accepted by createIRI. */
  predicate Describable(r: Rule, iri: string)
  {
    ValidIri(iri) && ValidIri(r.resourceURI) && ValidIri(r.entityURI) && ValidIri(r.shapeURI)
  }

  /** The model toModel builds for instance IRI iri, or None where createIRI throws. */
  function Describe(r: Rule, iri: string): Option<Model>
  {
    if Describable(r, iri) then Some(ModelOf(Description(r, iri))) else None
  }

  /**
   * The description of a rule is about the one instance IRI and holds exactly:
   * its rdf:type, acl:accessTo the resource, one acl:mode per access type, the
   * entity-type property to the entity, and cashmere:hasAccessCondition the shape.
   */
  lemma DescribeContents(r: Rule, iri: string, st: Statement)
    requires Describable(r, iri)
    ensures NoDup(Describe(r, iri).value)
    ensures st in Describe(r, iri).value ==> st.subj == Iri(iri)
    ensures st in Describe(r, iri).value <==>
      st == TypeStatement(iri)
      || st == Statement(Iri(iri), Vocab.ACL_ACCESS_TO, Iri(r.resourceURI))
      || (exists t :: t in r.accessTypes && st == ModeStatement(iri, t))
      || st == Statement(Iri(iri), Property(r.entityType), Iri(r.entityURI))
      || st == Statement(Iri(iri), Vocab.HAS_ACCESS_CONDITION, Iri(r.shapeURI))
  {
    ModelOfIsAddAll(Description(r, iri));
    DescriptionMembers(r, iri, st);
  }

  /** The statements of a description, as a set: the five kinds, one acl:mode per access type. */
  lemma DescriptionMembers(r: Rule, iri: string, st: Statement)
    ensures st in Description(r, iri) <==>
      st == TypeStatement(iri)
      || st == Statement(Iri(iri), Vocab.ACL_ACCESS_TO, Iri(r.resourceURI))
      || (exists t :: t in r.accessTypes && st == ModeStatement(iri, t))
      || st == Statement(Iri(iri), Property(r.entityType), Iri(r.entityURI))
      || st == Statement(Iri(iri), Vocab.HAS_ACCESS_CONDITION, Iri(r.shapeURI))
  {
    var modes := ModeStatements(iri, r.accessTypes);
    var head := [TypeStatement(iri), Statement(Iri(iri), Vocab.ACL_ACCESS_TO, Iri(r.resourceURI))];
    var tail := [Statement(Iri(iri), Property(r.entityType), Iri(r.entityURI)),
                 Statement(Iri(iri), Vocab.HAS_ACCESS_CONDITION, Iri(r.shapeURI))];
    assert Description(r, iri) == head + modes + tail;
    assert st in head <==> st == head[0] || st == head[1];
    assert st in tail <==> st == tail[0] || st == tail[1];
    if st in modes {
      var i :| 0 <= i < |r.accessTypes| && modes[i] == st;
      assert r.accessTypes[i] in r.accessTypes;
    }
    if exists t :: t in r.accessTypes && st == ModeStatement(iri, t) {
      var t :| t in r.accessTypes && st == ModeStatement(iri, t);
      var i :| 0 <= i < |r.accessTypes| && r.accessTypes[i] == t;
      assert modes[i] == st;
    }
  }

  // ------------------------------------------------------------------ fromModel

  /** The access type an acl:mode object names, if any. */
  function ModeType(mode: Term): Option<AccessType>
  {
    FromUri(StringValue(mode))
  }

  /** The access types named by the acl:mode objects, or None where fromUri(...).get() throws. */
  function ModesToTypes(modes: seq<Term>): Option<seq<AccessType>>
  {
    MapAll(modes, ModeType)
  }

  /** One AGENT rule for the placeholder requester per access-condition shape. */
  function RulesFor(resource: string, types: seq<AccessType>, shapes: seq<Term>): (r: seq<Rule>)
    ensures |r| == |shapes|
    ensures forall i :: 0 <= i < |shapes| ==>
      r[i] == Rule(resource, types, AGENT, Vocab.ACCESS_REQUESTER, StringValue(shapes[i]))
  {
    if |shapes| == 0 then []
    else
      var last := Rule(resource, types, AGENT, Vocab.ACCESS_REQUESTER, StringValue(shapes[|shapes| - 1]));
      RulesFor(resource, types, shapes[..|shapes| - 1]) + [last]
  }

  /**
   * The rules read for one typed subject, or None where parsing it throws: no
   * acl:accessTo (next() on an empty iterator) or a mode IRI that is no access type.
   */
  function ParseSubject(m: Model, subj: Term): Option<seq<Rule>>
  {
    var access := FirstObject(m, subj, Vocab.ACL_ACCESS_TO);
    if access.None? then None
    else
      var types := ModesToTypes(Objects(m, subj, Vocab.ACL_MODE));
      if types.None? then None
      else Some(RulesFor(StringValue(access.value), types.value, Objects(m, subj, Vocab.HAS_ACCESS_CONDITION)))
  }

  /** The rules of the subjects in order; a subject that fails is skipped and the rest still count. */
  function ParseSubjects(m: Model, subjects: seq<Term>): seq<Rule>
  {
    if |subjects| == 0 then []
    else
      var last := ParseSubject(m, subjects[|subjects| - 1]);
      ParseSubjects(m, subjects[..|subjects| - 1]) + (if last.Some? then last.value else [])
  }

  /** Reading the acl:mode objects of a subject fails exactly when one of them names no access type. */
  lemma UnknownMode(m: Model, subj: Term)
    ensures ModesToTypes(Objects(m, subj, Vocab.ACL_MODE)).None? <==>
      exists o :: Statement(subj, Vocab.ACL_MODE, o) in m && ModeType(o).None?
  {
    var modes := Objects(m, subj, Vocab.ACL_MODE);
    if exists o :: Statement(subj, Vocab.ACL_MODE, o) in m && ModeType(o).None? {
      var o :| Statement(subj, Vocab.ACL_MODE, o) in m && ModeType(o).None?;
      var i :| 0 <= i < |modes| && modes[i] == o;
    }
    if ModesToTypes(modes).None? {
      var i :| 0 <= i < |modes| && ModeType(modes[i]).None?;
      assert modes[i] in modes;
    }
  }

  /**
   * Parsing a subject throws exactly when it has no acl:accessTo or one of its
   * acl:mode objects names no access type.
   */
  lemma ParseSubjectFails(m: Model, subj: Term)
    ensures ParseSubject(m, subj).None? <==>
      (forall o :: Statement(subj, Vocab.ACL_ACCESS_TO, o) !in m)
      || (exists o :: Statement(subj, Vocab.ACL_MODE, o) in m && ModeType(o).None?)
  {
    UnknownMode(m, subj);
  }

  /** A subject without access conditions yields no rule. */
  lemma NoConditionsNoRules(m: Model, subj: Term)
    requires forall o :: Statement(subj, Vocab.HAS_ACCESS_CONDITION, o) !in m
    ensures ParseSubject(m, subj).None? || ParseSubject(m, subj).value == []
  {
    var shapes := Objects(m, subj, Vocab.HAS_ACCESS_CONDITION);
    assert forall i :: 0 <= i < |shapes| ==> shapes[i] !in shapes;
  }

  /** Subjects are parsed independently: a failing subject does not stop the others. */
  lemma {:induction false} ParseSubjectsAppend(m: Model, a: seq<Term>, b: seq<Term>)
    ensures ParseSubjects(m, a + b) == ParseSubjects(m, a) + ParseSubjects(m, b)
    decreases |b|
  {
    if |b| == 0 {
      assert a + b == a;
    } else {
      var b' := b[..|b| - 1];
      assert (a + b)[..|a + b| - 1] == a + b';
      assert (a + b)[|a + b| - 1] == b[|b| - 1];
      ParseSubjectsAppend(m, a, b');
    }
  }

  /** The instances typed cashmere:ContextBasedAuthorization. */
  function AuthorizationSubjects(m: Model): seq<Term>
  {
    Subjects(m, Vocab.RDF_TYPE, Iri(Vocab.CONTEXT_BASED_AUTHORIZATION))
  }

  /** What fromModel returns, as rule values. */
  function FromModelRules(m: Model): seq<Rule>
  {
    ParseSubjects(m, AuthorizationSubjects(m))
  }

  /**
   * A rule is read from a model exactly when some typed subject has an
   * acl:accessTo (the first one gives the resource), only known acl:mode IRIs
   * (they give the types), and the rule's shape among its hasAccessCondition
   * objects; the rule is always for AGENT and the placeholder requester.
   */
  lemma {:induction false} ParseSubjectsMembers(m: Model, subjects: seq<Term>, r: Rule)
    ensures r in ParseSubjects(m, subjects) <==>
      exists i :: 0 <= i < |subjects| && ReadsRule(m, subjects[i], r)
  {
    if |subjects| > 0 {
      var init := subjects[..|subjects| - 1];
      var s := subjects[|subjects| - 1];
      ParseSubjectsMembers(m, init, r);
      ParseSubjectMembers(m, s, r);
      ExistsSnoc(subjects, init, s => ReadsRule(m, s, r));
    }
  }

  /** The subject subj yields rule r. */
  ghost predicate ReadsRule(m: Model, subj: Term, r: Rule)
  {
    var access := FirstObject(m, subj, Vocab.ACL_ACCESS_TO);
    var types := ModesToTypes(Objects(m, subj, Vocab.ACL_MODE));
    access.Some? && types.Some?
      && r == Rule(StringValue(access.value), types.value, AGENT, Vocab.ACCESS_REQUESTER, r.shapeURI)
      && exists o :: Statement(subj, Vocab.HAS_ACCESS_CONDITION, o) in m && StringValue(o) == r.shapeURI
  }

  lemma ParseSubjectMembers(m: Model, subj: Term, r: Rule)
    ensures (ParseSubject(m, subj).Some? && r in ParseSubject(m, subj).value) <==> ReadsRule(m, subj, r)
  {
    var p := ParseSubject(m, subj);
    if p.Some? && r in p.value {
      var shapes := Objects(m, subj, Vocab.HAS_ACCESS_CONDITION);
      var i :| 0 <= i < |p.value| && p.value[i] == r;
      assert shapes[i] in shapes;
    }
    if ReadsRule(m, subj, r) {
      var shapes := Objects(m, subj, Vocab.HAS_ACCESS_CONDITION);
      var o :| Statement(subj, Vocab.HAS_ACCESS_CONDITION, o) in m && StringValue(o) == r.shapeURI;
      var i :| 0 <= i < |shapes| && shapes[i] == o;
      assert p.value[i] == r;
    }
  }

  /** Every rule fromModel yields is for AGENT and the placeholder requester, and comes from a typed subject. */
  lemma FromModelMembers(m: Model, r: Rule)
    ensures r in FromModelRules(m) <==>
      exists s :: Statement(s, Vocab.RDF_TYPE, Iri(Vocab.CONTEXT_BASED_AUTHORIZATION)) in m && ReadsRule(m, s, r)
    ensures r in FromModelRules(m) ==> r.entityType == AGENT && r.entityURI == Vocab.ACCESS_REQUESTER
  {
    var subjects := AuthorizationSubjects(m);
    var typed := Iri(Vocab.CONTEXT_BASED_AUTHORIZATION);
    ParseSubjectsMembers(m, subjects, r);
    ExistsIndex(subjects, s => ReadsRule(m, s, r));
    assert forall s :: s in subjects <==> Statement(s, Vocab.RDF_TYPE, typed) in m;
  }

  // ------------------------------------------------------------------ round trip

  /** The predicates of a description are pairwise distinct IRIs. */
  lemma PredicatesDistinct(t: EntityType)
    ensures Property(t) != Vocab.RDF_TYPE && Property(t) != Vocab.ACL_ACCESS_TO
    ensures Property(t) != Vocab.ACL_MODE && Property(t) != Vocab.HAS_ACCESS_CONDITION
    ensures Vocab.RDF_TYPE != Vocab.ACL_ACCESS_TO && Vocab.RDF_TYPE != Vocab.ACL_MODE
    ensures Vocab.RDF_TYPE != Vocab.HAS_ACCESS_CONDITION && Vocab.ACL_ACCESS_TO != Vocab.ACL_MODE
    ensures Vocab.ACL_ACCESS_TO != Vocab.HAS_ACCESS_CONDITION && Vocab.ACL_MODE != Vocab.HAS_ACCESS_CONDITION
  {
    var n := |Vocab.ACL_NS|;
    assert Property(t)[n] == 'a' && Property(t)[n + 1] == 'g';
    assert Vocab.ACL_ACCESS_TO[n] == 'a' && Vocab.ACL_ACCESS_TO[n + 1] == 'c';
    assert Vocab.ACL_MODE[n] == 'm';
    assert Vocab.RDF_TYPE[18] == '1' && Vocab.ACL_NS[18] == 'n';
    assert Vocab.HAS_ACCESS_CONDITION[4] == 's' && Vocab.ACL_NS[4] == ':' && Vocab.RDF_TYPE[4] == ':';
  }

  /** The acl:mode IRIs of the access types, as terms. */
  function UriTerms(ts: seq<AccessType>): (r: seq<Term>)
    ensures |r| == |ts| && forall i :: 0 <= i < |ts| ==> r[i] == Iri(Uri(ts[i]))
  {
    if |ts| == 0 then [] else UriTerms(ts[..|ts| - 1]) + [Iri(Uri(ts[|ts| - 1]))]
  }

  lemma {:induction false} ModeObjects(iri: string, ts: seq<AccessType>, p: string)
    ensures ObjectsOf(ModeStatements(iri, ts), Iri(iri), p) == if p == Vocab.ACL_MODE then UriTerms(ts) else []
    decreases |ts|
  {
    if |ts| > 0 {
      ModeObjects(iri, ts[..|ts| - 1], p);
      ObjectsOfAppend(ModeStatements(iri, ts[..|ts| - 1]), [ModeStatement(iri, ts[|ts| - 1])], Iri(iri), p);
    }
  }

  lemma {:induction false} ModeSubjects(iri: string, ts: seq<AccessType>, o: Term)
    ensures SubjectsOf(ModeStatements(iri, ts), Vocab.RDF_TYPE, o) == []
    decreases |ts|
  {
    if |ts| > 0 {
      PredicatesDistinct(AGENT);
      ModeSubjects(iri, ts[..|ts| - 1], o);
      SubjectsOfAppend(ModeStatements(iri, ts[..|ts| - 1]), [ModeStatement(iri, ts[|ts| - 1])], Vocab.RDF_TYPE, o);
    }
  }

  /** The objects a description gives the instance under each predicate, in order. */
  lemma DescriptionObjects(r: Rule, iri: string, p: string)
    ensures ObjectsOf(Description(r, iri), Iri(iri), p)
      == (if p == Vocab.RDF_TYPE then [Iri(Vocab.CONTEXT_BASED_AUTHORIZATION)] else [])
       + (if p == Vocab.ACL_ACCESS_TO then [Iri(r.resourceURI)] else [])
       + (if p == Vocab.ACL_MODE then UriTerms(r.accessTypes) else [])
       + (if p == Property(r.entityType) then [Iri(r.entityURI)] else [])
       + (if p == Vocab.HAS_ACCESS_CONDITION then [Iri(r.shapeURI)] else [])
  {
    var s := Iri(iri);
    var head := [TypeStatement(iri), Statement(s, Vocab.ACL_ACCESS_TO, Iri(r.resourceURI))];
    var modes := ModeStatements(iri, r.accessTypes);
    var tail := [Statement(s, Property(r.entityType), Iri(r.entityURI)),
                 Statement(s, Vocab.HAS_ACCESS_CONDITION, Iri(r.shapeURI))];
    assert Description(r, iri) == head + modes + tail;
    ObjectsOfAppend(head + modes, tail, s, p);
    ObjectsOfAppend(head, modes, s, p);
    ModeObjects(iri, r.accessTypes, p);
    HeadObjects(r, iri, p);
    TailObjects(r, iri, p);
    PredicatesDistinct(r.entityType);
  }

  /** The objects of the type and resource statements of a description. */
  lemma HeadObjects(r: Rule, iri: string, p: string)
    ensures ObjectsOf([TypeStatement(iri), Statement(Iri(iri), Vocab.ACL_ACCESS_TO, Iri(r.resourceURI))], Iri(iri), p)
      == (if p == Vocab.RDF_TYPE then [Iri(Vocab.CONTEXT_BASED_AUTHORIZATION)] else [])
       + (if p == Vocab.ACL_ACCESS_TO then [Iri(r.resourceURI)] else [])
  {
    ObjectsOfTwo(TypeStatement(iri), Statement(Iri(iri), Vocab.ACL_ACCESS_TO, Iri(r.resourceURI)), Iri(iri), p);
  }

  /** The objects of the entity and shape statements of a description. */
  lemma TailObjects(r: Rule, iri: string, p: string)
    ensures ObjectsOf([Statement(Iri(iri), Property(r.entityType), Iri(r.entityURI)),
                       Statement(Iri(iri), Vocab.HAS_ACCESS_CONDITION, Iri(r.shapeURI))], Iri(iri), p)
      == (if p == Property(r.entityType) then [Iri(r.entityURI)] else [])
       + (if p == Vocab.HAS_ACCESS_CONDITION then [Iri(r.shapeURI)] else [])
  {
    ObjectsOfTwo(Statement(Iri(iri), Property(r.entityType), Iri(r.entityURI)),
                 Statement(Iri(iri), Vocab.HAS_ACCESS_CONDITION, Iri(r.shapeURI)), Iri(iri), p);
  }

  /** The only instance a description types as a rule is its own. */
  lemma DescriptionSubjects(r: Rule, iri: string)
    ensures SubjectsOf(Description(r, iri), Vocab.RDF_TYPE, Iri(Vocab.CONTEXT_BASED_AUTHORIZATION)) == [Iri(iri)]
  {
    var s := Iri(iri);
    var o := Iri(Vocab.CONTEXT_BASED_AUTHORIZATION);
    var head := [TypeStatement(iri), Statement(s, Vocab.ACL_ACCESS_TO, Iri(r.resourceURI))];
    var modes := ModeStatements(iri, r.accessTypes);
    var tail := [Statement(s, Property(r.entityType), Iri(r.entityURI)),
                 Statement(s, Vocab.HAS_ACCESS_CONDITION, Iri(r.shapeURI))];
    assert Description(r, iri) == head + modes + tail;
    PredicatesDistinct(r.entityType);
    SubjectsOfAppend(head + modes, tail, Vocab.RDF_TYPE, o);
    SubjectsOfAppend(head, modes, Vocab.RDF_TYPE, o);
    ModeSubjects(iri, r.accessTypes, o);
    SubjectsOfTwo(head[0], head[1], Vocab.RDF_TYPE, o);
    SubjectsOfTwo(tail[0], tail[1], Vocab.RDF_TYPE, o);
    assert [s] + [] == [s];
  }

  /** Reading the acl:mode IRIs of some access types gives those access types back. */
  lemma ModesOfUriTerms(ts: seq<AccessType>)
    ensures ModesToTypes(UriTerms(ts)) == Some(ts)
  {
    var u := UriTerms(ts);
    forall i | 0 <= i < |ts| ensures ModeType(u[i]) == Some(ts[i]) {
      FromUriOfUri(ts[i]);
    }
    var r := ModesToTypes(u);
    assert r.Some?;
    assert r.value == ts;
  }

  lemma UriTermsNoDup(ts: seq<AccessType>)
    requires NoDup(ts)
    ensures NoDup(UriTerms(ts))
  {
    forall i, j | 0 <= i < j < |ts| ensures UriTerms(ts)[i] != UriTerms(ts)[j] {
      UriInjective(ts[i], ts[j]);
    }
  }

  lemma DescriptionNoDup(r: Rule, iri: string)
    requires NoDup(r.accessTypes)
    ensures NoDup(Description(r, iri))
  {
    var d := Description(r, iri);
    var n := |r.accessTypes|;
    DescriptionAt(r, iri);
    forall i, j | 0 <= i < j < |d| ensures d[i] != d[j] {
      if 2 <= i < j < 2 + n {
        UriInjective(r.accessTypes[i - 2], r.accessTypes[j - 2]);
        assert d[i].obj != d[j].obj;
      } else {
        PredicateAt(r, iri, i);
        PredicateAt(r, iri, j);
        SlotPredicatesDistinct(r.entityType, Slot(n, i), Slot(n, j));
      }
    }
  }

  /** The part of a description position k lies in: type, resource, a mode, entity, shape. */
  function Slot(n: nat, k: nat): nat
  {
    if k < 2 then k else if k < n + 2 then 2 else k - n + 1
  }

  /** The predicate of the statements of each part. */
  function SlotPredicate(t: EntityType, slot: nat): string
  {
    if slot == 0 then Vocab.RDF_TYPE
    else if slot == 1 then Vocab.ACL_ACCESS_TO
    else if slot == 2 then Vocab.ACL_MODE
    else if slot == 3 then Property(t)
    else Vocab.HAS_ACCESS_CONDITION
  }

  lemma PredicateAt(r: Rule, iri: string, k: nat)
    requires k < |Description(r, iri)|
    ensures Slot(|r.accessTypes|, k) < 5
    ensures Description(r, iri)[k].pred == SlotPredicate(r.entityType, Slot(|r.accessTypes|, k))
  {
    DescriptionAt(r, iri);
  }

  lemma SlotPredicatesDistinct(t: EntityType, a: nat, b: nat)
    requires a < 5 && b < 5 && a != b
    ensures SlotPredicate(t, a) != SlotPredicate(t, b)
  {
    PredicatesDistinct(t);
  }

  /** The description of a rule with distinct access types is the model toModel builds, unchanged. */
  lemma DescribeIsDescription(r: Rule, iri: string)
    requires Describable(r, iri) && NoDup(r.accessTypes)
    ensures Describe(r, iri).value == Description(r, iri)
  {
    DescriptionNoDup(r, iri);
    ModelOfIsAddAll(Description(r, iri));
    AddAllFresh([], Description(r, iri));
    assert [] + Description(r, iri) == Description(r, iri);
  }

  lemma DescribedAccess(r: Rule, iri: string)
    ensures FirstObject(Description(r, iri), Iri(iri), Vocab.ACL_ACCESS_TO) == Some(Iri(r.resourceURI))
  {
    PredicatesDistinct(r.entityType);
    DescriptionObjects(r, iri, Vocab.ACL_ACCESS_TO);
    assert ObjectsOf(Description(r, iri), Iri(iri), Vocab.ACL_ACCESS_TO) == [Iri(r.resourceURI)];
  }

  lemma DescribedModeObjects(r: Rule, iri: string)
    ensures ObjectsOf(Description(r, iri), Iri(iri), Vocab.ACL_MODE) == UriTerms(r.accessTypes)
  {
    PredicatesDistinct(r.entityType);
    DescriptionObjects(r, iri, Vocab.ACL_MODE);
    var u := UriTerms(r.accessTypes);
    var e: seq<Term> := [];
    assert e + e + u + e + e == u;
  }

  lemma DescribedModes(r: Rule, iri: string)
    requires NoDup(r.accessTypes)
    ensures Objects(Description(r, iri), Iri(iri), Vocab.ACL_MODE) == UriTerms(r.accessTypes)
  {
    DescribedModeObjects(r, iri);
    UriTermsNoDup(r.accessTypes);
    DistinctOfDistinct(UriTerms(r.accessTypes));
  }

  lemma DescribedShapes(r: Rule, iri: string)
    ensures Objects(Description(r, iri), Iri(iri), Vocab.HAS_ACCESS_CONDITION) == [Iri(r.shapeURI)]
  {
    PredicatesDistinct(r.entityType);
    DescriptionObjects(r, iri, Vocab.HAS_ACCESS_CONDITION);
    assert ObjectsOf(Description(r, iri), Iri(iri), Vocab.HAS_ACCESS_CONDITION) == [Iri(r.shapeURI)];
    DistinctOfDistinct([Iri(r.shapeURI)]);
  }

  /** The instance of a description parses to one AGENT rule. */
  lemma ParseDescription(r: Rule, iri: string)
    requires NoDup(r.accessTypes)
    ensures ParseSubject(Description(r, iri), Iri(iri))
      == Some([Rule(r.resourceURI, r.accessTypes, AGENT, Vocab.ACCESS_REQUESTER, r.shapeURI)])
  {
    var m := Description(r, iri);
    var s := Iri(iri);
    DescribedAccess(r, iri);
    DescribedModes(r, iri);
    ModesOfUriTerms(r.accessTypes);
    DescribedShapes(r, iri);
    var rule := Rule(r.resourceURI, r.accessTypes, AGENT, Vocab.ACCESS_REQUESTER, r.shapeURI);
    var rs := RulesFor(r.resourceURI, r.accessTypes, [Iri(r.shapeURI)]);
    assert rs == [rule];
    assert ParseSubject(m, s) == Some(rs);
  }

  /**
   * Reading back the description of a rule whose access types are distinct
   * gives exactly one rule, with the rule's resource, access types and shape,
   * for AGENT and the placeholder requester; when the rule is itself an AGENT
   * rule the two are equal.
   */
  lemma FromModelOfDescribe(r: Rule, iri: string)
    requires Describable(r, iri) && NoDup(r.accessTypes)
    ensures FromModelRules(Describe(r, iri).value)
      == [Rule(r.resourceURI, r.accessTypes, AGENT, Vocab.ACCESS_REQUESTER, r.shapeURI)]
    ensures r.entityType == AGENT ==> SameRule(FromModelRules(Describe(r, iri).value)[0], r)
  {
    DescribeIsDescription(r, iri);
    var m := Description(r, iri);
    var s := Iri(iri);
    DescriptionSubjects(r, iri);
    assert DistinctAfter([], [s]) == [s];
    assert AuthorizationSubjects(m) == [s];
    ParseDescription(r, iri);
    assert ParseSubjects(m, [s]) == ParseSubjects(m, []) + ParseSubject(m, s).value;
  }

  /**
   * The ModelBuilder calls of toModel, one add per statement: the type, the
   * resource, each access mode in list order, the entity and the shape.
   */
  method BuildDescription(rule: Rule, iri: string) returns (m: Model)
    ensures m == AddAll([], Description(rule, iri))
  {
    ghost var d := Description(rule, iri);
    DescriptionAt(rule, iri);
    m := [];
    AddAllPrefix(d, 0);
    m := Add(m, TypeStatement(iri));
    AddAllPrefix(d, 1);
    m := Add(m, Statement(Iri(iri), Vocab.ACL_ACCESS_TO, Iri(rule.resourceURI)));
    m := AddModes(rule, iri, m);
    var n := |rule.accessTypes|;
    AddAllPrefix(d, n + 2);
    m := Add(m, Statement(Iri(iri), Property(rule.entityType), Iri(rule.entityURI)));
    AddAllPrefix(d, n + 3);
    m := Add(m, Statement(Iri(iri), Vocab.HAS_ACCESS_CONDITION, Iri(rule.shapeURI)));
    assert d[..n + 4] == d;
  }

  /** The loop of toModel over the access types: one acl:mode statement each, in list order. */
  method AddModes(rule: Rule, iri: string, m0: Model) returns (m: Model)
    requires m0 == AddAll([], Description(rule, iri)[..2])
    ensures m == AddAll([], Description(rule, iri)[..2 + |rule.accessTypes|])
  {
    ghost var d := Description(rule, iri);
    DescriptionAt(rule, iri);
    m := m0;
    for i := 0 to |rule.accessTypes|
      invariant m == AddAll([], d[..2 + i])
    {
      AddAllPrefix(d, 2 + i);
      m := Add(m, ModeStatement(iri, rule.accessTypes[i]));
    }
  }

  // ------------------------------------------------------------------ the object

  /** A rule object: the record fields never change; the instance IRI is minted on first use. */
  class ContextBasedAuthorization {
    const resourceName: Option<string>
    const resourceURI: string
    const accessTypes: seq<AccessType>
    const authorizedEntityType: EntityType
    const authorizedEntityURI: string
    const entityName: Option<string>
    const accessConditionsShapeURI: string
    /** The IRI of this instance, null until toModel first runs. */
    var authIRI: Option<string>

    /** The record fields as a value. */
    function Fields(): Rule
    {
      Rule(resourceURI, accessTypes, authorizedEntityType, authorizedEntityURI, accessConditionsShapeURI)
    }

    /** The five-argument constructor: no resource or entity names. */
    constructor (resourceURI: string, accessTypes: seq<AccessType>, authorizedEntityType: EntityType,
                 authorizedEntityURI: string, accessConditionsShapeURI: string)
      ensures Fields() == Rule(resourceURI, accessTypes, authorizedEntityType, authorizedEntityURI, accessConditionsShapeURI)
      ensures resourceName == None && entityName == None && authIRI == None
    {
      this.resourceName := None;
      this.resourceURI := resourceURI;
      this.accessTypes := accessTypes;
      this.authorizedEntityType := authorizedEntityType;
      this.authorizedEntityURI := authorizedEntityURI;
      this.entityName := None;
      this.accessConditionsShapeURI := accessConditionsShapeURI;
      this.authIRI := None;
    }

    /** The seven-argument constructor: both names present. */
    constructor Named(resourceName: string, resourceURI: string, accessTypes: seq<AccessType>,
                      entityName: string, authorizedEntityType: EntityType, authorizedEntityURI: string,
                      accessConditionsShapeURI: string)
      ensures Fields() == Rule(resourceURI, accessTypes, authorizedEntityType, authorizedEntityURI, accessConditionsShapeURI)
      ensures this.resourceName == Some(resourceName) && this.entityName == Some(entityName) && authIRI == None
    {
      this.resourceName := Some(resourceName);
      this.resourceURI := resourceURI;
      this.accessTypes := accessTypes;
      this.authorizedEntityType := authorizedEntityType;
      this.authorizedEntityURI := authorizedEntityURI;
      this.entityName := Some(entityName);
      this.accessConditionsShapeURI := accessConditionsShapeURI;
      this.authIRI := None;
    }

    /** hasAccessType: false for null, otherwise List.contains. */
    function HasAccessType(t: Option<AccessType>): (r: bool)
      ensures r <==> t.Some? && t.value in accessTypes
    {
      t.Some? && IndexOf(accessTypes, t.value) >= 0
    }

    /** equals. */
    predicate Equals(other: ContextBasedAuthorization)
    {
      SameRule(Fields(), other.Fields())
    }

    /**
     * toModel: mints the instance IRI from a fresh blank-node id the first
     * time and keeps it afterwards (even when building the model then fails),
     * and returns the instance IRI with its description.
     */
    method ToModel(freshId: string) returns (r: Option<(string, Model)>)
      modifies this
      ensures old(authIRI).Some? ==> authIRI == old(authIRI)
      ensures old(authIRI).None? ==> authIRI == Some(INSTANCE_NAMESPACE + "node-" + freshId)
      ensures authIRI.Some?
      ensures var d := Describe(Fields(), authIRI.value);
        r == if d.Some? then Some((authIRI.value, d.value)) else None
    {
      if authIRI.None? {
        authIRI := Some(INSTANCE_NAMESPACE + "node-" + freshId);
      }
      var iri := authIRI.value;
      if !Describable(Fields(), iri) {
        return None;
      }
      var m := BuildDescription(Fields(), iri);
      ModelOfIsAddAll(Description(Fields(), iri));
      return Some((iri, m));
    }
  }

  /** What toModel gave for one rule object: its instance IRI and its description. */
  datatype Described = Described(iri: string, model: Model)

  /** Each rule object has its instance IRI, and ds holds in order that IRI and the model toModel builds for it. */
  predicate DescribedAs(rs: seq<ContextBasedAuthorization>, ds: seq<Described>)
    reads rs
  {
    |ds| == |rs| && forall i :: 0 <= i < |rs| ==> DescribedOne(rs[i], ds[i])
  }

  /** The rule object has the instance IRI of d, and d's model is the one toModel builds for it. */
  predicate DescribedOne(a: ContextBasedAuthorization, d: Described)
    reads a
  {
    a.authIRI == Some(d.iri) && Describe(a.Fields(), d.iri) == Some(d.model)
  }

  /** Some rule object has an instance IRI but cannot be described. */
  predicate SomeUndescribable(rs: seq<ContextBasedAuthorization>)
    reads rs
  {
    exists i :: 0 <= i < |rs| && rs[i].authIRI.Some? && !Describable(rs[i].Fields(), rs[i].authIRI.value)
  }

  /** One more described object. */
  lemma DescribedAsSnoc(rs: seq<ContextBasedAuthorization>, ds: seq<Described>, i: nat, d: Described)
    requires i < |rs| && DescribedAs(rs[..i], ds)
    requires rs[i].authIRI == Some(d.iri) && Describe(rs[i].Fields(), d.iri) == Some(d.model)
    ensures DescribedAs(rs[..i + 1], ds + [d])
  {
    assert forall j :: 0 <= j < i ==> rs[..i + 1][j] == rs[..i][j];
  }

  /**
   * toModel on the i-th of a list of rule objects, extending what the ones
   * before it gave; None when it cannot be described (toModel throws).
   */
  method DescribeNext(rs: seq<ContextBasedAuthorization>, i: nat, ghost ds: seq<Described>, freshId: string)
    returns (d: Option<Described>)
    requires i < |rs| && DescribedAs(rs[..i], ds)
    modifies rs[i]
    ensures old(rs[i].authIRI).Some? ==> rs[i].authIRI == old(rs[i].authIRI)
    ensures d.Some? ==> DescribedAs(rs[..i + 1], ds + [d.value])
    ensures d.None? ==> SomeUndescribable(rs)
  {
    label before:
    var r := rs[i].ToModel(freshId);
    forall j | 0 <= j < i
      ensures DescribedOne(rs[..i][j], ds[j])
    {
      assert rs[..i][j] == rs[j];
      assert old@before(DescribedOne(rs[j], ds[j]));
      if rs[j] == rs[i] {
        assert old@before(rs[i].authIRI).Some?;
      }
    }
    if r.None? {
      assert !Describable(rs[i].Fields(), rs[i].authIRI.value);
      return None;
    }
    d := Some(Described(r.value.0, r.value.1));
    DescribedAsSnoc(rs, ds, i, d.value);
  }

  /** Index of the first element equal (by equals) to a, or -1. */
  function FirstEqual(xs: seq<ContextBasedAuthorization>, a: ContextBasedAuthorization): (r: int)
    ensures -1 <= r < |xs|
    ensures r == -1 <==> forall i :: 0 <= i < |xs| ==> !a.Equals(xs[i])
    ensures r >= 0 ==> a.Equals(xs[r]) && forall i :: 0 <= i < r ==> !a.Equals(xs[i])
  {
    if |xs| == 0 then -1
    else if a.Equals(xs[0]) then 0
    else
      var r := FirstEqual(xs[1..], a);
      if r == -1 then -1
      else
        assert forall i :: 1 <= i < r + 1 ==> xs[i] == xs[1..][i - 1];
        r + 1
  }

  /** List.remove(Object): drops the first element equal to a, if any. */
  function RemoveFirstEqual(xs: seq<ContextBasedAuthorization>, a: ContextBasedAuthorization): (r: seq<ContextBasedAuthorization>)
    ensures var k := FirstEqual(xs, a);
      if k == -1 then r == xs else r == xs[..k] + xs[k + 1..]
  {
    var k := FirstEqual(xs, a);
    if k == -1 then xs else xs[..k] + xs[k + 1..]
  }

  /** The rule values of a list of rule objects. */
  function FieldsOf(xs: seq<ContextBasedAuthorization>): (r: seq<Rule>)
    ensures |r| == |xs| && forall i :: 0 <= i < |xs| ==> r[i] == xs[i].Fields()
  {
    if |xs| == 0 then [] else FieldsOf(xs[..|xs| - 1]) + [xs[|xs| - 1].Fields()]
  }

  lemma {:induction false} FieldsOfAppend(a: seq<ContextBasedAuthorization>, b: seq<ContextBasedAuthorization>)
    ensures FieldsOf(a + b) == FieldsOf(a) + FieldsOf(b)
  {
    var l := FieldsOf(a + b);
    var r := FieldsOf(a) + FieldsOf(b);
    assert |l| == |r|;
    forall i | 0 <= i < |l| ensures l[i] == r[i] {
      if i < |a| {
        assert (a + b)[i] == a[i];
      } else {
        assert (a + b)[i] == b[i - |a|];
      }
    }
  }

  lemma ParseSubjectsPrefix(m: Model, subjects: seq<Term>, k: nat)
    requires k < |subjects|
    ensures var p := ParseSubject(m, subjects[k]);
      ParseSubjects(m, subjects[..k + 1]) == ParseSubjects(m, subjects[..k]) + (if p.Some? then p.value else [])
  {
    assert subjects[..k + 1][..k] == subjects[..k];
  }

  /** The inner loop of fromModel: a new AGENT rule object per access-condition shape, in order. */
  method NewRules(resource: string, types: seq<AccessType>, shapes: seq<Term>)
    returns (auths: seq<ContextBasedAuthorization>)
    ensures FieldsOf(auths) == RulesFor(resource, types, shapes)
    ensures forall i :: 0 <= i < |auths| ==> (fresh(auths[i])
      && auths[i].resourceName == None && auths[i].entityName == None && auths[i].authIRI == None)
  {
    auths := [];
    for j := 0 to |shapes|
      invariant FieldsOf(auths) == RulesFor(resource, types, shapes[..j])
      invariant forall i :: 0 <= i < |auths| ==> (fresh(auths[i])
        && auths[i].resourceName == None && auths[i].entityName == None && auths[i].authIRI == None)
    {
      assert shapes[..j + 1][..j] == shapes[..j];
      var a := new ContextBasedAuthorization(resource, types, AGENT, Vocab.ACCESS_REQUESTER, StringValue(shapes[j]));
      assert (auths + [a])[..|auths|] == auths;
      auths := auths + [a];
    }
    assert shapes[..|shapes|] == shapes;
  }

  /** The body of fromModel's loop for one typed subject: its rule objects, none where parsing it throws. */
  method SubjectRules(m: Model, subj: Term) returns (more: seq<ContextBasedAuthorization>)
    ensures var p := ParseSubject(m, subj); FieldsOf(more) == if p.Some? then p.value else []
    ensures forall i :: 0 <= i < |more| ==> (fresh(more[i])
      && more[i].resourceName == None && more[i].entityName == None && more[i].authIRI == None)
  {
    more := [];
    var access := FirstObject(m, subj, Vocab.ACL_ACCESS_TO);
    if access.Some? {
      var types := ModesToTypes(Objects(m, subj, Vocab.ACL_MODE));
      if types.Some? {
        var shapes := Objects(m, subj, Vocab.HAS_ACCESS_CONDITION);
        more := NewRules(StringValue(access.value), types.value, shapes);
      }
    }
  }

  /**
   * fromModel: one new rule object per (typed subject, access-condition shape),
   * subjects that fail to parse skipped.
   */
  method FromModel(m: Model) returns (auths: seq<ContextBasedAuthorization>)
    ensures FieldsOf(auths) == FromModelRules(m)
    ensures forall i :: 0 <= i < |auths| ==> (fresh(auths[i])
      && auths[i].resourceName == None && auths[i].entityName == None && auths[i].authIRI == None)
  {
    var subjects := AuthorizationSubjects(m);
    auths := [];
    for k := 0 to |subjects|
      invariant FieldsOf(auths) == ParseSubjects(m, subjects[..k])
      invariant forall i :: 0 <= i < |auths| ==> (fresh(auths[i])
        && auths[i].resourceName == None && auths[i].entityName == None && auths[i].authIRI == None)
    {
      ParseSubjectsPrefix(m, subjects, k);
      var more := SubjectRules(m, subjects[k]);
      FieldsOfAppend(auths, more);
      auths := auths + more;
    }
    assert subjects[..|subjects|] == subjects;
  }
}
