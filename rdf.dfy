/**
 * RDF terms and statements, and the model operations the code relies on: an
 * RDF4J LinkedHashModel is a set of statements kept in insertion order, and
 * filter(...).subjects() / objects() give the distinct terms in that order.
 */
module Rdf {
  import opened Wrappers
  import opened JavaLang

  datatype Term = Iri(iri: string) | BNode(id: string) | Literal(text: string)

  datatype Statement = Statement(subj: Term, pred: string, obj: Term)

  /** A model: the statements in insertion order, without repetition. */
  type Model = seq<Statement>

  /** A Jena graph, as the statements its find() iterator yields, in that order. */
  type Graph = seq<Statement>

  /** Value.stringValue(): the IRI, the blank node id or the literal's label. */
  function StringValue(t: Term): string
  {
    match t
    case Iri(s) => s
    case BNode(id) => id
    case Literal(l) => l
  }

  /**
   * RDF4J's SimpleValueFactory.createIRI(String) refuses (IllegalArgumentException)
   * a string that has no ':' in it; it checks nothing else.
   */
  predicate ValidIri(s: string)
  {
    ':' in s
  }

  /** Model.add: a statement already present is not added again. */
  function Add(m: Model, st: Statement): (r: Model)
    ensures NoDup(m) ==> NoDup(r)
    ensures forall x :: x in r <==> x in m || x == st
    ensures st in m ==> r == m
    ensures st !in m ==> r == m + [st]
  {
    if st in m then m else m + [st]
  }

  /** Model.addAll, in order. */
  function AddAll(m: Model, sts: seq<Statement>): (r: Model)
    ensures NoDup(m) ==> NoDup(r)
    ensures forall x :: x in r <==> x in m || x in sts
    decreases |sts|
  {
    if |sts| == 0 then m else AddAll(Add(m, sts[0]), sts[1..])
  }

  lemma {:induction false} AddAllSnoc(m: Model, sts: seq<Statement>, st: Statement)
    ensures AddAll(m, sts + [st]) == Add(AddAll(m, sts), st)
    decreases |sts|
  {
    if |sts| == 0 {
      assert AddAll(Add(m, st), []) == Add(m, st);
    } else {
      assert (sts + [st])[1..] == sts[1..] + [st];
      AddAllSnoc(Add(m, sts[0]), sts[1..], st);
    }
  }

  /** A new model with the statements added in order, seen from the last statement (it equals AddAll([], sts)). */
  function ModelOf(sts: seq<Statement>): Model
    decreases |sts|
  {
    if |sts| == 0 then [] else Add(ModelOf(sts[..|sts| - 1]), sts[|sts| - 1])
  }

  lemma {:induction false} ModelOfIsAddAll(sts: seq<Statement>)
    ensures ModelOf(sts) == AddAll([], sts)
    decreases |sts|
  {
    if |sts| > 0 {
      var init := sts[..|sts| - 1];
      ModelOfIsAddAll(init);
      assert init + [sts[|sts| - 1]] == sts;
      AddAllSnoc([], init, sts[|sts| - 1]);
    }
  }

  /** Building a model from one statement more of a list adds that statement. */
  lemma AddAllPrefix(sts: seq<Statement>, k: nat)
    requires k < |sts|
    ensures AddAll([], sts[..k + 1]) == Add(AddAll([], sts[..k]), sts[k])
  {
    assert sts[..k] + [sts[k]] == sts[..k + 1];
    AddAllSnoc([], sts[..k], sts[k]);
  }

  lemma {:induction false} ObjectsOfAppend(a: Model, b: Model, s: Term, p: string)
    ensures ObjectsOf(a + b, s, p) == ObjectsOf(a, s, p) + ObjectsOf(b, s, p)
    decreases |a|
  {
    if |a| > 0 {
      assert (a + b)[1..] == a[1..] + b;
      ObjectsOfAppend(a[1..], b, s, p);
    } else {
      assert a + b == b;
    }
  }

  lemma {:induction false} SubjectsOfAppend(a: Model, b: Model, p: string, o: Term)
    ensures SubjectsOf(a + b, p, o) == SubjectsOf(a, p, o) + SubjectsOf(b, p, o)
    decreases |a|
  {
    if |a| > 0 {
      assert (a + b)[1..] == a[1..] + b;
      SubjectsOfAppend(a[1..], b, p, o);
    } else {
      assert a + b == b;
    }
  }

  lemma ObjectsOfTwo(a: Statement, b: Statement, s: Term, p: string)
    ensures ObjectsOf([a, b], s, p)
      == (if a.subj == s && a.pred == p then [a.obj] else []) + (if b.subj == s && b.pred == p then [b.obj] else [])
  {
    assert [a, b][1..] == [b];
    assert [b][1..] == [];
    var rb := if b.subj == s && b.pred == p then [b.obj] else [];
    assert ObjectsOf([b], s, p) == rb + ObjectsOf([], s, p);
    assert rb + [] == rb;
  }

  lemma SubjectsOfTwo(a: Statement, b: Statement, p: string, o: Term)
    ensures SubjectsOf([a, b], p, o)
      == (if a.pred == p && a.obj == o then [a.subj] else []) + (if b.pred == p && b.obj == o then [b.subj] else [])
  {
    assert [a, b][1..] == [b];
    assert [b][1..] == [];
    var rb := if b.pred == p && b.obj == o then [b.subj] else [];
    assert SubjectsOf([b], p, o) == rb + SubjectsOf([], p, o);
    assert rb + [] == rb;
  }

  /** Adding statements that are distinct and new appends them unchanged. */
  lemma {:induction false} AddAllFresh(m: Model, sts: seq<Statement>)
    requires NoDup(sts) && forall i :: 0 <= i < |sts| ==> sts[i] !in m
    ensures AddAll(m, sts) == m + sts
    decreases |sts|
  {
    if |sts| > 0 {
      assert sts[0] !in m;
      FreshAfterAdd(m, sts);
      NoDupTail(sts);
      AddAllFresh(m + [sts[0]], sts[1..]);
      AppendFirst(m, sts);
    }
  }

  lemma AppendFirst(m: Model, sts: seq<Statement>)
    requires |sts| > 0
    ensures m + sts == m + [sts[0]] + sts[1..]
  {
    assert sts == [sts[0]] + sts[1..];
  }

  /** The statements after the first are still new once the first is added. */
  lemma FreshAfterAdd(m: Model, sts: seq<Statement>)
    requires |sts| > 0 && NoDup(sts) && forall i :: 0 <= i < |sts| ==> sts[i] !in m
    ensures forall i :: 0 <= i < |sts[1..]| ==> sts[1..][i] !in m + [sts[0]]
  {
    forall i | 0 <= i < |sts[1..]|
      ensures sts[1..][i] !in m + [sts[0]]
    {
      assert sts[1..][i] == sts[i + 1] != sts[0];
    }
  }

  /** The distinct elements of xs in order of first occurrence. */
  function Distinct(xs: seq<Term>): (r: seq<Term>)
    ensures NoDup(r)
    ensures forall x :: x in r <==> x in xs
  {
    var r := DistinctAfter([], xs);
    assert [] + r == r;
    r
  }

  function DistinctAfter(seen: seq<Term>, xs: seq<Term>): (r: seq<Term>)
    requires NoDup(seen)
    ensures NoDup(seen + r)
    ensures forall x :: x in r <==> x in xs && x !in seen
    decreases |xs|
  {
    if |xs| == 0 then []
    else if xs[0] in seen then DistinctAfter(seen, xs[1..])
    else
      var rest := DistinctAfter(seen + [xs[0]], xs[1..]);
      assert seen + ([xs[0]] + rest) == (seen + [xs[0]]) + rest;
      [xs[0]] + rest
  }

  /** Distinct elements are kept as they are. */
  lemma {:induction false} DistinctOfNoDup(seen: seq<Term>, xs: seq<Term>)
    requires NoDup(seen) && NoDup(seen + xs)
    ensures DistinctAfter(seen, xs) == xs
    decreases |xs|
  {
    if |xs| > 0 {
      assert xs[0] == (seen + xs)[|seen|];
      assert xs[0] !in seen by {
        forall i | 0 <= i < |seen| ensures seen[i] != xs[0] {
          assert seen[i] == (seen + xs)[i];
        }
      }
      assert (seen + [xs[0]]) + xs[1..] == seen + xs;
      DistinctOfNoDup(seen + [xs[0]], xs[1..]);
    }
  }

  /** A sequence without repeats is its own distinct elements. */
  lemma DistinctOfDistinct(xs: seq<Term>)
    requires NoDup(xs)
    ensures Distinct(xs) == xs
  {
    assert [] + xs == xs;
    DistinctOfNoDup([], xs);
  }

  /** The objects of the statements in m with subject s and predicate p, in order. */
  function ObjectsOf(m: Model, s: Term, p: string): (r: seq<Term>)
    ensures forall o :: o in r <==> Statement(s, p, o) in m
  {
    if |m| == 0 then []
    else if m[0].subj == s && m[0].pred == p then [m[0].obj] + ObjectsOf(m[1..], s, p)
    else ObjectsOf(m[1..], s, p)
  }

  /** The subjects of the statements in m with predicate p and object o, in order. */
  function SubjectsOf(m: Model, p: string, o: Term): (r: seq<Term>)
    ensures forall s :: s in r <==> Statement(s, p, o) in m
  {
    if |m| == 0 then []
    else if m[0].pred == p && m[0].obj == o then [m[0].subj] + SubjectsOf(m[1..], p, o)
    else SubjectsOf(m[1..], p, o)
  }

  /** filter(s, p, null).objects(): the distinct objects. */
  function Objects(m: Model, s: Term, p: string): (r: seq<Term>)
    ensures NoDup(r)
    ensures forall o :: o in r <==> Statement(s, p, o) in m
  {
    Distinct(ObjectsOf(m, s, p))
  }

  /** filter(null, p, o).subjects(): the distinct subjects. */
  function Subjects(m: Model, p: string, o: Term): (r: seq<Term>)
    ensures NoDup(r)
    ensures forall s :: s in r <==> Statement(s, p, o) in m
  {
    Distinct(SubjectsOf(m, p, o))
  }

  /** filter(s, p, null).iterator().next().getObject(): the first object, or None where next() throws. */
  function FirstObject(m: Model, s: Term, p: string): (r: Option<Term>)
    ensures r.None? <==> forall o :: Statement(s, p, o) !in m
    ensures r.Some? ==> Statement(s, p, r.value) in m
  {
    var os := ObjectsOf(m, s, p);
    if |os| == 0 then None
    else
      assert os[0] in os;
      Some(os[0])
  }
}
