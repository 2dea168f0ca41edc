/** The four Web Access Control access modes a rule can grant, with their names and acl: IRIs. */
module AuthorizationAccessType {
  import opened Wrappers
  import Vocab

  datatype AccessType = READ | WRITE | APPEND | CONTROL

  /** values(), in declaration order. */
  const Values: seq<AccessType> := [READ, WRITE, APPEND, CONTROL]

  /** getName(): the acl: local name. */
  function Name(t: AccessType): string
  {
    match t
    case READ => "Read"
    case WRITE => "Write"
    case APPEND => "Append"
    case CONTROL => "Control"
  }

  /** toString() / name(): the Java constant name, which differs from getName(). */
  function ConstantName(t: AccessType): string
  {
    match t
    case READ => "READ"
    case WRITE => "WRITE"
    case APPEND => "APPEND"
    case CONTROL => "CONTROL"
  }

  /** getUri(): the acl: IRI of the mode. */
  function Uri(t: AccessType): string
  {
    Vocab.ACL_NS + Name(t)
  }

  /** The linear search of fromUri over ts: the first type whose IRI equals uri. */
  function FindByUri(ts: seq<AccessType>, uri: string): (r: Option<AccessType>)
    ensures r.Some? ==> r.value in ts && Uri(r.value) == uri
    ensures r.None? <==> forall i :: 0 <= i < |ts| ==> Uri(ts[i]) != uri
  {
    if |ts| == 0 then None
    else if Uri(ts[0]) == uri then Some(ts[0])
    else FindByUri(ts[1..], uri)
  }

  /** The linear search of fromName over ts: the first type whose name equals name. */
  function FindByName(ts: seq<AccessType>, name: string): (r: Option<AccessType>)
    ensures r.Some? ==> r.value in ts && Name(r.value) == name
    ensures r.None? <==> forall i :: 0 <= i < |ts| ==> Name(ts[i]) != name
  {
    if |ts| == 0 then None
    else if Name(ts[0]) == name then Some(ts[0])
    else FindByName(ts[1..], name)
  }

  function FromUri(uri: string): Option<AccessType>
  {
    FindByUri(Values, uri)
  }

  function FromName(name: string): Option<AccessType>
  {
    FindByName(Values, name)
  }

  lemma NamesDistinct(a: AccessType, b: AccessType)
    ensures Name(a) == Name(b) ==> a == b
  {
  }

  lemma UriInjective(a: AccessType, b: AccessType)
    ensures Uri(a) == Uri(b) ==> a == b
  {
    if Uri(a) == Uri(b) {
      assert Name(a) == Uri(a)[|Vocab.ACL_NS|..];
      assert Name(b) == Uri(b)[|Vocab.ACL_NS|..];
    }
  }

  /** fromUri inverts getUri. */
  lemma FromUriOfUri(t: AccessType)
    ensures FromUri(Uri(t)) == Some(t)
  {
    var r := FromUri(Uri(t));
    assert t == Values[IndexIn(t)];
    UriInjective(r.value, t);
  }

  /** fromUri finds something exactly for the four mode IRIs. */
  lemma FromUriResult(s: string)
    ensures FromUri(s).Some? <==> exists u :: Uri(u) == s
    ensures FromUri(s).Some? ==> Uri(FromUri(s).value) == s
  {
    if FromUri(s).Some? {
      assert Uri(FromUri(s).value) == s;
    } else {
      forall u ensures Uri(u) != s {
        assert u == Values[IndexIn(u)];
      }
    }
  }

  function IndexIn(t: AccessType): (i: nat)
    ensures i < |Values| && Values[i] == t
  {
    match t
    case READ => 0
    case WRITE => 1
    case APPEND => 2
    case CONTROL => 3
  }

  lemma FindName(t: AccessType)
    ensures FromName(Name(t)) == Some(t)
  {
    var r := FromName(Name(t));
    assert t == Values[IndexIn(t)];
    NamesDistinct(r.value, t);
  }

  /**
   * fromName inverts getName and accepts exactly the four names, case-sensitive:
   * none of the Java constant names (READ, WRITE, ...) is accepted.
   */
  lemma FromNameOfName(t: AccessType, s: string)
    ensures FromName(Name(t)) == Some(t)
    ensures FromName(s).Some? <==> s == "Read" || s == "Write" || s == "Append" || s == "Control"
    ensures FromName(ConstantName(t)) == None
  {
    FindName(t);
    FromNameAccepts(s);
    ConstantNameRejected(t);
  }

  lemma FromNameAccepts(s: string)
    ensures FromName(s).Some? <==> s == "Read" || s == "Write" || s == "Append" || s == "Control"
  {
    var r := FromName(s);
    if r.Some? {
      assert Name(r.value) == s;
    } else {
      forall t ensures Name(t) != s {
        assert Values[IndexIn(t)] == t;
      }
      assert Name(READ) != s && Name(WRITE) != s && Name(APPEND) != s && Name(CONTROL) != s;
    }
  }

  /** The second letter of a constant name is upper case, that of every mode name lower case. */
  lemma ConstantNameRejected(t: AccessType)
    ensures FromName(ConstantName(t)) == None
  {
    forall i | 0 <= i < |Values|
      ensures Name(Values[i]) != ConstantName(t)
    {
      assert 'a' <= Name(Values[i])[1] <= 'z';
      assert 'A' <= ConstantName(t)[1] <= 'Z';
    }
  }
}
