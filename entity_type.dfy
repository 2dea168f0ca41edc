/** The three kinds of entity a rule can name, and their acl: properties. */
module AuthorizedEntityType {
  import opened Wrappers
  import Vocab

  datatype EntityType = AGENT | AGENT_CLASS | AGENT_GROUP

  /** values(), in declaration order. */
  const Values: seq<EntityType> := [AGENT, AGENT_CLASS, AGENT_GROUP]

  /** getName(): the acl: local name. */
  function Name(t: EntityType): string
  {
    match t
    case AGENT => "agent"
    case AGENT_CLASS => "agentClass"
    case AGENT_GROUP => "agentGroup"
  }

  /** getProperty(): the acl: property that links a rule to such an entity. */
  function Property(t: EntityType): string
  {
    Vocab.ACL_NS + Name(t)
  }

  /** The linear search of fromProperty over ts. */
  function FindByProperty(ts: seq<EntityType>, p: string): (r: Option<EntityType>)
    ensures r.Some? ==> r.value in ts && Property(r.value) == p
    ensures r.None? <==> forall i :: 0 <= i < |ts| ==> Property(ts[i]) != p
  {
    if |ts| == 0 then None
    else if Property(ts[0]) == p then Some(ts[0])
    else FindByProperty(ts[1..], p)
  }

  function FromProperty(p: string): Option<EntityType>
  {
    FindByProperty(Values, p)
  }

  function IndexIn(t: EntityType): (i: nat)
    ensures i < |Values| && Values[i] == t
  {
    match t
    case AGENT => 0
    case AGENT_CLASS => 1
    case AGENT_GROUP => 2
  }

  /** The three properties are pairwise distinct. */
  lemma PropertyInjective(a: EntityType, b: EntityType)
    ensures Property(a) == Property(b) ==> a == b
  {
    if Property(a) == Property(b) {
      assert Name(a) == Property(a)[|Vocab.ACL_NS|..];
      assert Name(b) == Property(b)[|Vocab.ACL_NS|..];
    }
  }

  /** fromProperty inverts getProperty, and gives None for any other string. */
  lemma FromPropertyOfProperty(t: EntityType, p: string)
    ensures FromProperty(Property(t)) == Some(t)
    ensures FromProperty(p).None? <==> forall u :: Property(u) != p
    ensures FromProperty(p).Some? ==> Property(FromProperty(p).value) == p
  {
    var r := FromProperty(Property(t));
    assert t == Values[IndexIn(t)];
    PropertyInjective(r.value, t);
    if FromProperty(p).Some? {
      assert Property(FromProperty(p).value) == p;
    } else {
      forall u ensures Property(u) != p {
        assert u == Values[IndexIn(u)];
      }
    }
  }
}
