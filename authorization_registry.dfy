/**
 * The registry of context-based authorizations: for each protected resource
 * IRI, the list of rules that protect it. Lists are appended to and removed
 * from in place; a resource whose list becomes empty is dropped.
 */
module Registry {
  import opened Wrappers
  import opened JavaLang
  import opened AuthorizationAccessType
  import opened Authorization

  type Rules = seq<ContextBasedAuthorization>

  /** getOrDefault(r, emptyList()). */
  function RulesOf(m: map<string, Rules>, r: string): Rules
  {
    if r in m then m[r] else []
  }

  /** Some rule in the list grants access type t. */
  predicate AnyGrants(rs: Rules, t: AccessType)
  {
    exists i :: 0 <= i < |rs| && t in rs[i].accessTypes
  }

  /** The registry invariant: no resource is mapped to an empty list. */
  predicate NoEmptyList(m: map<string, Rules>)
  {
    forall r :: r in m ==> |m[r]| > 0
  }

  /** addContextAuthorisation on the map: the list of r gets a at its end. */
  function AddTo(m: map<string, Rules>, r: string, a: ContextBasedAuthorization): map<string, Rules>
  {
    m[r := RulesOf(m, r) + [a]]
  }

  /** removeContextAuthorisation on the map: the first rule equal to a goes; an emptied key goes too. */
  function RemoveFrom(m: map<string, Rules>, r: string, a: ContextBasedAuthorization): map<string, Rules>
  {
    var rest := RemoveFirstEqual(RulesOf(m, r), a);
    if |rest| == 0 then m - {r} else m[r := rest]
  }

  /** getAuthorisationDocumentURI on the map. */
  function DocumentUri(m: map<string, Rules>, r: string): (u: Option<string>)
    ensures u.Some? <==> r in m
    ensures u.Some? ==> u.value == r + "/wac"
  {
    if r in m then Some(r + "/wac") else None
  }

  /** After add, the list of r is its old list followed by a, and no other resource is touched. */
  lemma AddAppends(m: map<string, Rules>, r: string, a: ContextBasedAuthorization, other: string)
    ensures RulesOf(AddTo(m, r, a), r) == RulesOf(m, r) + [a]
    ensures other != r ==> RulesOf(AddTo(m, r, a), other) == RulesOf(m, other)
    ensures other != r ==> (other in AddTo(m, r, a) <==> other in m)
    ensures DocumentUri(AddTo(m, r, a), r) == Some(r + "/wac")
  {
  }

  /** After add, r is protected for every access type of a, and for those it was protected for before. */
  lemma AddGrants(m: map<string, Rules>, r: string, a: ContextBasedAuthorization, t: AccessType)
    ensures AnyGrants(RulesOf(AddTo(m, r, a), r), t) <==> AnyGrants(RulesOf(m, r), t) || t in a.accessTypes
  {
    var old_ := RulesOf(m, r);
    var new_ := RulesOf(AddTo(m, r, a), r);
    assert new_ == old_ + [a];
    if t in a.accessTypes {
      assert new_[|old_|] == a;
    }
    if AnyGrants(old_, t) {
      var i :| 0 <= i < |old_| && t in old_[i].accessTypes;
      assert new_[i] == old_[i];
    }
    if AnyGrants(new_, t) {
      var i :| 0 <= i < |new_| && t in new_[i].accessTypes;
      if i < |old_| {
        assert old_[i] == new_[i];
      }
    }
  }

  /** Both operations keep the registry invariant. */
  lemma OperationsKeepInvariant(m: map<string, Rules>, r: string, a: ContextBasedAuthorization)
    requires NoEmptyList(m)
    ensures NoEmptyList(AddTo(m, r, a))
    ensures NoEmptyList(RemoveFrom(m, r, a))
  {
  }

  /**
   * remove drops exactly the first rule equal to a from the list of r and
   * nothing else; once the list is empty, r has no document any more.
   */
  lemma RemoveDropsFirst(m: map<string, Rules>, r: string, a: ContextBasedAuthorization, other: string)
    ensures var rs := RulesOf(m, r); var k := FirstEqual(rs, a);
      RulesOf(RemoveFrom(m, r, a), r) == if k == -1 then rs else rs[..k] + rs[k + 1..]
    ensures other != r ==> RulesOf(RemoveFrom(m, r, a), other) == RulesOf(m, other)
    ensures other != r ==> (other in RemoveFrom(m, r, a) <==> other in m)
    ensures |RulesOf(RemoveFrom(m, r, a), r)| == 0 ==> DocumentUri(RemoveFrom(m, r, a), r) == None
  {
  }

  /** Removing from a resource without rules changes nothing. */
  lemma RemoveAbsent(m: map<string, Rules>, r: string, a: ContextBasedAuthorization)
    requires r !in m
    ensures RemoveFrom(m, r, a) == m
  {
    assert RulesOf(m, r) == [];
  }

  /** A resource without rules has none of the access types protected and no document. */
  lemma UnknownResource(m: map<string, Rules>, r: string, t: AccessType)
    requires r !in m
    ensures RulesOf(m, r) == [] && !AnyGrants(RulesOf(m, r), t) && DocumentUri(m, r) == None
  {
  }

  /** The registry object. The Java class is a singleton; one object is modelled. */
  class AuthorizationRegistry {
    var authMap: map<string, Rules>

    /** No resource is mapped to an empty list. */
    predicate Valid()
      reads this
    {
      NoEmptyList(authMap)
    }

    constructor ()
      ensures authMap == map[] && Valid()
    {
      authMap := map[];
    }

    /** getContextAuthorisations: the list for r, empty when r has none. */
    function GetContextAuthorisations(r: string): (rs: Rules)
      reads this
      ensures r !in authMap ==> rs == []
      ensures Valid() ==> (|rs| > 0 <==> r in authMap)
    {
      RulesOf(authMap, r)
    }

    /** addContextAuthorisation: a is appended to the list of r (a new list when r had none). */
    method AddContextAuthorisation(r: string, a: ContextBasedAuthorization)
      modifies this
      ensures authMap == AddTo(old(authMap), r, a)
      ensures old(Valid()) ==> Valid()
    {
      var rs := GetContextAuthorisations(r);
      if |rs| == 0 {
        rs := [];
      }
      rs := rs + [a];
      authMap := authMap[r := rs];
    }

    /** removeContextAuthorisation: the first rule equal to a goes; r goes once its list is empty. */
    method RemoveContextAuthorisation(r: string, a: ContextBasedAuthorization)
      modifies this
      ensures authMap == RemoveFrom(old(authMap), r, a)
      ensures old(Valid()) ==> Valid()
    {
      var rs := GetContextAuthorisations(r);
      rs := RemoveFirstEqual(rs, a);
      if |rs| == 0 {
        authMap := authMap - {r};
      } else {
        authMap := authMap[r := rs];
      }
    }

    /** hasAccessAuthorization: a scan of the list of r that stops at the first rule granting t. */
    method HasAccessAuthorization(r: string, t: AccessType) returns (b: bool)
      ensures b <==> AnyGrants(RulesOf(authMap, r), t)
    {
      var rs := GetContextAuthorisations(r);
      for i := 0 to |rs|
        invariant forall j :: 0 <= j < i ==> t !in rs[j].accessTypes
      {
        if IndexOf(rs[i].accessTypes, t) >= 0 {
          return true;
        }
      }
      return false;
    }

    /** isReadProtected: only READ counts, although the comment above it also mentions write access. */
    method IsReadProtected(r: string) returns (b: bool)
      ensures b <==> AnyGrants(RulesOf(authMap, r), READ)
    {
      b := HasAccessAuthorization(r, READ);
    }

    /** isWriteProtected: WRITE or APPEND. */
    method IsWriteProtected(r: string) returns (b: bool)
      ensures b <==> AnyGrants(RulesOf(authMap, r), WRITE) || AnyGrants(RulesOf(authMap, r), APPEND)
    {
      b := HasAccessAuthorization(r, WRITE);
      if !b {
        b := HasAccessAuthorization(r, APPEND);
      }
    }

    /** isControlProtected: CONTROL. */
    method IsControlProtected(r: string) returns (b: bool)
      ensures b <==> AnyGrants(RulesOf(authMap, r), CONTROL)
    {
      b := HasAccessAuthorization(r, CONTROL);
    }

    /** getAuthorisationDocumentURI: r + "/wac" exactly when r has rules. */
    function GetAuthorisationDocumentURI(r: string): (u: Option<string>)
      reads this
      ensures u.Some? <==> r in authMap
      ensures u.Some? ==> u.value == r + "/wac"
    {
      DocumentUri(authMap, r)
    }
  }

  /**
   * A resource protected only for WRITE is write-protected but not
   * read-protected: isReadProtected does not look at write access.
   */
  lemma ReadProtectionIgnoresWrite(m: map<string, Rules>, r: string)
    requires r in m && |m[r]| > 0
    requires forall i :: 0 <= i < |m[r]| ==> m[r][i].accessTypes == [WRITE]
    ensures AnyGrants(RulesOf(m, r), WRITE)
    ensures !AnyGrants(RulesOf(m, r), READ)
  {
    assert WRITE in m[r][0].accessTypes;
  }
}
