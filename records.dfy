/**
 * The record gateway: the FHIR server's Person resources as a map from id to
 * resource, and the identifier-list operations the handlers perform on them.
 */
module Records {
  import opened Wrappers

  /** Resource ids are assigned by the store; they are modelled as naturals. */
  type Id = nat

  const EMAIL_SYSTEM := "http://example.org/fhir/email"
  const PASSWORD_SYSTEM := "http://example.org/fhir/password"

  /** A `(system, value)` identifier pair. */
  datatype Identifier = Identifier(system: string, value: string)

  datatype ContactPoint = ContactPoint(system: string, value: string, use: string)

  /**
   * A Person resource: its name texts, its identifier list (which a resource
   * may lack altogether) and its contact points.
   */
  datatype Person = Person(name: seq<string>, identifier: Option<seq<Identifier>>, telecom: seq<ContactPoint>)

  type Store = map<Id, Person>

  /** Every id in the store is below `bound`: the store hands out ids from `bound` on. */
  ghost predicate Bounded(store: Store, bound: nat) {
    forall id :: id in store ==> id < bound
  }

  /** The resource carries the identifier `(system, value)`. */
  predicate HasIdentifier(p: Person, system: string, value: string): (r: bool)
    ensures r <==> p.identifier.Some? &&
                   exists k :: 0 <= k < |p.identifier.value| && p.identifier.value[k] == Identifier(system, value)
  {
    p.identifier.Some? && Identifier(system, value) in p.identifier.value
  }

  /** Account `id` exists and is found by the identifier search `system|value`. */
  predicate Matches(store: Store, id: Id, system: string, value: string): (r: bool)
    ensures r ==> id in store && store[id].identifier.Some?
  {
    id in store && HasIdentifier(store[id], system, value)
  }

  /**
   * `GET Person?identifier=system|value`: the entries of the search bundle
   * (ids below `bound`, in ascending order); `total` is their number and
   * `entry[0]` the first.
   */
  function Search(store: Store, system: string, value: string, bound: nat): (hits: seq<Id>)
    ensures forall k :: 0 <= k < |hits| ==> hits[k] < bound && Matches(store, hits[k], system, value)
    ensures forall id: Id :: id < bound && Matches(store, id, system, value) ==> id in hits
    ensures forall j, k :: 0 <= j < k < |hits| ==> hits[j] < hits[k]
    decreases bound
  {
    if bound == 0 then []
    else
      var earlier := Search(store, system, value, bound - 1);
      if Matches(store, bound - 1, system, value) then earlier + [bound - 1] else earlier
  }

  /** The search finds nothing exactly when no account in the store matches, and otherwise its first entry is the least matching id. */
  lemma SearchFirst(store: Store, system: string, value: string, bound: nat)
    requires Bounded(store, bound)
    ensures var hits := Search(store, system, value, bound);
      (hits == [] <==> forall id :: id in store ==> !HasIdentifier(store[id], system, value)) &&
      (hits != [] ==> Matches(store, hits[0], system, value) &&
                      forall id :: Matches(store, id, system, value) ==> hits[0] <= id)
  {
    var hits := Search(store, system, value, bound);
    if hits != [] {
      assert Matches(store, hits[0], system, value);
      forall id | Matches(store, id, system, value) ensures hits[0] <= id {
        assert id in hits;
        var k :| 0 <= k < |hits| && hits[k] == id;
        assert k == 0 || hits[0] < hits[k];
      }
    } else {
      forall id | id in store ensures !HasIdentifier(store[id], system, value) {
        assert id < bound && id !in hits;
        assert !Matches(store, id, system, value);
      }
    }
  }

  /** Replacing one resource by one that matches the search exactly when the old one did leaves every search result as it was. */
  lemma {:induction false} SearchAfterReplace(store: Store, id: Id, p: Person, system: string, value: string, bound: nat)
    requires id in store
    requires HasIdentifier(p, system, value) <==> HasIdentifier(store[id], system, value)
    ensures Search(store[id := p], system, value, bound) == Search(store, system, value, bound)
  {
    if bound > 0 {
      SearchAfterReplace(store, id, p, system, value, bound - 1);
      assert Matches(store[id := p], bound - 1, system, value) <==> Matches(store, bound - 1, system, value);
    }
  }

  /** Adding a resource under an unused id at or above the bound of a search leaves that search as it was. */
  lemma {:induction false} SearchAfterCreate(store: Store, id: Id, p: Person, system: string, value: string, bound: nat)
    requires bound <= id
    ensures Search(store[id := p], system, value, bound) == Search(store, system, value, bound)
  {
    if bound > 0 {
      SearchAfterCreate(store, id, p, system, value, bound - 1);
      assert Matches(store[id := p], bound - 1, system, value) <==> Matches(store, bound - 1, system, value);
    }
  }

  /** The position of the first identifier of `system`, or `|ids|` when there is none. */
  function FirstIndex(ids: seq<Identifier>, system: string): (k: nat)
    ensures k <= |ids|
    ensures forall j :: 0 <= j < k ==> ids[j].system != system
    ensures k < |ids| ==> ids[k].system == system
  {
    if ids == [] then 0
    else if ids[0].system == system then 0
    else 1 + FirstIndex(ids[1..], system)
  }

  /** `ids.find(i => i.system === system)`, giving that entry's value. */
  function FindValue(ids: seq<Identifier>, system: string): (r: Option<string>)
    ensures r.None? <==> forall j :: 0 <= j < |ids| ==> ids[j].system != system
    ensures r.Some? ==> Identifier(system, r.value) in ids
    ensures r.Some? ==> r.value == ids[FirstIndex(ids, system)].value
  {
    var k := FirstIndex(ids, system);
    if k < |ids| then Some(ids[k].value) else None
  }

  /** The number of identifiers of `system`. */
  function Count(ids: seq<Identifier>, system: string): (n: nat)
    ensures n <= |ids|
    ensures n == 0 <==> forall j :: 0 <= j < |ids| ==> ids[j].system != system
  {
    if ids == [] then 0
    else (if ids[0].system == system then 1 else 0) + Count(ids[1..], system)
  }

  /** `ids.filter(i => i.system !== system)`. */
  function Without(ids: seq<Identifier>, system: string): (r: seq<Identifier>)
    ensures |r| <= |ids|
    ensures forall k :: 0 <= k < |r| ==> r[k].system != system && r[k] in ids
    ensures forall j :: 0 <= j < |ids| && ids[j].system != system ==> ids[j] in r
  {
    if ids == [] then []
    else (if ids[0].system == system then [] else [ids[0]]) + Without(ids[1..], system)
  }

  /** Filtering distributes over concatenation: it keeps the surviving entries in their order. */
  lemma {:induction false} WithoutAppend(a: seq<Identifier>, b: seq<Identifier>, system: string)
    ensures Without(a + b, system) == Without(a, system) + Without(b, system)
  {
    if a != [] {
      var head := if a[0].system == system then [] else [a[0]];
      assert (a + b)[0] == a[0] && (a + b)[1..] == a[1..] + b;
      WithoutAppend(a[1..], b, system);
      calc {
        Without(a + b, system);
        head + Without(a[1..] + b, system);
        head + (Without(a[1..], system) + Without(b, system));
        (head + Without(a[1..], system)) + Without(b, system);
        Without(a, system) + Without(b, system);
      }
    } else {
      assert a + b == b;
    }
  }

  /** Filtering a list that holds no identifier of `system` changes nothing. */
  lemma {:induction false} WithoutNothing(ids: seq<Identifier>, system: string)
    requires forall j :: 0 <= j < |ids| ==> ids[j].system != system
    ensures Without(ids, system) == ids
  {
    if ids != [] {
      WithoutNothing(ids[1..], system);
    }
  }

  /** Two surviving entries keep their relative order after filtering. */
  lemma WithoutKeepsOrder(ids: seq<Identifier>, system: string, i: nat, j: nat)
    requires i < j < |ids| && ids[i].system != system && ids[j].system != system
    ensures var r := Without(ids, system);
      var i', j' := |Without(ids[..i], system)|, |Without(ids[..j], system)|;
      i' < j' < |r| && r[i'] == ids[i] && r[j'] == ids[j]
  {
    var r := Without(ids, system);
    assert ids == ids[..i] + [ids[i]] + ids[i + 1..j] + [ids[j]] + ids[j + 1..];
    assert ids[..j] == ids[..i] + [ids[i]] + ids[i + 1..j];
    WithoutAppend(ids[..i], [ids[i]], system);
    WithoutAppend(ids[..i] + [ids[i]], ids[i + 1..j], system);
    WithoutAppend(ids[..j], [ids[j]], system);
    WithoutAppend(ids[..j] + [ids[j]], ids[j + 1..], system);
    assert Without([ids[i]], system) == [ids[i]];
    assert Without([ids[j]], system) == [ids[j]];
    assert ids[..j] + [ids[j]] + ids[j + 1..] == ids;
  }

  /** `(ids || [])` followed by the filter and the push of the reset handler. */
  function RotatePassword(ids: Option<seq<Identifier>>, digest: string): (r: seq<Identifier>)
    ensures |r| >= 1 && r[|r| - 1] == Identifier(PASSWORD_SYSTEM, digest)
    ensures forall k :: 0 <= k < |r| - 1 ==> r[k].system != PASSWORD_SYSTEM
  {
    Without(ids.GetOr([]), PASSWORD_SYSTEM) + [Identifier(PASSWORD_SYSTEM, digest)]
  }

  /** The resource with its identifier list rotated; its name and contact points stay as they were. */
  function Rotated(p: Person, digest: string): (q: Person)
    ensures q.name == p.name && q.telecom == p.telecom && q.identifier.Some?
  {
    p.(identifier := Some(RotatePassword(p.identifier, digest)))
  }

  /** After a rotation the list holds exactly one password identifier, the new one, and the login lookup finds it. */
  lemma RotateSinglePassword(ids: Option<seq<Identifier>>, digest: string)
    ensures var r := RotatePassword(ids, digest);
      Count(r, PASSWORD_SYSTEM) == 1 && FindValue(r, PASSWORD_SYSTEM) == Some(digest)
  {
    var r := RotatePassword(ids, digest);
    var others := Without(ids.GetOr([]), PASSWORD_SYSTEM);
    CountAppend(others, [Identifier(PASSWORD_SYSTEM, digest)], PASSWORD_SYSTEM);
    assert FirstIndex(r, PASSWORD_SYSTEM) == |r| - 1;
  }

  lemma {:induction false} CountAppend(a: seq<Identifier>, b: seq<Identifier>, system: string)
    ensures Count(a + b, system) == Count(a, system) + Count(b, system)
  {
    if a != [] {
      assert (a + b)[0] == a[0] && (a + b)[1..] == a[1..] + b;
      CountAppend(a[1..], b, system);
      assert Count(a + b, system) == (if a[0].system == system then 1 else 0) + Count(a[1..] + b, system);
    } else {
      assert a + b == b;
    }
  }

  /** Every identifier of another system survives a rotation, in its original relative order, ahead of the new password entry. */
  lemma RotateKeepsOthers(ids: seq<Identifier>, digest: string, i: nat, j: nat)
    requires i < j < |ids| && ids[i].system != PASSWORD_SYSTEM && ids[j].system != PASSWORD_SYSTEM
    ensures var r := RotatePassword(Some(ids), digest);
      exists i', j' :: 0 <= i' < j' < |r| - 1 && r[i'] == ids[i] && r[j'] == ids[j]
  {
    WithoutKeepsOrder(ids, PASSWORD_SYSTEM, i, j);
    var r := RotatePassword(Some(ids), digest);
    var i', j' := |Without(ids[..i], PASSWORD_SYSTEM)|, |Without(ids[..j], PASSWORD_SYSTEM)|;
    assert r[i'] == ids[i] && r[j'] == ids[j];
  }

  /** An absent identifier list rotates like an empty one: to the new password entry alone. */
  lemma RotateAbsent(digest: string)
    ensures RotatePassword(None, digest) == RotatePassword(Some([]), digest) == [Identifier(PASSWORD_SYSTEM, digest)]
  {
  }

  /** A list without password entries only gains the new one at its end. */
  lemma RotateAppendsOnly(ids: seq<Identifier>, digest: string)
    requires forall j :: 0 <= j < |ids| ==> ids[j].system != PASSWORD_SYSTEM
    ensures RotatePassword(Some(ids), digest) == ids + [Identifier(PASSWORD_SYSTEM, digest)]
  {
    WithoutNothing(ids, PASSWORD_SYSTEM);
  }

  /** A second rotation supersedes the first: only the last new password remains. */
  lemma RotateTwice(ids: Option<seq<Identifier>>, d1: string, d2: string)
    ensures RotatePassword(Some(RotatePassword(ids, d1)), d2) == RotatePassword(ids, d2)
  {
    var others := Without(ids.GetOr([]), PASSWORD_SYSTEM);
    WithoutAppend(others, [Identifier(PASSWORD_SYSTEM, d1)], PASSWORD_SYSTEM);
    WithoutNothing(others, PASSWORD_SYSTEM);
  }

  /** A rotation changes no identifier of another system, so searches on such a system see the same resource. */
  lemma RotatedSearchable(p: Person, digest: string, system: string, value: string)
    requires system != PASSWORD_SYSTEM
    ensures HasIdentifier(Rotated(p, digest), system, value) <==> HasIdentifier(p, system, value)
  {
    var id := Identifier(system, value);
    var r := RotatePassword(p.identifier, digest);
    if HasIdentifier(p, system, value) {
      var j :| 0 <= j < |p.identifier.value| && p.identifier.value[j] == id;
      assert id in Without(p.identifier.value, PASSWORD_SYSTEM);
      assert id in r;
    }
    if HasIdentifier(Rotated(p, digest), system, value) {
      var k :| 0 <= k < |r| && r[k] == id;
      assert k < |r| - 1;
    }
  }
}
