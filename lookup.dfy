/**
 The request handler's queries over the in-memory mirror: identifier allocation
 and the two first-match lookups.
 */
module Lookup {
  import opened Records

  /** JavaScript's numeric order on resource identifiers: `-Infinity` is below every integer. */
  predicate AtMost(a: RId, b: RId)
  {
    a.NegInfinity? || (b.Finite? && a.n <= b.n)
  }

  function Larger(a: RId, b: RId): RId
  {
    if AtMost(a, b) then b else a
  }

  /** `Math.max` over the mirror's identifiers; with no arguments it is `-Infinity`. */
  function MaxId(cs: seq<Contact>): (m: RId)
    requires IdsPresent(cs)
    ensures forall k :: 0 <= k < |cs| ==> AtMost(cs[k].resourceId.value, m)
    ensures cs == [] ==> m == NegInfinity
    ensures cs != [] ==> exists k :: 0 <= k < |cs| && cs[k].resourceId.value == m
  {
    if cs == [] then NegInfinity
    else
      var rest := MaxId(cs[1..]);
      assert forall k :: 1 <= k < |cs| ==> cs[k] == cs[1..][k - 1];
      Larger(cs[0].resourceId.value, rest)
  }

  /** `nextId`: one more than the largest identifier in the mirror. Adding one to
      `-Infinity` leaves it `-Infinity`, which is what an empty mirror yields. */
  function NextId(cs: seq<Contact>): (r: RId)
    requires IdsPresent(cs)
    ensures cs == [] ==> r == NegInfinity
    ensures r.Finite? <==> exists k :: 0 <= k < |cs| && cs[k].resourceId.value.Finite?
    ensures r.Finite? ==> forall k :: 0 <= k < |cs| && cs[k].resourceId.value.Finite? ==>
                            cs[k].resourceId.value.n < r.n
    ensures r.Finite? ==> exists k :: 0 <= k < |cs| && cs[k].resourceId == Some(Finite(r.n - 1))
  {
    match MaxId(cs)
    case NegInfinity => NegInfinity
    case Finite(m) => Finite(m + 1)
  }

  /** `findIdxByName`: the first mirror position holding `name`, or -1. */
  function FindIdxByName(cs: seq<Contact>, name: Option<string>): (i: int)
    ensures -1 <= i < |cs|
    ensures i == -1 <==> forall k :: 0 <= k < |cs| ==> cs[k].name != name
    ensures 0 <= i ==> cs[i].name == name && forall k :: 0 <= k < i ==> cs[k].name != name
  {
    FindIndex(cs, (c: Contact) => c.name == name)
  }

  /** `findIdxByID`: the first mirror position whose `resourceId` is `id`, or -1.
      JavaScript's `===` between numbers is the identity here. */
  function FindIdxByID(cs: seq<Contact>, id: int): (i: int)
    ensures -1 <= i < |cs|
    ensures i == -1 <==> forall k :: 0 <= k < |cs| ==> cs[k].resourceId != Some(Finite(id))
    ensures 0 <= i ==> cs[i].resourceId == Some(Finite(id)) &&
                       forall k :: 0 <= k < i ==> cs[k].resourceId != Some(Finite(id))
  {
    FindIndex(cs, (c: Contact) => c.resourceId == Some(Finite(id)))
  }
}
