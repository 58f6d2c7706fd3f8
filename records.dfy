/**
 The values the contact service handles: contact documents, request bodies and the
 resource identifiers allocated for them, plus the first-match search that the
 service and its store both rely on (JavaScript's `Array.prototype.findIndex`).
 */
module Records {

  datatype Option<T> = None | Some(value: T)

  /** A stored `resourceId`. Besides ordinary integers it can hold JavaScript's
      `-Infinity`, which is what `Math.max()` of no arguments yields and what
      adding one to it leaves unchanged. */
  datatype RId = NegInfinity | Finite(n: int)

  /** A contact document. `key` is the store-internal identity (Mongoose's `_id`),
      distinct from the externally addressed `resourceId`. A field that is `None`
      is absent (`undefined` or `null`). */
  datatype Contact = Contact(key: nat, name: Option<string>, number: Option<string>, resourceId: Option<RId>)

  /** What a request body says about `resourceId`: no such key, an explicit
      `null`, or an integer. */
  datatype BodyId = Unset | Null | Given(n: int)

  /** A parsed JSON request body, restricted to the fields the schema knows. */
  datatype Body = Body(name: Option<string>, number: Option<string>, resourceId: BodyId)

  /** `true` when every contact carries a `resourceId`. */
  predicate IdsPresent(cs: seq<Contact>)
  {
    forall k :: 0 <= k < |cs| ==> cs[k].resourceId.Some?
  }

  /** The least index whose element satisfies `p`, or -1 when none does. */
  function FindIndex(s: seq<Contact>, p: Contact -> bool): (i: int)
    ensures -1 <= i < |s|
    ensures i == -1 <==> forall k :: 0 <= k < |s| ==> !p(s[k])
    ensures 0 <= i ==> p(s[i]) && forall k :: 0 <= k < i ==> !p(s[k])
  {
    FindIndexFrom(s, p, 0)
  }

  function FindIndexFrom(s: seq<Contact>, p: Contact -> bool, from: nat): (i: int)
    requires from <= |s|
    decreases |s| - from
    ensures i == -1 || from <= i < |s|
    ensures i == -1 <==> forall k :: from <= k < |s| ==> !p(s[k])
    ensures 0 <= i ==> p(s[i]) && forall k :: from <= k < i ==> !p(s[k])
  {
    if from == |s| then -1
    else if p(s[from]) then from
    else FindIndexFrom(s, p, from + 1)
  }
}
