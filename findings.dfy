/**
 Defects of the request handler. For each: the behaviour as written, shown on a
 concrete input, and a corrected definition with the property it was evidently
 meant to have.
 */
module Findings {
  import opened Records
  import opened Schema
  import opened Gateway
  import opened Lookup
  import opened Protocol

  // ---------------------------------------------------------------------------
  // GET by id tests the found index for truthiness.

  /** As written, GET-by-id answers 404 exactly when the match is at the first
      mirror position, answers 200 without a record when nothing matches, and
      answers 200 with the first matching entry when that entry is further on. */
  lemma GetByIdAsWritten(cs: seq<Contact>, id: int)
    ensures GetById(cs, id).status == 404 <==> |cs| > 0 && cs[0].resourceId == Some(Finite(id))
    ensures GetById(cs, id) == Reply(200, None) <==>
              forall k :: 0 <= k < |cs| ==> cs[k].resourceId != Some(Finite(id))
    ensures forall k :: 0 < k < |cs| && cs[k].resourceId == Some(Finite(id)) &&
                        (forall j :: 0 <= j < k ==> cs[j].resourceId != Some(Finite(id))) ==>
                          GetById(cs, id) == Reply(200, Some(cs[k]))
  {
    var idx := FindIdxByID(cs, id);
    if |cs| > 0 && cs[0].resourceId == Some(Finite(id)) {
      assert idx == 0;
    }
  }

  /** A one-entry mirror: the only contact is unreachable, an absent one is "found". */
  lemma FalsyIndexCounterexample()
    ensures var c := Contact(1, Some("Ada"), Some("555-123-4567"), Some(Finite(7)));
      && GetById([c], 7) == Reply(404, None)
      && GetById([c], 8) == Reply(200, None)
      && GetByIdIntended([c], 7) == Reply(200, Some(c))
      && GetByIdIntended([c], 8) == Reply(404, None)
  {
    var c := Contact(1, Some("Ada"), Some("555-123-4567"), Some(Finite(7)));
    GetByIdAsWritten([c], 7);
    GetByIdAsWritten([c], 8);
  }

  /** GET by id tested against the -1 sentinel: 404 exactly when no entry has
      the id, and otherwise the first entry that has it. */
  function GetByIdIntended(cs: seq<Contact>, id: int): (r: Reply)
    ensures r.status == 404 <==> forall k :: 0 <= k < |cs| ==> cs[k].resourceId != Some(Finite(id))
    ensures r.status != 404 ==>
              r.status == 200 && r.record.Some? && r.record.value.resourceId == Some(Finite(id)) &&
              exists k :: 0 <= k < |cs| && cs[k] == r.record.value &&
                          forall j :: 0 <= j < k ==> cs[j].resourceId != Some(Finite(id))
  {
    var idx := FindIdxByID(cs, id);
    if idx == -1 then Reply(404, None) else Reply(200, Some(cs[idx]))
  }

  // ---------------------------------------------------------------------------
  // PUT on an unknown id falls through into the save cycle.

  /** As written, PUT of an unknown id on a closed connection answers 404 but
      opens the connection and leaves it open. */
  lemma PutFallThroughCounterexample(body: Body)
    ensures Put(World([], [], false), 3, body, true) == Step(World([], [], true), 404)
  {
  }

  /** PUT with an early return on the 404, and with the edit made on a copy
      rather than on the mirror entry. */
  function PutIntended(w: World, id: int, body: Body, connectOk: bool): Step
  {
    var idx := FindIdxByID(w.contacts, id);
    if idx == -1 then Step(w, 404)
    else SaveCycle(w, Some(w.contacts[idx].(number := body.number)), false, connectOk)
  }

  /** The corrected PUT changes nothing unless it succeeds: an unknown id leaves
      the whole state as it was, and a failed save leaves mirror and store alone. */
  lemma PutIntendedEffect(w: World, id: int, body: Body, connectOk: bool)
    ensures FindIdxByID(w.contacts, id) == -1 ==> PutIntended(w, id, body, connectOk) == Step(w, 404)
    ensures var st := PutIntended(w, id, body, connectOk);
      st.status != 200 ==> st.world.contacts == w.contacts && st.world.store == w.store
    ensures var st := PutIntended(w, id, body, connectOk);
      st.status == 200 ==> st.world.contacts == st.world.store && !st.world.connected
  {
    var idx := FindIdxByID(w.contacts, id);
    if idx != -1 {
      SaveCycleEffect(w, Some(w.contacts[idx].(number := body.number)), false, connectOk);
    }
  }

  // ---------------------------------------------------------------------------
  // POST and PUT edit the mirror entry before the store accepts the edit.

  /** As written, POST of an existing name with a number the validator refuses
      answers 500, yet the mirror now serves the refused number while the store
      keeps the old one. */
  lemma InPlaceEditCounterexample()
    ensures var c := Contact(1, Some("Ada"), Some("555-123-4567"), Some(Finite(7)));
      var st := Post(World([c], [c], false), Body(Some("Ada"), Some("none"), Unset), true);
      && st.status == 500
      && st.world.store == [c]
      && st.world.contacts == [c.(number := Some("none"))]
      && st.world.contacts != st.world.store
  {
    var c := Contact(1, Some("Ada"), Some("555-123-4567"), Some(Finite(7)));
    assert FindIdxByName([c], Some("Ada")) == 0;
    assert !PhoneValidator("none");
    assert [c][0 := c.(number := Some("none"))] == [c.(number := Some("none"))];
  }

  /** `nextId` fixed to allocate 1 when the mirror has no finite identifier to
      exceed; otherwise it is one more than the largest, as before. */
  function NextIdIntended(cs: seq<Contact>): (r: int)
    requires IdsPresent(cs)
    ensures forall k :: 0 <= k < |cs| && cs[k].resourceId.value.Finite? ==> cs[k].resourceId.value.n < r
    ensures (exists k :: 0 <= k < |cs| && cs[k].resourceId.value.Finite?) ==>
              exists k :: 0 <= k < |cs| && cs[k].resourceId == Some(Finite(r - 1))
    ensures (forall k :: 0 <= k < |cs| ==> !cs[k].resourceId.value.Finite?) ==> r == 1
    ensures cs == [] ==> r == 1
  {
    match NextId(cs)
    case NegInfinity => 1
    case Finite(n) => n
  }

  /** The document for an unseen name, with the allocated identifier always used. */
  function NewDocumentIntended(cs: seq<Contact>, body: Body, key: nat): Contact
    requires IdsPresent(cs)
  {
    Contact(key, body.name, body.number, Some(Finite(NextIdIntended(cs))))
  }

  /** POST with the edit made on a copy and the corrected new document. */
  function PostIntended(w: World, body: Body, connectOk: bool): Step
    requires IdsPresent(w.contacts)
  {
    var idx := FindIdxByName(w.contacts, body.name);
    if idx == -1 then
      SaveCycle(w, Some(NewDocumentIntended(w.contacts, body, FreshKey(w.store))), true, connectOk)
    else
      SaveCycle(w, Some(w.contacts[idx].(number := body.number)), false, connectOk)
  }

  /** The corrected POST writes the mirror only through a resync: a failed POST
      leaves mirror and store as they were, a successful one leaves them equal. */
  lemma PostIntendedEffect(w: World, body: Body, connectOk: bool)
    requires IdsPresent(w.contacts)
    ensures var st := PostIntended(w, body, connectOk);
      && (st.status != 200 ==> st.status == 500 && st.world.contacts == w.contacts && st.world.store == w.store)
      && (st.status == 200 ==> st.world.contacts == st.world.store && !st.world.connected)
  {
    var idx := FindIdxByName(w.contacts, body.name);
    if idx == -1 {
      SaveCycleEffect(w, Some(NewDocumentIntended(w.contacts, body, FreshKey(w.store))), true, connectOk);
    } else {
      SaveCycleEffect(w, Some(w.contacts[idx].(number := body.number)), false, connectOk);
    }
  }

  // ---------------------------------------------------------------------------
  // The body is spread after the allocated identifier.

  /** As written, a `resourceId` in the body replaces the allocated one: next to
      a contact with id 7, POST of a new name with id 3 stores id 3, not 8. */
  lemma BodyIdOverridesAllocation()
    ensures var c := Contact(1, Some("Ada"), Some("555-123-4567"), Some(Finite(7)));
      var d := Contact(2, Some("Bob"), Some("555-000-1111"), Some(Finite(3)));
      var st := Post(World([c], [c], false), Body(Some("Bob"), Some("555-000-1111"), Given(3)), true);
      && NextId([c]) == Finite(8)
      && st.status == 200
      && st.world.store == [c, d]
  {
    var c := Contact(1, Some("Ada"), Some("555-123-4567"), Some(Finite(7)));
    var d := Contact(2, Some("Bob"), Some("555-000-1111"), Some(Finite(3)));
    assert FindIdxByName([c], Some("Bob")) == -1;
    assert FreshKey([c]) == 2;
    assert NewDocument([c], Body(Some("Bob"), Some("555-000-1111"), Given(3)), 2) == d;
    assert PhoneAt("555-000-1111", 0);
    assert ValidRecord(d);
    assert !IdTaken([c], d);
    assert KeyIndex([c], 2) == -1;
    assert [c] + [d] == [c, d];
  }

  /** The corrected new document never collides with an identifier in the
      mirror, so in a synchronised state its save is never refused as a duplicate. */
  lemma NewDocumentIntendedFresh(w: World, body: Body)
    requires Inv(w) && w.contacts == w.store
    ensures var d := NewDocumentIntended(w.contacts, body, FreshKey(w.store));
      && (forall k :: 0 <= k < |w.contacts| ==> w.contacts[k].resourceId != d.resourceId)
      && !IdTaken(w.store, d)
  {
    var d := NewDocumentIntended(w.contacts, body, FreshKey(w.store));
    forall k | 0 <= k < |w.contacts| ensures w.contacts[k].resourceId != d.resourceId {
      if w.contacts[k].resourceId.value.Finite? {
        assert w.contacts[k].resourceId.value.n < NextIdIntended(w.contacts);
      }
    }
  }

  // ---------------------------------------------------------------------------
  // `nextId` on an empty mirror.

  /** As written, the first new name on an empty collection is stored with
      `resourceId` -Infinity, and so is every later one, which the unique index
      then refuses: after the first POST no new name can be added. */
  lemma EmptyCollectionCounterexample()
    ensures var ada := Body(Some("Ada"), Some("555-123-4567"), Unset);
      var bob := Body(Some("Bob"), Some("555-000-1111"), Unset);
      var first := Post(World([], [], false), ada, true);
      var second := Post(first.world, bob, true);
      && first.status == 200
      && first.world.store == [Contact(1, Some("Ada"), Some("555-123-4567"), Some(NegInfinity))]
      && second.status == 500
      && second.world.store == first.world.store
  {
    var ada := Body(Some("Ada"), Some("555-123-4567"), Unset);
    var bob := Body(Some("Bob"), Some("555-000-1111"), Unset);
    var a := Contact(1, Some("Ada"), Some("555-123-4567"), Some(NegInfinity));
    var b := Contact(2, Some("Bob"), Some("555-000-1111"), Some(NegInfinity));
    assert NewDocument([], ada, FreshKey([])) == a;
    assert PhoneAt("555-123-4567", 0);
    assert ValidRecord(a);
    var first := Post(World([], [], false), ada, true);
    assert first.world == World([a], [a], false);
    assert FindIdxByName([a], Some("Bob")) == -1;
    assert FreshKey([a]) == 2;
    assert NextId([a]) == NegInfinity;
    assert NewDocument([a], bob, 2) == b;
    assert PhoneAt("555-000-1111", 0);
    assert ValidRecord(b);
    assert IdTaken([a], b);
  }

  /** Corrected, the first contact of an empty collection gets `resourceId` 1:
      the mirror then holds exactly that record. */
  lemma PostIntendedOnEmptyStore(name: string, number: string)
    requires |name| > 0 && PhoneValidator(number)
    ensures var st := PostIntended(World([], [], false), Body(Some(name), Some(number), Unset), true);
      && st.status == 200
      && st.world.contacts == [Contact(1, Some(name), Some(number), Some(Finite(1)))]
      && st.world.store == st.world.contacts
  {
    var d := Contact(1, Some(name), Some(number), Some(Finite(1)));
    assert NewDocumentIntended([], Body(Some(name), Some(number), Unset), FreshKey([])) == d;
    assert ValidRecord(d);
  }
}
