/**
 The request handler as transitions of the whole service state: the in-memory
 mirror, the stored collection and the connection flag. Each handler is one
 atomic step; its connect, store operation, resync and disconnect happen in the
 order the handler performs them, and the HTTP status is the one the client sees.
 The handlers follow the code as it is written, defects included.
 */
module Protocol {
  import opened Records
  import opened Schema
  import opened Gateway
  import opened Lookup

  datatype World = World(contacts: seq<Contact>, store: seq<Contact>, connected: bool)

  /** A handler's outcome: the state after it and the status it answered with. */
  datatype Step = Step(world: World, status: int)

  /** A GET-by-id answer: the status and the JSON record, if any was sent. */
  datatype Reply = Reply(status: int, record: Option<Contact>)

  /** The store is well formed, and every mirror entry carries a `resourceId`
      (the mirror only ever holds fetched documents, with `number` edited). */
  predicate Inv(w: World)
  {
    StoreOk(w.store) && IdsPresent(w.contacts)
  }

  /** `connect`: never raises. On failure the error is only logged and the
      connection stays as it was; connecting an open connection keeps it open. */
  function Connect(w: World, ok: bool): (r: World)
    ensures r.contacts == w.contacts && r.store == w.store
    ensures w.connected ==> r.connected
    ensures ok ==> r.connected
    ensures !ok ==> r.connected == w.connected
  {
    w.(connected := w.connected || ok)
  }

  /** `closeConnection`. */
  function CloseConnection(w: World): (r: World)
    ensures r.contacts == w.contacts && r.store == w.store && !r.connected
  {
    w.(connected := false)
  }

  /** `syncContacts(alreadyConnected)`: connect unless the caller already did,
      fetch everything, replace the mirror, and disconnect unless the caller
      connected. A failed fetch is caught and logged: the mirror is kept. */
  function Sync(w: World, alreadyConnected: bool, connectOk: bool): (r: World)
    ensures r.store == w.store
  {
    var w1 := if alreadyConnected then w else Connect(w, connectOk);
    match FindAll(w1.store, w1.connected)
    case Err(_) => w1
    case Ok(data) =>
      var w2 := w1.(contacts := data);
      if alreadyConnected then w2 else CloseConnection(w2)
  }

  /** GET `/api/contacts/:id`, as written: the found index is tested for
      truthiness, so index 0 answers 404 and index -1 answers 200 with
      `contacts[-1]`, which is `undefined` and sends no record. */
  function GetById(cs: seq<Contact>, id: int): (r: Reply)
    ensures r.status == 200 || r.status == 404
    ensures r.status == 404 ==> r.record.None?
    ensures r.record.Some? ==> r.record.value in cs && r.record.value.resourceId == Some(Finite(id))
  {
    var idx := FindIdxByID(cs, id);
    if idx != 0 then Reply(200, if idx >= 0 then Some(cs[idx]) else None)
    else Reply(404, None)
  }

  /** The document POST builds for an unseen name: `{ resourceId: nextId(), ...body }`.
      The body is spread second, so a `resourceId` in it replaces the allocated one. */
  function NewDocument(cs: seq<Contact>, body: Body, key: nat): (d: Contact)
    requires IdsPresent(cs)
    ensures d.key == key && d.name == body.name && d.number == body.number
    ensures body.resourceId.Unset? ==> d.resourceId == Some(NextId(cs))
    ensures body.resourceId.Null? ==> d.resourceId.None?
    ensures body.resourceId.Given? ==> d.resourceId == Some(Finite(body.resourceId.n))
  {
    var nextId := NextId(cs);
    var resourceId :=
      match body.resourceId
      case Unset => Some(nextId)
      case Null => None
      case Given(n) => Some(Finite(n));
    Contact(key, body.name, body.number, resourceId)
  }

  /** The `try` block POST and PUT share: connect, `updateContact`, resync on the
      open connection, disconnect, answer 200; any exception answers 500 and skips
      the rest, leaving the connection as it is. */
  function SaveCycle(w: World, doc: Option<Contact>, isNew: bool, connectOk: bool): Step
  {
    var w1 := Connect(w, connectOk);
    match UpdateContact(w1.store, doc, isNew, w1.connected)
    case Err(_) => Step(w1, 500)
    case Ok(s) => Step(CloseConnection(Sync(w1.(store := s), true, connectOk)), 200)
  }

  /** POST `/api/contacts`: an upsert by name. An existing entry has its `number`
      set on the mirror itself before anything is saved. */
  function Post(w: World, body: Body, connectOk: bool): Step
    requires IdsPresent(w.contacts)
  {
    var idx := FindIdxByName(w.contacts, body.name);
    if idx == -1 then
      SaveCycle(w, Some(NewDocument(w.contacts, body, FreshKey(w.store))), true, connectOk)
    else
      var edited := w.contacts[idx].(number := body.number);
      SaveCycle(w.(contacts := w.contacts[idx := edited]), Some(edited), false, connectOk)
  }

  /** PUT `/api/contacts/:id`. An unknown id answers 404 and then still runs the
      `try` block with no document; the client keeps the 404. */
  function Put(w: World, id: int, body: Body, connectOk: bool): Step
  {
    var idx := FindIdxByID(w.contacts, id);
    if idx == -1 then
      Step(SaveCycle(w, None, false, connectOk).world, 404)
    else
      var edited := w.contacts[idx].(number := body.number);
      SaveCycle(w.(contacts := w.contacts[idx := edited]), Some(edited), false, connectOk)
  }

  /** DELETE `/api/contacts/:id`: an unknown id answers 404 before any connection. */
  function Delete(w: World, id: int, connectOk: bool): Step
  {
    var idx := FindIdxByID(w.contacts, id);
    if idx == -1 then Step(w, 404)
    else
      var w1 := Connect(w, connectOk);
      match DeleteContact(w1.store, w.contacts[idx], w1.connected)
      case Err(_) => Step(w1, 500)
      case Ok(s) => Step(CloseConnection(Sync(w1.(store := s), true, connectOk)), 200)
  }

  // ---------------------------------------------------------------------------
  // Resynchronisation

  /** Resync never writes the store. When the fetch succeeds the mirror becomes
      exactly the stored collection, whatever it held before; when it fails the
      mirror is untouched. Called with `true` it leaves the connection alone;
      called with `false` it connects first and leaves the connection closed. */
  lemma SyncEffect(w: World, alreadyConnected: bool, connectOk: bool)
    ensures var w' := Sync(w, alreadyConnected, connectOk);
      var fetched := if alreadyConnected then w.connected else w.connected || connectOk;
      && w'.store == w.store
      && (fetched ==> w'.contacts == w.store)
      && (!fetched ==> w'.contacts == w.contacts)
      && (alreadyConnected ==> w'.connected == w.connected)
      && (!alreadyConnected ==> !w'.connected)
  {
  }

  lemma SyncKeepsInv(w: World, alreadyConnected: bool, connectOk: bool)
    requires Inv(w)
    ensures Inv(Sync(w, alreadyConnected, connectOk))
  {
    StoreOkIdsPresent(w.store);
  }

  // ---------------------------------------------------------------------------
  // The save cycle

  /** A cycle answers 200 exactly when there is a document and its save
      succeeds; it then ends disconnected with the mirror equal to the store. One
      that answers 500 wrote nothing and left the mirror alone. */
  lemma SaveCycleEffect(w: World, doc: Option<Contact>, isNew: bool, connectOk: bool)
    ensures var st := SaveCycle(w, doc, isNew, connectOk);
      && (st.status == 200 || st.status == 500)
      && (st.status == 200 <==> doc.Some? && Save(w.store, doc.value, isNew, w.connected || connectOk).Ok?)
      && (st.status == 200 ==>
            && doc.Some?
            && st.world.store == Save(w.store, doc.value, isNew, w.connected || connectOk).value
            && st.world.contacts == st.world.store
            && !st.world.connected)
      && (st.status == 500 ==>
            st.world == w.(connected := w.connected || connectOk))
  {
  }

  lemma SaveCycleKeepsInv(w: World, doc: Option<Contact>, isNew: bool, connectOk: bool)
    requires Inv(w)
    ensures Inv(SaveCycle(w, doc, isNew, connectOk).world)
  {
    var w1 := Connect(w, connectOk);
    var r := UpdateContact(w1.store, doc, isNew, w1.connected);
    if r.Ok? {
      SaveKeepsStoreOk(w1.store, doc.value, isNew, w1.connected);
      StoreOkIdsPresent(r.value);
    }
  }

  /** Setting `number` on one entry keeps every `resourceId` of the mirror. */
  lemma EditKeepsIds(cs: seq<Contact>, idx: int, number: Option<string>)
    requires IdsPresent(cs) && 0 <= idx < |cs|
    ensures IdsPresent(cs[idx := cs[idx].(number := number)])
  {
  }

  // ---------------------------------------------------------------------------
  // POST

  lemma PostKeepsInv(w: World, body: Body, connectOk: bool)
    requires Inv(w)
    ensures Inv(Post(w, body, connectOk).world)
  {
    var idx := FindIdxByName(w.contacts, body.name);
    if idx == -1 {
      SaveCycleKeepsInv(w, Some(NewDocument(w.contacts, body, FreshKey(w.store))), true, connectOk);
    } else {
      var edited := w.contacts[idx].(number := body.number);
      EditKeepsIds(w.contacts, idx, body.number);
      SaveCycleKeepsInv(w.(contacts := w.contacts[idx := edited]), Some(edited), false, connectOk);
    }
  }

  /** POST of an unseen name inserts the body's fields under a fresh store
      identity, with `resourceId` from `nextId` unless the body carries one. It
      succeeds exactly when the connection comes up, the record validates and its
      `resourceId` is free; then the store and the mirror hold one more record. */
  lemma PostNewName(w: World, body: Body, connectOk: bool)
    requires Inv(w)
    requires FindIdxByName(w.contacts, body.name) == -1
    ensures var doc := NewDocument(w.contacts, body, FreshKey(w.store));
      var st := Post(w, body, connectOk);
      && doc.name == body.name && doc.number == body.number
      && (body.resourceId.Unset? ==> doc.resourceId == Some(NextId(w.contacts)))
      && (body.resourceId.Given? ==> doc.resourceId == Some(Finite(body.resourceId.n)))
      && (st.status == 200 <==> (w.connected || connectOk) && ValidRecord(doc) && !IdTaken(w.store, doc))
      && (st.status == 200 ==>
            st.world.store == w.store + [doc] && st.world.contacts == st.world.store &&
            |st.world.contacts| == |w.store| + 1)
      && (st.status != 200 ==> st.status == 500 && st.world.store == w.store && st.world.contacts == w.contacts)
  {
    var doc := NewDocument(w.contacts, body, FreshKey(w.store));
    assert KeyIndex(w.store, doc.key) == -1;
  }

  /** In a synchronised state, the save of an edited entry replaces exactly its
      stored record: the store identity and the `resourceId` are already the
      entry's own, so only the phone rule and the connection decide. */
  lemma SaveEditedEntry(store: seq<Contact>, idx: int, number: Option<string>, connected: bool)
    requires StoreOk(store) && 0 <= idx < |store|
    ensures var edited := store[idx].(number := number);
      && (Save(store, edited, false, connected).Ok? <==>
            connected && Present(number) && PhoneValidator(number.value))
      && (Save(store, edited, false, connected).Ok? ==>
            Save(store, edited, false, connected).value == store[idx := edited])
  {
    var edited := store[idx].(number := number);
    assert ValidRecord(store[idx]);
    assert KeyIndex(store, edited.key) == idx by {
      var j := KeyIndex(store, edited.key);
      assert j != -1 by { assert store[idx].key == edited.key; }
    }
    assert !IdTaken(store, edited) by {
      forall i | 0 <= i < |store| && store[i].key != edited.key
        ensures store[i].resourceId != edited.resourceId
      {
        assert i != idx;
      }
    }
  }

  /** POST of an existing name in a synchronised state only changes that
      record's `number`: no identifier is allocated and the count is unchanged.
      It succeeds exactly when the connection comes up and the new number passes
      the phone rule. */
  lemma PostExistingName(w: World, body: Body, connectOk: bool)
    requires Inv(w) && w.contacts == w.store
    requires FindIdxByName(w.contacts, body.name) != -1
    ensures var idx := FindIdxByName(w.contacts, body.name);
      var st := Post(w, body, connectOk);
      && (st.status == 200 <==>
            (w.connected || connectOk) && Present(body.number) && PhoneValidator(body.number.value))
      && (st.status == 200 ==>
            && st.world.store == w.store[idx := w.store[idx].(number := body.number)]
            && |st.world.store| == |w.store|
            && st.world.store[idx].resourceId == w.store[idx].resourceId
            && st.world.contacts == st.world.store)
  {
    var idx := FindIdxByName(w.contacts, body.name);
    SaveEditedEntry(w.store, idx, body.number, w.connected || connectOk);
  }

  /** The in-place edit: when the save that follows it fails, the mirror already
      holds the new number while the store still holds the old one. */
  lemma PostExistingNameFailure(w: World, body: Body, connectOk: bool)
    requires IdsPresent(w.contacts)
    requires FindIdxByName(w.contacts, body.name) != -1
    requires Post(w, body, connectOk).status != 200
    ensures var idx := FindIdxByName(w.contacts, body.name);
      var st := Post(w, body, connectOk);
      && st.status == 500
      && st.world.store == w.store
      && st.world.contacts == w.contacts[idx := w.contacts[idx].(number := body.number)]
      && st.world.contacts[idx].number == body.number
  {
  }

  // ---------------------------------------------------------------------------
  // PUT

  lemma PutKeepsInv(w: World, id: int, body: Body, connectOk: bool)
    requires Inv(w)
    ensures Inv(Put(w, id, body, connectOk).world)
  {
    var idx := FindIdxByID(w.contacts, id);
    if idx == -1 {
      SaveCycleKeepsInv(w, None, false, connectOk);
    } else {
      var edited := w.contacts[idx].(number := body.number);
      EditKeepsIds(w.contacts, idx, body.number);
      SaveCycleKeepsInv(w.(contacts := w.contacts[idx := edited]), Some(edited), false, connectOk);
    }
  }

  /** PUT of an unknown id answers 404 and writes nothing: the save of the
      missing document fails before any write or resync. The connection it opens
      on the way is left open. */
  lemma PutUnknownId(w: World, id: int, body: Body, connectOk: bool)
    requires FindIdxByID(w.contacts, id) == -1
    ensures var st := Put(w, id, body, connectOk);
      && st.status == 404
      && st.world.store == w.store
      && st.world.contacts == w.contacts
      && st.world.connected == (w.connected || connectOk)
  {
  }

  /** PUT of a known id in a synchronised state replaces that record's number,
      and succeeds exactly when the connection comes up and the number passes
      the phone rule. A failed save leaves the store as it was, the edit in the
      mirror and the connection as the connect left it. */
  lemma PutKnownId(w: World, id: int, body: Body, connectOk: bool)
    requires Inv(w) && w.contacts == w.store
    requires FindIdxByID(w.contacts, id) != -1
    ensures var idx := FindIdxByID(w.contacts, id);
      var st := Put(w, id, body, connectOk);
      && (st.status == 200 <==>
            (w.connected || connectOk) && Present(body.number) && PhoneValidator(body.number.value))
      && (st.status == 200 ==>
            st.world.store == w.store[idx := w.store[idx].(number := body.number)] &&
            st.world.contacts == st.world.store)
      && (st.status != 200 ==>
            st.status == 500 &&
            st.world == World(w.contacts[idx := w.contacts[idx].(number := body.number)],
                              w.store, w.connected || connectOk))
  {
    var idx := FindIdxByID(w.contacts, id);
    SaveEditedEntry(w.store, idx, body.number, w.connected || connectOk);
  }

  // ---------------------------------------------------------------------------
  // DELETE

  lemma DeleteKeepsInv(w: World, id: int, connectOk: bool)
    requires Inv(w)
    ensures Inv(Delete(w, id, connectOk).world)
  {
    var idx := FindIdxByID(w.contacts, id);
    if idx != -1 {
      DeleteOneKeepsStoreOk(w.store, w.contacts[idx]);
      StoreOkIdsPresent(DeleteOne(w.store, w.contacts[idx]));
    }
  }

  /** DELETE of an unknown id answers 404 and changes nothing, not even the connection. */
  lemma DeleteUnknownId(w: World, id: int, connectOk: bool)
    requires FindIdxByID(w.contacts, id) == -1
    ensures Delete(w, id, connectOk) == Step(w, 404)
  {
  }

  /** DELETE of a known id in a synchronised state succeeds exactly when the
      connection comes up; then the record is gone from the store, no stored
      record has that id, there is one record fewer, and the mirror equals the
      store. A failed DELETE writes nothing. */
  lemma DeleteKnownId(w: World, id: int, connectOk: bool)
    requires Inv(w) && w.contacts == w.store
    requires FindIdxByID(w.contacts, id) != -1
    ensures var idx := FindIdxByID(w.contacts, id);
      var st := Delete(w, id, connectOk);
      && (st.status == 200 <==> w.connected || connectOk)
      && (st.status == 200 ==>
            && st.world.store == w.store[..idx] + w.store[idx + 1..]
            && |st.world.store| == |w.store| - 1
            && (forall k :: 0 <= k < |st.world.store| ==> st.world.store[k].resourceId != Some(Finite(id)))
            && st.world.contacts == st.world.store
            && !st.world.connected)
      && (st.status != 200 ==> st.status == 500 && st.world.store == w.store && st.world.contacts == w.contacts)
  {
    var idx := FindIdxByID(w.contacts, id);
    var doc := w.store[idx];
    DeleteOneByIdentity(w.store, idx, doc);
    DeleteOneKeepsStoreOk(w.store, doc);
  }

  /** DELETE of a mirror entry that no longer equals its stored record (after an
      in-place edit to a new number whose save failed) answers 200 yet removes
      nothing: every field of the entry is present, so the filter demands the
      edited number. */
  lemma DeleteOfDivergedEntry(w: World, id: int, connectOk: bool)
    requires FindIdxByID(w.contacts, id) != -1
    requires var e := w.contacts[FindIdxByID(w.contacts, id)];
      e.name.Some? && e.number.Some? && e.resourceId.Some? && e !in w.store
    requires w.connected || connectOk
    ensures var st := Delete(w, id, connectOk);
      st.status == 200 && st.world.store == w.store && st.world.contacts == w.store
  {
    var e := w.contacts[FindIdxByID(w.contacts, id)];
    forall k | 0 <= k < |w.store| ensures !Matches(w.store[k], e) {
      MatchesComplete(w.store[k], e);
    }
    DeleteOneEffect(w.store, e);
  }

  /** DELETE of a mirror entry whose `number` a failed PUT left unset still
      removes its stored record: the unset path is not part of the filter. The
      answer is 200 exactly when the connection comes up. */
  lemma DeleteOfUnsetEntry(w: World, id: int, connectOk: bool)
    requires Inv(w)
    requires FindIdxByID(w.contacts, id) != -1
    requires var idx := FindIdxByID(w.contacts, id);
      idx < |w.store| && w.contacts[idx] == w.store[idx].(number := None)
    ensures var idx := FindIdxByID(w.contacts, id);
      var st := Delete(w, id, connectOk);
      && (st.status == 200 <==> w.connected || connectOk)
      && (st.status == 200 ==> st.world.store == w.store[..idx] + w.store[idx + 1..])
  {
    var idx := FindIdxByID(w.contacts, id);
    DeleteOneByIdentity(w.store, idx, w.contacts[idx]);
  }
}
