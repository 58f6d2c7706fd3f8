/**
 The persistence gateway's view of the document store: the stored collection is a
 sequence in natural (insertion) order, and each gateway operation is a function
 from the collection and the connection state to a result. A store operation
 against a connection that is not established fails, as a buffered Mongoose
 command eventually does.
 */
module Gateway {
  import opened Records
  import opened Schema

  datatype Failure =
    | NotConnected             // the operation never reached an established connection
    | Invalid(paths: set<Path>) // a validation error naming the failing schema paths
    | DuplicateKey             // a unique index (`resourceId` or `_id`) would be violated
    | DocumentNotFound         // an update of a document whose `_id` is no longer stored
    | NoDocument               // `save` called on `undefined`: a TypeError

  datatype Result<T> = Ok(value: T) | Err(failure: Failure)

  /** The position of the stored document with store identity `key`, or -1. */
  function KeyIndex(store: seq<Contact>, key: nat): (i: int)
    ensures -1 <= i < |store|
    ensures i == -1 <==> forall k :: 0 <= k < |store| ==> store[k].key != key
    ensures 0 <= i ==> store[i].key == key
  {
    FindIndex(store, (c: Contact) => c.key == key)
  }

  /** Some other stored document already holds `doc`'s `resourceId`. */
  predicate IdTaken(store: seq<Contact>, doc: Contact)
  {
    exists i :: 0 <= i < |store| && store[i].key != doc.key && store[i].resourceId == doc.resourceId
  }

  /** A store identity no stored document has, standing for the fresh `_id`
      Mongoose assigns when a document is constructed. */
  function FreshKey(store: seq<Contact>): (k: nat)
    ensures forall i :: 0 <= i < |store| ==> store[i].key < k
  {
    if store == [] then 1
    else
      var rest := FreshKey(store[1..]);
      assert forall i :: 1 <= i < |store| ==> store[i] == store[1..][i - 1];
      if store[0].key < rest then rest else store[0].key + 1
  }

  /** `getAllContacts`: a find-all query. */
  function FindAll(store: seq<Contact>, connected: bool): (r: Result<seq<Contact>>)
    ensures r.Ok? <==> connected
    ensures r.Ok? ==> r.value == store
    ensures r.Err? ==> r.failure == NotConnected
  {
    if connected then Ok(store) else Err(NotConnected)
  }

  /** `document.save()`: validate, then insert a new document or replace the
      stored document with the same store identity, subject to the unique indexes. */
  function Save(store: seq<Contact>, doc: Contact, isNew: bool, connected: bool): (r: Result<seq<Contact>>)
  {
    var failed := Validate(doc);
    if failed != {} then Err(Invalid(failed))
    else if !connected then Err(NotConnected)
    else if IdTaken(store, doc) then Err(DuplicateKey)
    else
      var j := KeyIndex(store, doc.key);
      if isNew then
        if j != -1 then Err(DuplicateKey) else Ok(store + [doc])
      else
        if j == -1 then Err(DocumentNotFound) else Ok(store[j := doc])
  }

  /** `updateContact`: `save` on whatever the caller passes, which may be `undefined`. */
  function UpdateContact(store: seq<Contact>, doc: Option<Contact>, isNew: bool, connected: bool): (r: Result<seq<Contact>>)
    ensures doc.None? ==> r == Err(NoDocument)
  {
    match doc
    case None => Err(NoDocument)
    case Some(d) => Save(store, d, isNew, connected)
  }

  /** Mongoose turns a document used as a filter into its plain object, which
      leaves out the paths whose value is `undefined`: a stored document matches
      when it has the filter's store identity and agrees on every field the
      filter has. */
  predicate Matches(c: Contact, filter: Contact)
  {
    && c.key == filter.key
    && (filter.name.Some? ==> c.name == filter.name)
    && (filter.number.Some? ==> c.number == filter.number)
    && (filter.resourceId.Some? ==> c.resourceId == filter.resourceId)
  }

  /** `deleteOne(doc)`: the document is the filter, so the first stored document
      it matches is removed; nothing matching is not an error. */
  function DeleteOne(store: seq<Contact>, doc: Contact): (r: seq<Contact>)
  {
    var i := FindIndex(store, c => Matches(c, doc));
    if i == -1 then store else store[..i] + store[i + 1..]
  }

  /** `deleteContact`. */
  function DeleteContact(store: seq<Contact>, doc: Contact, connected: bool): (r: Result<seq<Contact>>)
    ensures r.Ok? <==> connected
    ensures r.Err? ==> r.failure == NotConnected
    ensures r.Ok? ==> r.value == DeleteOne(store, doc)
  {
    if connected then Ok(DeleteOne(store, doc)) else Err(NotConnected)
  }

  /** `save` succeeds exactly when the document validates, the connection is up,
      no other document holds its `resourceId`, and its store identity is unused
      for an insert or in use for an update. */
  lemma SaveAccepts(store: seq<Contact>, doc: Contact, isNew: bool, connected: bool)
    ensures Save(store, doc, isNew, connected).Ok? <==>
              ValidRecord(doc) && connected && !IdTaken(store, doc) &&
              (isNew <==> forall k :: 0 <= k < |store| ==> store[k].key != doc.key)
    ensures !ValidRecord(doc) ==> Save(store, doc, isNew, connected) == Err(Invalid(Validate(doc)))
  {
  }

  /** The phone rule decides a save whose other conditions all hold. */
  lemma SavePhoneRule(store: seq<Contact>, doc: Contact, isNew: bool)
    requires Present(doc.name) && doc.resourceId.Some? && !IdTaken(store, doc)
    requires isNew <==> forall k :: 0 <= k < |store| ==> store[k].key != doc.key
    ensures Save(store, doc, isNew, true).Ok? <==> Present(doc.number) && PhoneValidator(doc.number.value)
  {
  }

  /** A save that duplicates another stored document's `resourceId` is refused. */
  lemma SaveRefusesDuplicateId(store: seq<Contact>, doc: Contact, isNew: bool, connected: bool, i: int)
    requires 0 <= i < |store| && store[i].key != doc.key && store[i].resourceId == doc.resourceId
    ensures Save(store, doc, isNew, connected).Err?
  {
  }

  /** A successful save leaves the document in the store, inserted or in place
      of the one with its store identity, and no other document changes. */
  lemma SaveEffect(store: seq<Contact>, doc: Contact, isNew: bool, connected: bool)
    requires Unique(store)
    requires Save(store, doc, isNew, connected).Ok?
    ensures var r := Save(store, doc, isNew, connected).value;
      && doc in r
      && |r| == |store| + (if isNew then 1 else 0)
      && (forall c: Contact :: c.key != doc.key ==> (c in r <==> c in store))
      && (forall k :: 0 <= k < |r| && r[k].key == doc.key ==> r[k] == doc)
  {
    var r := Save(store, doc, isNew, connected).value;
    var j := KeyIndex(store, doc.key);
    if isNew {
      assert r == store + [doc];
    } else {
      assert r == store[j := doc] && r[j] == doc;
      forall c: Contact | c.key != doc.key ensures c in r <==> c in store {
        if c in store {
          var k :| 0 <= k < |store| && store[k] == c;
          assert r[k] == c;
        }
      }
    }
  }

  /** The schema's guarantees survive every successful save. */
  lemma SaveKeepsStoreOk(store: seq<Contact>, doc: Contact, isNew: bool, connected: bool)
    requires StoreOk(store)
    requires Save(store, doc, isNew, connected).Ok?
    ensures StoreOk(Save(store, doc, isNew, connected).value)
  {
    var r := Save(store, doc, isNew, connected).value;
    var j := KeyIndex(store, doc.key);
    assert !IdTaken(store, doc);
    if isNew {
      assert r == store + [doc];
      forall a, b | 0 <= a < b < |r|
        ensures r[a].resourceId != r[b].resourceId && r[a].key != r[b].key
      {
        if b == |store| {
          assert r[a] == store[a];
        }
      }
    } else {
      assert r == store[j := doc];
      forall a, b | 0 <= a < b < |r|
        ensures r[a].resourceId != r[b].resourceId && r[a].key != r[b].key
      {
        if a == j {
          assert store[b].key != doc.key;
        } else if b == j {
          assert store[a].key != doc.key;
        }
      }
    }
  }

  /** A filter with every field present matches exactly the equal document. */
  lemma MatchesComplete(c: Contact, filter: Contact)
    requires filter.name.Some? && filter.number.Some? && filter.resourceId.Some?
    ensures Matches(c, filter) <==> c == filter
  {
  }

  /** `deleteOne` removes one document the filter matches if there is one, and
      otherwise nothing; every document the filter does not match stays. */
  lemma DeleteOneEffect(store: seq<Contact>, doc: Contact)
    ensures var r := DeleteOne(store, doc);
      && ((forall k :: 0 <= k < |store| ==> !Matches(store[k], doc)) ==> r == store)
      && ((exists k :: 0 <= k < |store| && Matches(store[k], doc)) ==>
            && |r| == |store| - 1
            && exists m :: m in store && Matches(m, doc) && multiset(r) == multiset(store) - multiset{m})
      && (forall c :: !Matches(c, doc) ==> (c in r <==> c in store))
  {
    var i := FindIndex(store, c => Matches(c, doc));
    if i != -1 {
      var r := DeleteOne(store, doc);
      var m := store[i];
      assert store == store[..i] + [m] + store[i + 1..];
      assert multiset(store) == multiset(store[..i]) + multiset{m} + multiset(store[i + 1..]);
      assert r == store[..i] + store[i + 1..];
      assert multiset(r) == multiset(store) - multiset{m};
      forall c | !Matches(c, doc) ensures c in r <==> c in store {
        assert c != m;
        calc {
          c in r;
          multiset(r)[c] > 0;
          multiset(store)[c] > 0;
          c in store;
        }
      }
    }
  }

  /** The document removed is the first one the filter matches, and the others
      keep their order. */
  lemma DeleteOneRemovesFirst(store: seq<Contact>, doc: Contact)
    requires exists k :: 0 <= k < |store| && Matches(store[k], doc)
    ensures exists i :: 0 <= i < |store| && Matches(store[i], doc) &&
                        (forall j :: 0 <= j < i ==> !Matches(store[j], doc)) &&
                        DeleteOne(store, doc) == store[..i] + store[i + 1..]
  {
    var p := (c: Contact) => Matches(c, doc);
    var i := FindIndex(store, p);
    assert i != -1;
    assert Matches(store[i], doc) by { assert p(store[i]); }
    forall j | 0 <= j < i ensures !Matches(store[j], doc) {
      assert !p(store[j]);
    }
    assert DeleteOne(store, doc) == store[..i] + store[i + 1..];
  }

  /** In a well-formed store, a filter with a record's store identity removes
      exactly that record, even when a field the record has is absent from the
      filter (an entry whose `number` was unset still deletes its record). */
  lemma DeleteOneByIdentity(store: seq<Contact>, i: int, doc: Contact)
    requires StoreOk(store) && 0 <= i < |store|
    requires Matches(store[i], doc)
    ensures DeleteOne(store, doc) == store[..i] + store[i + 1..]
  {
    forall j | 0 <= j < i ensures !Matches(store[j], doc) {
      assert store[j].key != store[i].key;
    }
    var j := FindIndex(store, c => Matches(c, doc));
    assert j != -1 by { assert (c => Matches(c, doc))(store[i]); }
  }

  /** After a delete in a well-formed store the store stays well formed, and
      when the filter matched a record, no document keeps its store identity or
      its `resourceId`. */
  lemma DeleteOneKeepsStoreOk(store: seq<Contact>, doc: Contact)
    requires StoreOk(store)
    ensures StoreOk(DeleteOne(store, doc))
    ensures (exists k :: 0 <= k < |store| && Matches(store[k], doc)) ==>
              forall k :: 0 <= k < |DeleteOne(store, doc)| ==>
                DeleteOne(store, doc)[k].key != doc.key &&
                (doc.resourceId.Some? ==> DeleteOne(store, doc)[k].resourceId != doc.resourceId)
  {
    var i := FindIndex(store, c => Matches(c, doc));
    if i != -1 {
      var r := DeleteOne(store, doc);
      assert forall k :: 0 <= k < |r| ==> r[k] == store[if k < i then k else k + 1];
    }
  }
}
