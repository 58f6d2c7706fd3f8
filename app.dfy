/**
 The running service: one object holding the in-memory mirror, the stored
 collection behind the gateway, and the connection flag. Gateway operations and
 route handlers are methods that change these fields step by step, in the order
 the handlers perform their calls. The route handlers and `SyncContacts` are
 proved to produce the transition that `Protocol` states; the gateway methods
 are stated against the `Gateway` functions or directly on the fields.
 */
module App {
  import opened Records
  import opened Schema
  import opened Gateway
  import opened Lookup
  import Protocol
  import Findings

  class ContactApp {
    /** The mirror every read is served from. */
    var contacts: seq<Contact>
    /** The durable collection. */
    var store: seq<Contact>
    /** Whether the store connection is established. */
    var connected: bool

    function State(): Protocol.World
      reads this
    {
      Protocol.World(contacts, store, connected)
    }

    ghost predicate Valid()
      reads this
    {
      Protocol.Inv(State())
    }

    /** Process start: an empty mirror, then the initial `syncContacts()`. */
    constructor (initial: seq<Contact>, connectOk: bool)
      requires StoreOk(initial)
      ensures Valid()
      ensures State() == Protocol.Sync(Protocol.World([], initial, false), false, connectOk)
    {
      contacts := [];
      store := initial;
      connected := false;
      new;
      SyncContacts(false, connectOk);
    }

    // -------------------------------------------------------------------------
    // Gateway

    /** `connect`: a failure is logged and swallowed, so nothing is returned. */
    method Connect(ok: bool)
      modifies this`connected
      ensures connected == (old(connected) || ok)
    {
      if ok {
        connected := true;
      }
    }

    method CloseConnection()
      modifies this`connected
      ensures !connected
    {
      connected := false;
    }

    /** `getAllContacts`: every stored record, and the store is not modified. */
    method GetAllContacts() returns (r: Result<seq<Contact>>)
      ensures r.Ok? <==> connected
      ensures r.Ok? ==> r.value == store
    {
      r := FindAll(store, connected);
    }

    /** `updateContact`: a failed save is passed on to the caller and writes nothing. */
    method UpdateContact(doc: Option<Contact>, isNew: bool) returns (r: Result<()>)
      requires Valid()
      modifies this`store
      ensures Valid()
      ensures var saved := Gateway.UpdateContact(old(store), doc, isNew, connected);
        && (r.Ok? <==> saved.Ok?)
        && (r.Err? ==> r.failure == saved.failure)
        && store == (if saved.Ok? then saved.value else old(store))
    {
      var saved := Gateway.UpdateContact(store, doc, isNew, connected);
      if saved.Err? {
        return Err(saved.failure);
      }
      SaveKeepsStoreOk(store, doc.value, isNew, connected);
      store := saved.value;
      r := Ok(());
    }

    /** `saveContact`: the same save, but a failure is logged and swallowed. */
    method SaveContact(doc: Option<Contact>, isNew: bool)
      requires Valid()
      modifies this`store
      ensures Valid()
      ensures var saved := Gateway.UpdateContact(old(store), doc, isNew, connected);
        store == (if saved.Ok? then saved.value else old(store))
    {
      var _ := UpdateContact(doc, isNew);
    }

    /** `deleteContact`. */
    method DeleteContact(doc: Contact) returns (r: Result<()>)
      requires Valid()
      modifies this`store
      ensures Valid()
      ensures (r.Ok? <==> connected) && (r.Err? ==> r.failure == NotConnected)
      ensures store == (if connected then DeleteOne(old(store), doc) else old(store))
    {
      if !connected {
        return Err(NotConnected);
      }
      DeleteOneKeepsStoreOk(store, doc);
      store := DeleteOne(store, doc);
      r := Ok(());
    }

    // -------------------------------------------------------------------------
    // Mirror

    /** `syncContacts(alreadyConnected)`. */
    method SyncContacts(alreadyConnected: bool, connectOk: bool)
      requires Valid()
      modifies this
      ensures Valid()
      ensures State() == Protocol.Sync(old(State()), alreadyConnected, connectOk)
    {
      if !alreadyConnected {
        Connect(connectOk);
      }
      var data := GetAllContacts();
      if data.Err? {
        return;
      }
      StoreOkIdsPresent(store);
      contacts := data.value;
      if !alreadyConnected {
        CloseConnection();
      }
    }

    // -------------------------------------------------------------------------
    // Routes

    /** GET `/api/contacts`: the mirror as it is; the store is not consulted. */
    method GetAll() returns (status: int, body: seq<Contact>)
      ensures status == 200 && body == contacts
    {
      status, body := 200, contacts;
    }

    /** GET `/api/contacts/:id`, with the truthiness test on the found index. */
    method GetById(id: int) returns (status: int, record: Option<Contact>)
      ensures Protocol.Reply(status, record) == Protocol.GetById(contacts, id)
      ensures status == 404 <==> |contacts| > 0 && contacts[0].resourceId == Some(Finite(id))
      ensures status == 200 && record.None? <==>
                forall k :: 0 <= k < |contacts| ==> contacts[k].resourceId != Some(Finite(id))
      ensures forall k :: 0 < k < |contacts| && contacts[k].resourceId == Some(Finite(id)) &&
                          (forall j :: 0 <= j < k ==> contacts[j].resourceId != Some(Finite(id))) ==>
                            status == 200 && record == Some(contacts[k])
    {
      Findings.GetByIdAsWritten(contacts, id);
      var idx := FindIdxByID(contacts, id);
      if idx != 0 {
        status := 200;
        record := if idx >= 0 then Some(contacts[idx]) else None;
      } else {
        status := 404;
        record := None;
      }
    }

    /** The `try` block POST and PUT share. */
    method SaveCycle(doc: Option<Contact>, isNew: bool, connectOk: bool) returns (status: int)
      requires Valid()
      modifies this
      ensures Valid()
      ensures Protocol.Step(State(), status) == Protocol.SaveCycle(old(State()), doc, isNew, connectOk)
    {
      Connect(connectOk);
      var r := UpdateContact(doc, isNew);
      if r.Err? {
        return 500;
      }
      SyncContacts(true, connectOk);
      CloseConnection();
      status := 200;
    }

    /** POST `/api/contacts`. */
    method Post(body: Body, connectOk: bool) returns (status: int)
      requires Valid()
      modifies this
      ensures Valid()
      ensures Protocol.Step(State(), status) == Protocol.Post(old(State()), body, connectOk)
    {
      var idx := FindIdxByName(contacts, body.name);
      var doc: Contact;
      var isNew: bool;
      if idx == -1 {
        doc := Protocol.NewDocument(contacts, body, FreshKey(store));
        isNew := true;
      } else {
        contacts := contacts[idx := contacts[idx].(number := body.number)];
        doc := contacts[idx];
        isNew := false;
      }
      status := SaveCycle(Some(doc), isNew, connectOk);
    }

    /** PUT `/api/contacts/:id`. */
    method Put(id: int, body: Body, connectOk: bool) returns (status: int)
      requires Valid()
      modifies this
      ensures Valid()
      ensures Protocol.Step(State(), status) == Protocol.Put(old(State()), id, body, connectOk)
    {
      var idx := FindIdxByID(contacts, id);
      var doc: Option<Contact>;
      if idx == -1 {
        status := 404;
        doc := None;
      } else {
        contacts := contacts[idx := contacts[idx].(number := body.number)];
        doc := Some(contacts[idx]);
      }
      var cycle := SaveCycle(doc, false, connectOk);
      if idx != -1 {
        status := cycle;
      }
    }

    /** DELETE `/api/contacts/:id`. */
    method Delete(id: int, connectOk: bool) returns (status: int)
      requires Valid()
      modifies this
      ensures Valid()
      ensures Protocol.Step(State(), status) == Protocol.Delete(old(State()), id, connectOk)
    {
      var idx := FindIdxByID(contacts, id);
      if idx == -1 {
        return 404;
      }
      Connect(connectOk);
      var r := DeleteContact(contacts[idx]);
      if r.Err? {
        return 500;
      }
      SyncContacts(true, connectOk);
      CloseConnection();
      status := 200;
    }
  }
}
