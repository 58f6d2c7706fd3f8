# Contact service: mirror and store model

A model of the core of a small contact service. The service keeps an in-memory
mirror of a document collection of contacts (name, phone number, numeric
`resourceId`). It serves every read from that mirror. Each mutating request runs
a connect, mutate, resync, disconnect cycle against the store.

The model has seven modules:

- `Records`: the values. These are contact documents, request bodies, resource
  identifiers, and the first-match search (`findIndex`). A `resourceId` can be
  an integer or JavaScript's `-Infinity`.
- `Schema`: the schema's validation rules. `name` is required. `number` is
  required and must pass the unanchored phone validator. `resourceId` is
  required and unique.
- `Gateway`: the store operations as functions of the collection and the
  connection flag: find-all, save (insert or update), `updateContact` and
  delete.
- `Lookup`: `nextId`, `findIdxByName` and `findIdxByID` over the mirror.
- `Protocol`: each route handler and `syncContacts` as one transition of the
  whole state (mirror, store, connection), plus the lemmas about them.
- `Findings`: the source's defects, each shown on a concrete input, beside a
  corrected definition and its property.
- `App`: the class `ContactApp` with the fields `contacts`, `store` and
  `connected`. Its methods change these fields step by step. The route handlers
  and `SyncContacts` are each proved to produce the transition stated in
  `Protocol`. The gateway methods (`Connect`, `CloseConnection`,
  `GetAllContacts`, `UpdateContact`, `SaveContact`, `DeleteContact`) are stated
  against the `Gateway` functions or directly on the fields, and `GetAll`
  directly on the mirror.

The handlers follow the code as written, defects included. The corrected
definitions in `Findings` sit beside them and are not used by `App`.

Environment inputs become parameters. `connectOk` says whether a `connect()`
call reaches the database. A store operation fails in exactly these cases:

- it runs on a connection that is not established;
- the schema's validation refuses the document;
- a unique index (`resourceId` or the store identity) would be violated;
- an update names a document whose store identity is no longer stored
  (`DocumentNotFound`);
- `save` is called on `undefined` (`NoDocument`), which is what PUT of an
  unknown id does.

The store-internal identity (`_id`) is a natural-number `key`. A new document
gets `FreshKey`, which is larger than every stored key.

Where the code departs from what it evidently intends, the model follows the code:

- The phone number check is a substring search. It is not an exact match.
- Looking up the first mirror position answers 404.
- An empty mirror allocates `-Infinity`; it does not start at 1.
- PUT of an unknown id opens a connection and leaves it open.

## Model

| member | source | states |
|---|---|---|
| `Records.FindIndex` | backend/index.js:49-55 | -1 exactly when no element matches; otherwise the least index of a matching element |
| `Schema.PhoneValidator` | backend/database.js:33-35 | accepts a string exactly when three digits, '-', three digits, '-', four digits occur somewhere in it |
| `Schema.PhoneValidatorUnanchored` | backend/database.js:33-35 | text before and after an accepted number does not stop it being accepted |
| `Schema.PhoneValidatorTwelve` | backend/database.js:33-35 | on a 12-character string the validator is the anchored pattern |
| `Schema.PhoneValidatorExamples` | backend/database.js:33-35 | accepts "555-123-4567" and text containing it; refuses "555-1234-567" and "5551234567" |
| `Schema.Validate` | backend/database.js:26-42 | no path fails exactly when name is present and non-empty, number is present, non-empty and passes the validator, and resourceId is present; names each failing path |
| `Schema.StoreOkIdsPresent` | backend/database.js:40 | every record of a well-formed store carries a resourceId |
| `Gateway.KeyIndex` | backend/database.js:65-67 | finds the stored document with a given store identity, or -1 when there is none |
| `Gateway.FreshKey` | backend/index.js:91 | the identity of a newly constructed document differs from every stored one |
| `Gateway.FindAll` | backend/database.js:61-63 | a find-all that returns exactly the stored records when connected and fails with `NotConnected` otherwise |
| `Gateway.Save` | backend/database.js:65-67 | `document.save()` as validation, connection, unique indexes and insert-or-replace; its meaning is stated by `Gateway.SaveAccepts`, `Gateway.SavePhoneRule`, `Gateway.SaveRefusesDuplicateId`, `Gateway.SaveEffect` and `Gateway.SaveKeepsStoreOk` |
| `Gateway.UpdateContact` | backend/database.js:65-67 | a save of `undefined` fails with `NoDocument`; any other document is saved as `Gateway.Save` states |
| `Gateway.DeleteOne` | backend/database.js:69-71 | `deleteOne` with the document as filter: its store identity and every field it has, an absent field constraining nothing; its meaning is stated by `Gateway.DeleteOneEffect`, `Gateway.DeleteOneRemovesFirst`, `Gateway.DeleteOneByIdentity` and `Gateway.DeleteOneKeepsStoreOk` |
| `Gateway.MatchesComplete` | backend/database.js:69-71 | a filter with every field present matches exactly the equal document |
| `Gateway.DeleteContact` | backend/database.js:69-71 | fails with `NotConnected` exactly when not connected; otherwise the store becomes `Gateway.DeleteOne` of it |
| `Gateway.SaveAccepts` | backend/database.js:65-67 | save succeeds exactly when the document validates, the connection is up, its resourceId is free, and its identity is unused (insert) or in use (update) |
| `Gateway.SavePhoneRule` | backend/database.js:30-39 | with the other conditions met, save succeeds exactly when the number is present and passes the validator |
| `Gateway.SaveRefusesDuplicateId` | backend/database.js:40 | a save that duplicates another stored document's resourceId fails |
| `Gateway.SaveEffect` | backend/database.js:65-67 | a successful save leaves the document in the store, grows the store by one for an insert and by none for an update, and leaves documents with other identities as they were |
| `Gateway.SaveKeepsStoreOk` | backend/database.js:26-42 | a successful save keeps every record valid and keeps resourceId and identity unique |
| `Gateway.DeleteOneEffect` | backend/database.js:69-71 | delete removes one document the filter matches if there is one and otherwise nothing; every document it does not match stays |
| `Gateway.DeleteOneRemovesFirst` | backend/database.js:69-71 | the document removed is the first one the filter matches, and the others keep their order |
| `Gateway.DeleteOneByIdentity` | backend/database.js:69-71 | in a well-formed store, a filter that matches a record removes exactly that record, even with a field such as `number` absent from the filter |
| `Gateway.DeleteOneKeepsStoreOk` | backend/database.js:69-71 | delete keeps the store well formed; when the filter matched, no stored record keeps its store identity or its resourceId |
| `Lookup.MaxId` | backend/index.js:46 | the spread `Math.max`: an upper bound of every identifier that one entry attains; `-Infinity` for no entries |
| `Lookup.NextId` | backend/index.js:45-47 | `-Infinity` on an empty mirror; finite exactly when some identifier is finite, and then one more than an existing identifier and larger than every finite one |
| `Lookup.FindIdxByName` | backend/index.js:49-51 | -1 exactly when no entry has the name; otherwise the least index whose name equals it |
| `Lookup.FindIdxByID` | backend/index.js:53-55 | -1 exactly when no entry has the id; otherwise the least index whose resourceId equals it |
| `Protocol.Connect` | backend/database.js:12-19 | never fails; mirror and store are untouched, a successful connect establishes the connection, an open connection stays open, and a failed connect leaves the connection as it was |
| `Protocol.CloseConnection` | backend/database.js:21-24 | the connection ends closed; mirror and store are untouched |
| `Protocol.Sync` | backend/index.js:23-39 | `syncContacts`: never writes the store; the rest of its effect is stated by `Protocol.SyncEffect` and `Protocol.SyncKeepsInv` |
| `Protocol.GetById` | backend/index.js:70-82 | GET by id as written: the status is 200 or 404, a 404 sends no record, and a sent record is a mirror entry with the requested id; `Findings.GetByIdAsWritten` gives each outcome exactly |
| `Protocol.NewDocument` | backend/index.js:89-91 | the new document carries the fresh store identity and the body's name and number; its resourceId is `nextId()` when the body has none, and the body's own otherwise |
| `Protocol.SaveCycle` | backend/index.js:97-107 | the shared `try` block; its outcome is stated by `Protocol.SaveCycleEffect` (200 exactly when a document is given and its save succeeds, and the state after each outcome) and `Protocol.SaveCycleKeepsInv` |
| `Protocol.Post` | backend/index.js:85-108 | POST as written; its meaning is stated by `Protocol.PostKeepsInv`, `Protocol.PostNewName`, `Protocol.PostExistingName` and `Protocol.PostExistingNameFailure` |
| `Protocol.Put` | backend/index.js:111-134 | PUT as written; its meaning is stated by `Protocol.PutKeepsInv`, `Protocol.PutUnknownId` and `Protocol.PutKnownId` |
| `Protocol.Delete` | backend/index.js:137-156 | DELETE as written; its meaning is stated by `Protocol.DeleteKeepsInv`, `Protocol.DeleteUnknownId`, `Protocol.DeleteKnownId`, `Protocol.DeleteOfDivergedEntry` and `Protocol.DeleteOfUnsetEntry` |
| `Protocol.SyncEffect` | backend/index.js:23-39 | resync never writes the store; a successful fetch makes the mirror equal to the store; a failed fetch keeps the mirror; `true` leaves the connection alone; the default connects first and ends closed |
| `Protocol.SyncKeepsInv` | backend/index.js:29-30 | a resync keeps the store well formed and the mirror's identifiers present |
| `Protocol.SaveCycleEffect` | backend/index.js:97-107 | 200 exactly when a document is given and its save succeeds; 200 means the save applied, the mirror equals the store and the connection is closed; 500 means nothing was written and only the connection changed |
| `Protocol.SaveCycleKeepsInv` | backend/index.js:97-107 | the save cycle keeps the invariant |
| `Protocol.EditKeepsIds` | backend/index.js:93-94 | setting `number` on a mirror entry keeps every identifier present |
| `Protocol.PostKeepsInv` | backend/index.js:85-108 | POST keeps the invariant |
| `Protocol.PostNewName` | backend/index.js:89-107 | an unseen name saves the body's fields under a fresh identity, with the allocated id unless the body has one; 200 exactly when connected, valid and the id is free; then store and mirror have one more record; otherwise 500 and nothing changes |
| `Protocol.SaveEditedEntry` | backend/index.js:93-99 | in a synchronised store, saving an edited entry replaces only that record, and succeeds exactly when connected and the number passes the phone rule |
| `Protocol.PostExistingName` | backend/index.js:92-107 | an existing name only changes that record's number: no id allocated, count unchanged; 200 exactly when connected and the number is valid |
| `Protocol.PostExistingNameFailure` | backend/index.js:93-94 | when the save fails, the mirror holds the new number and the store is unchanged |
| `Protocol.PutKeepsInv` | backend/index.js:111-134 | PUT keeps the invariant |
| `Protocol.PutUnknownId` | backend/index.js:115-126 | unknown id: 404; store and mirror unchanged; the connection ends open if it was open or the connect succeeded |
| `Protocol.PutKnownId` | backend/index.js:118-133 | known id in a synchronised state: only that record's number is replaced; 200 exactly when connected and the number is valid; on failure 500, with the store kept, the mirror holding exactly the edit, and the connection as the connect left it |
| `Protocol.DeleteKeepsInv` | backend/index.js:137-156 | DELETE keeps the invariant |
| `Protocol.DeleteUnknownId` | backend/index.js:140-142 | unknown id: 404 and the whole state unchanged, the connection included |
| `Protocol.DeleteKnownId` | backend/index.js:143-154 | known id in a synchronised state: 200 exactly when connected; then the record is gone, no record has the id, the count drops by one, and the mirror equals the store; on failure 500 and nothing written |
| `Protocol.DeleteOfDivergedEntry` | backend/index.js:146 | deleting a mirror entry with every field present that differs from its stored record (a refused new number) answers 200 and removes nothing |
| `Protocol.DeleteOfUnsetEntry` | backend/index.js:146 | deleting a mirror entry whose `number` a failed edit unset still removes its stored record, answering 200 exactly when connected |
| `Findings.GetByIdAsWritten` | backend/index.js:70-82 | 404 exactly when the match is at index 0; 200 with no record exactly when nothing matches; 200 with the first matching entry when it is at index 1 or later |
| `Findings.FalsyIndexCounterexample` | backend/index.js:75 | on a one-entry mirror the entry answers 404 and a missing id answers 200 |
| `Findings.GetByIdIntended` | backend/index.js:74-81 | with the -1 test: 404 exactly when no entry has the id; otherwise the first entry with that id |
| `Findings.PutFallThroughCounterexample` | backend/index.js:115-126 | PUT of an unknown id answers 404 and leaves a connection open that was closed |
| `Findings.PutIntended` | backend/index.js:111-134 | corrected PUT, returning after the 404 and editing a copy; its meaning is stated by `Findings.PutIntendedEffect` |
| `Findings.PutIntendedEffect` | backend/index.js:111-134 | corrected PUT: an unknown id changes nothing; a failure leaves mirror and store alone; success leaves them equal |
| `Findings.InPlaceEditCounterexample` | backend/index.js:93-94 | a refused number answers 500 but stays in the mirror, so mirror and store differ |
| `Findings.NextIdIntended` | backend/index.js:45-47 | corrected `nextId`: 1 when the mirror has no finite identifier (an empty mirror included); otherwise one more than the largest, as written; always larger than every finite identifier |
| `Findings.PostIntended` | backend/index.js:85-108 | corrected POST, editing a copy and building the new document with `Findings.NewDocumentIntended`; its meaning is stated by `Findings.PostIntendedEffect` and `Findings.PostIntendedOnEmptyStore` |
| `Findings.PostIntendedEffect` | backend/index.js:85-108 | corrected POST: a failure leaves mirror and store unchanged; success leaves them equal |
| `Findings.BodyIdOverridesAllocation` | backend/index.js:90 | next to id 7, a POST whose body says id 3 stores 3 instead of the allocated 8 |
| `Findings.NewDocumentIntended` | backend/index.js:90 | corrected new document, always with the allocated id; its meaning is stated by `Findings.NewDocumentIntendedFresh` |
| `Findings.NewDocumentIntendedFresh` | backend/index.js:90 | in a synchronised state (mirror equal to store), the corrected new document's id collides with no mirror entry, so its save is never refused as a duplicate |
| `Findings.EmptyCollectionCounterexample` | backend/index.js:45-47 | on an empty collection the first POST stores id `-Infinity` and the next new name is refused |
| `Findings.PostIntendedOnEmptyStore` | backend/index.js:89-91 | corrected POST on an empty store gives a mirror of exactly one record with resourceId 1 |
| `App.ContactApp.constructor` | backend/index.js:41-42 | process start: an empty mirror, then the default `syncContacts()` |
| `App.ContactApp.Connect` | backend/database.js:12-19 | never raises; the connection is established if it was or if the connect succeeds |
| `App.ContactApp.CloseConnection` | backend/database.js:21-24 | the connection ends closed |
| `App.ContactApp.GetAllContacts` | backend/database.js:61-63 | returns exactly the stored records when connected, and fails otherwise; writes nothing |
| `App.ContactApp.UpdateContact` | backend/database.js:65-67 | passes a save failure to the caller and writes nothing on failure; on success the store is the save's result |
| `App.ContactApp.SaveContact` | backend/database.js:52-59 | the same save, failures swallowed (including a save of `undefined`): always completes, and the store is unchanged on failure |
| `App.ContactApp.DeleteContact` | backend/database.js:69-71 | fails exactly when not connected; otherwise the store loses the first record the document matches |
| `App.ContactApp.SyncContacts` | backend/index.js:23-39 | performs the `Protocol.Sync` transition |
| `App.ContactApp.GetAll` | backend/index.js:65-67 | 200 and the mirror, without touching store or connection |
| `App.ContactApp.GetById` | backend/index.js:70-82 | answers as `Protocol.GetById` and changes nothing: 404 exactly when the first mirror entry has the id; 200 with no record exactly when no entry has it; otherwise 200 with the first entry that has it |
| `App.ContactApp.SaveCycle` | backend/index.js:97-107 | performs the `Protocol.SaveCycle` transition |
| `App.ContactApp.Post` | backend/index.js:85-108 | performs the `Protocol.Post` transition and keeps the invariant |
| `App.ContactApp.Put` | backend/index.js:111-134 | performs the `Protocol.Put` transition and keeps the invariant |
| `App.ContactApp.Delete` | backend/index.js:137-156 | performs the `Protocol.Delete` transition and keeps the invariant |

## Findings

Nothing was executed. Each row pairs a concrete input, derived from the code as
written, with a corrected definition and the property proved about it.

| source | as written | input that shows it | evidently intended | confidence | as-written member | corrected member |
|---|---|---|---|---|---|---|
| backend/index.js:75 | `if (idx)` treats index 0 as not found and -1 as found | mirror holding one contact with id 7: GET 7 gives 404, GET 8 gives 200 with no record | test `idx !== -1` | high, not executed | `Findings.FalsyIndexCounterexample` (`Protocol.GetById`) | `Findings.GetByIdIntended` |
| backend/index.js:115-123 | after the 404 the handler falls into the `try` block: it connects, and the save of `undefined` throws | PUT 3 on an empty mirror with a closed connection: 404, connection left open | return after the 404 | high, not executed | `Findings.PutFallThroughCounterexample` (`Protocol.Put`) | `Findings.PutIntended`, `Findings.PutIntendedEffect` |
| backend/index.js:93-94, 119-120 | the mirror entry's `number` is set before the save, which may refuse it | synchronised contact Ada; POST Ada with number "none": 500, mirror serves "none", store keeps the old number | edit a copy; the mirror changes only on resync | high, not executed | `Findings.InPlaceEditCounterexample` (`Protocol.Post`) | `Findings.PostIntended`, `Findings.PostIntendedEffect` |
| backend/index.js:90 | the body is spread after `resourceId: nextId()`, so a body id replaces the allocated one | contact with id 7; POST new name with body id 3: id 3 stored, not 8 | always use the allocated id | medium, not executed | `Findings.BodyIdOverridesAllocation` (`Protocol.NewDocument`) | `Findings.NewDocumentIntended`, `Findings.NewDocumentIntendedFresh` |
| backend/index.js:45-47 | `Math.max()` of an empty mirror is `-Infinity`, and adding 1 keeps it | empty collection: POST Ada stores id `-Infinity`; POST Bob is refused as a duplicate | start at 1 | medium, not executed | `Findings.EmptyCollectionCounterexample` (`Lookup.NextId`) | `Findings.NextIdIntended`, `Findings.PostIntendedOnEmptyStore` |

## Left out

- Express setup, middleware, static files, CORS, `app.listen`, the port and the environment file (backend/index.js:3-11, 58-59, 160-162; backend/database.js:4): framework and I/O plumbing.
- Log output, response texts and JSON serialisation: only status codes and the record sent by GET-by-id are kept.
- `Number(req.params.id)`: the id is an integer input. NaN, fractions and `"-Infinity"` cannot be requested, so the `-Infinity` record is unreachable by id in the model, as it is for integer ids in the source.
- Body values are strings or absent for `name` and `number`, and an integer, `null` or absent for `resourceId`. Other JSON values and Mongoose's casting of them are not modelled. Nor are fields outside the schema, such as an `_id` in the body.
- `Lookup.NextId`: identifiers are unbounded integers, but JavaScript numbers are doubles. Above 2^53, `Math.max(...) + 1` (backend/index.js:46) rounds back to the maximum. A body id of 9007199254740992 is stored (backend/index.js:90), and then every new name gets that same id, which the unique index refuses. The model allocates max+1 and accepts it. Body ids that `JSON.parse` rounds are not modelled either.
- `Gateway.DeleteOne`: the filter rule (store identity plus every field that is present) follows how Mongoose turns a document into a filter. That code is not part of this model. The version key `__v` is not modelled.
- Mongoose internals: schema and model construction (`makeSchema`, `makeModel`), `createContact` (backend/database.js:48-50, which the handlers do not call; they construct the document directly), `__v`, the timing of the index build (the unique index is taken to be in force), and ObjectId generation (modelled by `Gateway.FreshKey`).
- Mongoose skips the write for a document with no changes. The model treats such a save like any other: it needs a connection and passes validation.
- Network faults other than a failed connect: on an established connection, every store operation reaches the store. A hung call is not modelled.
- Interleaving of concurrent requests at `await` points, and the un-awaited `disconnect()` calls: each handler is one atomic step.
- After PUT's 404, the `catch` block (backend/index.js:132) sends a 500 on a response that has already been sent. In Express 4 that call sets a header and throws `ERR_HTTP_HEADERS_SENT`. The async handler's promise then rejects with no handler. On Node 15 or later this ends the process by default; older Node only warns. The model does not capture this and was not executed: it keeps the 404 as the client's answer and the service running.
- The order of `find({})` results: the store is a sequence in insertion order, and updates keep their position.
- `App.ContactApp.constructor`: requires the existing collection to meet the schema and both unique indexes (`StoreOk`). The source cannot guarantee this for data already in the database; the model does not cover a collection that violates it.
- `Protocol.PostExistingName`: stated for a synchronised state (mirror equal to store). The other case is covered by `Protocol.PostExistingNameFailure` and `Protocol.DeleteOfDivergedEntry`.
- `Protocol.PutKnownId`: stated for a synchronised state, for the same reason.
- `Protocol.DeleteKnownId`: stated for a synchronised state. After a failed edit, DELETE may remove nothing; that is `Protocol.DeleteOfDivergedEntry`.
