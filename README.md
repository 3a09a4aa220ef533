# Notes store of the Express notes API

This project models the in-memory notes store of a small Express server
(`server.js`): a process-wide array of notes `{id, title, content, tags}` and
the six route handlers that create (POST /notes), list (GET /notes), delete one
(DELETE /notes/:id), patch (PATCH /notes/:id), delete all (DELETE /notes) and
replace (PUT /notes/:id) notes.

Layout:

- `js.dfy`, module `Js`: JavaScript values as they arrive in a parsed request
  body (`Value`), the body as a `map<string, Value>` so that "key present"
  (`'id' in req.body`) is distinct from "value not undefined", destructuring
  defaults, the decimal rendering of numbers used for ids, and `String(v)`.
- `notes.dfy`, module `Notes`: the `Note` record, the tagged response
  `Outcome` (`Ok`, `NotFound` for 404, `BadRequest` for 400), and one pure
  transition function per handler from the current notes to a
  `Step(response, notes)`.
- `properties.dfy`, module `NotesProperties`: the lemmas about those
  functions: error paths, what a successful step changes and keeps, how steps
  compose (id reuse, create-then-delete, idempotence of PATCH and PUT), and the
  invariant that every stored id is a positive decimal numeral.
- `store.dfy`, module `NotesServer`: class `NotesStore` with a `seq<Note>`
  field and one method per handler; each method's postcondition says its
  response and the new store are those of the matching transition function,
  and that the id invariant `Valid()` is kept. `FindIndex` is the
  `findIndex` scan as a loop and `BuildPatch` is PATCH's loop over the allowed
  fields.

Behaviour reproduced as the code has it:

- Ids are `String(notes.length + 1)`, not a counter, so they repeat after a
  deletion (`IdsRepeat`, `CreateAfterDeleteReusesId`, `ReplayIdClash`), and
  they restart at "1" after delete-all (`DeleteAllRestartsIds`).
- PATCH checks that the note exists before it checks for an id change
  (`PatchNotFoundFirst`).
- PUT destructures `tag = []`, so its `tag !== undefined` test always passes
  and a PUT without `tag` resets `tags` to the empty array
  (`PutSuccess`, `PatchKeepsTagsPutClears`).

## Model

| member | source | states |
|---|---|---|
| Js.Decimal | server.js:35 | the id rendering of a number is a canonical numeral, without a leading zero, and is the numeral of a positive number exactly when the number is positive |
| Js.ParseDecimalOfDecimal | server.js:35 | reading back a rendered id gives the number it was made from |
| Js.DecimalInjective | server.js:35 | two lengths give the same id exactly when they are equal |
| Js.ToJsString | server.js:86 | `String(v)` of a string is the string itself and of a non-negative number is its decimal numeral |
| Notes.FirstIndex | server.js:57 | the lookup answers -1 exactly when no note has the id, and otherwise the position of a note with that id before which no note has it |
| Notes.NewNote | server.js:32-39 | a new note is named after the store length plus one, keeps title and content as given, and takes the body's tags unless they are undefined, in which case the empty array |
| Notes.PatchFields | server.js:91-95 | the PATCH data holds exactly the allowed fields whose body value is not undefined, with those values |
| Notes.RemoveAt | server.js:63 | splicing out one position shortens the store by one and shifts only the notes after it |
| NotesProperties.RemoveAtMultiset | server.js:63 | splicing out one note leaves every other note: the store before is the store after plus the removed note, as multisets |
| NotesProperties.FirstIndexDependsOnIds | server.js:79 | which note an id finds depends only on the ids, so field updates never move the lookup |
| NotesProperties.CreateAppendsOne | server.js:34-42 | create appends one note at the end, keeps every earlier note, returns the new note, and names it after the old length plus one |
| NotesProperties.IdsRepeat | server.js:35 | from an empty store, create, create, delete "1", create leaves two notes both called "2" |
| NotesProperties.CreateAfterDeleteReusesId | server.js:35 | deleting any note but the last makes the next created note duplicate the id of the last one when that id was the length |
| NotesProperties.CreateThenDeleteRestores | server.js:30-69 | when the new id is not already taken, deleting it right after creating it returns the created note and gives back the old store |
| NotesProperties.CreateThenDeleteHitsEarlier | server.js:57-63 | when the new id is already taken, deleting it right after creating it removes the first earlier note with that id and the created one stays at the end |
| NotesProperties.DeleteOneNotFound | server.js:57-61 | delete answers 404 exactly when no note has the id, then leaves the store unchanged, and never answers 400 |
| NotesProperties.DeleteOneFound | server.js:57-69 | when a note has the id, delete removes the first such note, returns it with the remaining notes, shortens the store by one, keeps the rest in order and as a multiset the store minus that note |
| NotesProperties.PatchNotFoundFirst | server.js:79-83 | PATCH of an unknown id answers 404 and changes nothing whatever the body holds, an `id` included |
| NotesProperties.PatchRejectsIdChange | server.js:86-88 | PATCH of an existing note whose body `id` converts to a different string answers 400 and changes nothing |
| NotesProperties.PatchAcceptsNumericId | server.js:86 | a body `id` that is the number the path id spells is not a change of id, so PATCH succeeds |
| NotesProperties.PatchSuccess | server.js:91-101 | a successful PATCH overwrites on the first note with the id exactly the allowed fields given a value other than undefined, and keeps the id, the other notes and the length |
| NotesProperties.PatchIdempotent | server.js:79-97 | applying the same PATCH twice gives the same response and store as applying it once |
| NotesProperties.PutNotFound | server.js:118-128 | PUT answers 404 and changes nothing exactly when no note has the id, and otherwise succeeds |
| NotesProperties.PutSuccess | server.js:116-125 | a successful PUT answers with the path id, overwrites title and content only when given, always overwrites tags with `tag` or the empty array, and keeps the id, the other notes and the length |
| NotesProperties.PatchKeepsTagsPutClears | server.js:94-123 | for a body giving neither `tags` nor `tag`, PATCH keeps the note's tags while PUT empties them |
| NotesProperties.PutIdempotent | server.js:116-125 | applying the same PUT twice gives the same response and store as applying it once |
| NotesProperties.DeleteAllRestartsIds | server.js:109-111 | delete-all answers with and leaves an empty store, so the next note created is called "1" |
| NotesProperties.StepsKeepNumeralIds | server.js:35 | every handler keeps every stored id the numeral of a positive number |
| NotesProperties.NonNumeralIdNotFound | server.js:57-61 | under that invariant a path id that is not such a numeral makes delete, PATCH and PUT answer 404 and change nothing |
| NotesServer.BuildPatch | server.js:91-95 | the loop over the allowed fields builds exactly the PATCH data |
| NotesServer.NotesStore.constructor | server.js:16 | the store starts empty |
| NotesServer.NotesStore.FindIndex | server.js:57 | the scan returns the position of the first note with the id, or -1 |
| NotesServer.NotesStore.Create | server.js:30-46 | POST appends the new note and returns it, as the create step says, keeping the id invariant |
| NotesServer.NotesStore.List | server.js:49-51 | GET returns the whole store in order and changes nothing |
| NotesServer.NotesStore.DeleteOne | server.js:54-73 | DELETE of one id answers and updates the store as the delete step says, keeping the id invariant |
| NotesServer.NotesStore.Patch | server.js:76-106 | PATCH answers and updates the store as the patch step says, keeping the id invariant |
| NotesServer.NotesStore.DeleteAll | server.js:109-112 | DELETE of all notes empties the store and answers with the empty store |
| NotesServer.NotesStore.Put | server.js:115-129 | PUT overwrites the found note's fields one by one as the put step says, keeping the id invariant |
| NotesServer.ReplayIdClash | server.js:30-73 | running create, create, delete "1", create on a fresh store yields two notes both called "2" |

## Left out

- Express setup, the CORS origin list and the JSON and form body parsers
  (server.js:1-13): library configuration; the model starts from a parsed body.
- The `GET /` greeting (server.js:19-27): a fixed string with no logic.
- The error middleware, logging and `app.listen` (server.js:131-142): process
  plumbing. With it go the exceptions a missing `req.body` would raise.
- Exact message strings, HTTP status numbers and JSON versus plain-text
  serialisation: a response is its `Outcome` tag and payload; PUT's payload is
  the id its message embeds.
- Object identity: a note is a value. PUT assigns fields of the found object
  in place while PATCH replaces the array slot with a new object; no other
  reference to a note outlives a request, so both are modelled as replacing the
  element.
- Full JavaScript coercion: numbers are integers below 10^21 in magnitude
  (no fractions, no exponent form, no NaN or infinities), `in` sees only the body's own keys (no prototype keys),
  and objects other than arrays render as "[object Object]".
- Concurrency: none exists; every handler runs to completion, so the methods
  are sequential.
