/** The notes resource as pure state transitions: each handler is a function
    from the current sequence of notes (and the path id and request body) to
    the response it sends and the sequence of notes it leaves behind. The
    class in module NotesServer is proved to follow these functions. */
module Notes {
  import opened Js

  /** A stored note. `title`, `content` and `tags` hold whatever the request
      body carried; only `id` is chosen by the store. */
  datatype Note = Note(id: string, title: Value, content: Value, tags: Value)

  /** What a handler answers: a success payload, 404, or 400. */
  datatype Outcome<+T> = Ok(value: T) | NotFound | BadRequest

  /** The payload of a successful DELETE /notes/:id: the removed note and the
      notes that remain. */
  datatype Deleted = Deleted(note: Note, remaining: seq<Note>)

  /** A handler's response together with the store it leaves. */
  datatype Step<+T> = Step(response: Outcome<T>, notes: seq<Note>)

  /** The fields PATCH copies from the body, in the order it visits them. */
  const Allowed: seq<string> := ["title", "content", "tags"]

  /** `notes.findIndex(n => n.id === id)`: the position of the first note
      whose id is exactly `id`, or -1 when there is none. */
  function FirstIndex(s: seq<Note>, id: string): (r: int)
    ensures -1 <= r < |s|
    ensures r == -1 <==> forall j :: 0 <= j < |s| ==> s[j].id != id
    ensures 0 <= r ==> s[r].id == id && forall j :: 0 <= j < r ==> s[j].id != id
  {
    if |s| == 0 then -1
    else if s[0].id == id then 0
    else
      var k := FirstIndex(s[1..], id);
      if k == -1 then -1 else k + 1
  }

  /** The id the next created note gets: the decimal form of the store's
      length plus one. */
  function NextId(s: seq<Note>): string {
    Decimal(|s| + 1)
  }

  /** The note POST /notes builds: `title` and `content` as given, `tags`
      defaulting to the empty array when the body's `tags` is undefined. */
  function NewNote(s: seq<Note>, body: Body): (n: Note)
    ensures n.id == NextId(s) && IsPositiveNumeral(n.id)
    ensures n.title == Get(body, "title") && n.content == Get(body, "content")
    ensures Get(body, "tags") != Undefined ==> n.tags == body["tags"]
    ensures Get(body, "tags") == Undefined ==> n.tags == Arr([])
  {
    Note(NextId(s), Get(body, "title"), Get(body, "content"), Default(Get(body, "tags"), Arr([])))
  }

  /** The whitelisted part of a PATCH body: the allowed fields whose value is
      not undefined. */
  function PatchFields(body: Body): (p: map<string, Value>)
    ensures forall k :: k in p <==> k in Allowed && Get(body, k) != Undefined
    ensures forall k :: k in p ==> p[k] == Get(body, k)
  {
    map k | k in Allowed && k in body && body[k] != Undefined :: body[k]
  }

  /** `{ ...note, ...patch }` for a patch whose keys are allowed fields. */
  function ApplyPatch(n: Note, patch: map<string, Value>): Note {
    Note(n.id,
         if "title" in patch then patch["title"] else n.title,
         if "content" in patch then patch["content"] else n.content,
         if "tags" in patch then patch["tags"] else n.tags)
  }

  /** The field updates PUT makes on the note it found. The body's `tag`
      (singular) defaults to the empty array, so the `tag !== undefined` test
      always passes and `tags` is always written. */
  function PutFields(n: Note, body: Body): Note {
    var title := Get(body, "title");
    var content := Get(body, "content");
    var tag := Default(Get(body, "tag"), Arr([]));
    n.(title := if title != Undefined then title else n.title,
       content := if content != Undefined then content else n.content,
       tags := if tag != Undefined then tag else n.tags)
  }

  /** `s` without its element at position `i`: `s.splice(i, 1)`. */
  function RemoveAt(s: seq<Note>, i: nat): (r: seq<Note>)
    requires i < |s|
    ensures |r| == |s| - 1
    ensures forall j :: 0 <= j < |r| ==> r[j] == (if j < i then s[j] else s[j + 1])
  {
    s[..i] + s[i + 1..]
  }

  // ---------------------------------------------------------------------------
  // One function per route handler

  /** POST /notes */
  function Create(s: seq<Note>, body: Body): Step<Note> {
    var n := NewNote(s, body);
    Step(Ok(n), s + [n])
  }

  /** DELETE /notes/:id */
  function DeleteOne(s: seq<Note>, id: string): Step<Deleted> {
    var i := FirstIndex(s, id);
    if i == -1 then Step(NotFound, s)
    else
      var rest := RemoveAt(s, i);
      Step(Ok(Deleted(s[i], rest)), rest)
  }

  /** PATCH /notes/:id: existence is checked before the id-change guard. */
  function Patch(s: seq<Note>, id: string, body: Body): Step<Note> {
    var i := FirstIndex(s, id);
    if i == -1 then Step(NotFound, s)
    else if "id" in body && ToJsString(body["id"]) != id then Step(BadRequest, s)
    else
      var n := ApplyPatch(s[i], PatchFields(body));
      Step(Ok(n), s[i := n])
  }

  /** DELETE /notes */
  function DeleteAll(s: seq<Note>): Step<seq<Note>> {
    Step(Ok([]), [])
  }

  /** PUT /notes/:id: answers with the path id on success. */
  function Put(s: seq<Note>, id: string, body: Body): Step<string> {
    var i := FirstIndex(s, id);
    if i == -1 then Step(NotFound, s)
    else Step(Ok(id), s[i := PutFields(s[i], body)])
  }

  /** Every stored id is the decimal numeral of a positive number. */
  ghost predicate NumeralIds(s: seq<Note>) {
    forall j :: 0 <= j < |s| ==> IsPositiveNumeral(s[j].id)
  }
}
