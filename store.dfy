/** The notes store as the server keeps it: one mutable ordered sequence of
    notes and one method per route handler. Each method is proved to answer
    and to leave the store exactly as the matching transition function of
    module Notes says, and to keep the id invariant. */
module NotesServer {
  import opened Js
  import opened Notes
  import NotesProperties

  /** The whitelisted fields of a PATCH body, collected by visiting the
      allowed field names in turn and keeping those whose value is not
      undefined. */
  method BuildPatch(body: Body) returns (patch: map<string, Value>)
    ensures patch == PatchFields(body)
  {
    patch := map[];
    for i := 0 to |Allowed|
      invariant forall k :: k in patch <==> k in Allowed[..i] && Get(body, k) != Undefined
      invariant forall k :: k in patch ==> patch[k] == Get(body, k)
    {
      var k := Allowed[i];
      if Get(body, k) != Undefined {
        patch := patch[k := Get(body, k)];
      }
    }
    assert Allowed[..|Allowed|] == Allowed;
  }

  class NotesStore {
    /** The notes, in insertion order. */
    var notes: seq<Note>

    /** Every stored id is the numeral of a positive number. */
    ghost predicate Valid()
      reads this
    {
      NumeralIds(notes)
    }

    /** The store starts empty. */
    constructor ()
      ensures Valid() && notes == []
    {
      notes := [];
    }

    /** `notes.findIndex(n => n.id === id)`, by a scan from the front. */
    method FindIndex(id: string) returns (index: int)
      ensures index == FirstIndex(notes, id)
    {
      index := 0;
      while index < |notes|
        invariant 0 <= index <= |notes|
        invariant forall j :: 0 <= j < index ==> notes[j].id != id
      {
        if notes[index].id == id {
          return;
        }
        index := index + 1;
      }
      index := -1;
    }

    /** POST /notes */
    method Create(body: Body) returns (r: Outcome<Note>)
      requires Valid()
      modifies this
      ensures Valid()
      ensures r.Ok? && notes == old(notes) + [r.value]
      ensures r.value.id == Decimal(|old(notes)| + 1)
      ensures Step(r, notes) == Notes.Create(old(notes), body)
    {
      NotesProperties.StepsKeepNumeralIds(notes, "", body);
      var title := Get(body, "title");
      var content := Get(body, "content");
      var tags := Default(Get(body, "tags"), Arr([]));
      var newNote := Note(Decimal(|notes| + 1), title, content, tags);
      notes := notes + [newNote];
      r := Ok(newNote);
    }

    /** GET /notes: the whole store, in order, and nothing changes. */
    method List() returns (r: Outcome<seq<Note>>)
      ensures r == Ok(notes)
    {
      r := Ok(notes);
    }

    /** DELETE /notes/:id */
    method DeleteOne(id: string) returns (r: Outcome<Deleted>)
      requires Valid()
      modifies this
      ensures Valid()
      ensures Step(r, notes) == Notes.DeleteOne(old(notes), id)
    {
      NotesProperties.StepsKeepNumeralIds(notes, id, map[]);
      var index := FindIndex(id);
      if index == -1 {
        return NotFound;
      }
      var deleted := notes[index];
      notes := notes[..index] + notes[index + 1..];
      r := Ok(Deleted(deleted, notes));
    }

    /** PATCH /notes/:id */
    method Patch(id: string, body: Body) returns (r: Outcome<Note>)
      requires Valid()
      modifies this
      ensures Valid()
      ensures Step(r, notes) == Notes.Patch(old(notes), id, body)
    {
      NotesProperties.StepsKeepNumeralIds(notes, id, body);
      var index := FindIndex(id);
      if index == -1 {
        return NotFound;
      }
      if "id" in body && ToJsString(body["id"]) != id {
        return BadRequest;
      }
      var patchData := BuildPatch(body);
      var updated := ApplyPatch(notes[index], patchData);
      notes := notes[index := updated];
      r := Ok(updated);
    }

    /** DELETE /notes */
    method DeleteAll() returns (r: Outcome<seq<Note>>)
      requires Valid()
      modifies this
      ensures Valid()
      ensures notes == [] && r == Ok([])
    {
      notes := [];
      r := Ok(notes);
    }

    /** PUT /notes/:id: the found note's fields are overwritten one by one. */
    method Put(id: string, body: Body) returns (r: Outcome<string>)
      requires Valid()
      modifies this
      ensures Valid()
      ensures Step(r, notes) == Notes.Put(old(notes), id, body)
    {
      NotesProperties.StepsKeepNumeralIds(notes, id, body);
      var title := Get(body, "title");
      var content := Get(body, "content");
      var tag := Default(Get(body, "tag"), Arr([]));
      var index := FindIndex(id);
      if index == -1 {
        return NotFound;
      }
      var note := notes[index];
      if title != Undefined {
        note := note.(title := title);
      }
      if content != Undefined {
        note := note.(content := content);
      }
      if tag != Undefined {
        note := note.(tags := tag);
      }
      notes := notes[index := note];
      r := Ok(id);
    }
  }

  /** The id clash, replayed through the store itself: create, create,
      delete "1", create leaves two notes that are both called "2". */
  method ReplayIdClash(b1: Body, b2: Body, b3: Body) returns (first: Note, second: Note)
    ensures first.id == "2" && second.id == "2"
  {
    var store := new NotesStore();
    var _ := store.Create(b1);
    var _ := store.Create(b2);
    assert Decimal(1) == "1" && Decimal(2) == "2";
    assert store.notes[0].id == "1";
    var _ := store.DeleteOne("1");
    var _ := store.Create(b3);
    first, second := store.notes[0], store.notes[1];
  }
}
