/** What the notes handlers promise, stated over the transition functions of
    module Notes: the shape of each step, its error paths, how operations
    compose, and the invariant every step keeps. */
module NotesProperties {
  import opened Js
  import opened Notes

  // ---------------------------------------------------------------------------
  // Lookup

  /** Lookup depends only on the ids, position by position: updating other
      fields of notes never changes which note an id finds. */
  lemma FirstIndexDependsOnIds(s: seq<Note>, t: seq<Note>, id: string)
    requires |s| == |t|
    requires forall j :: 0 <= j < |s| ==> s[j].id == t[j].id
    ensures FirstIndex(s, id) == FirstIndex(t, id)
  {
  }

  /** Appending a note that nothing before it shares an id with makes it the
      note the id finds. */
  lemma FirstIndexOfAppended(s: seq<Note>, n: Note)
    requires forall j :: 0 <= j < |s| ==> s[j].id != n.id
    ensures FirstIndex(s + [n], n.id) == |s|
  {
    var t := s + [n];
    assert t[|s|].id == n.id;
    assert forall j :: 0 <= j < |s| ==> t[j].id != n.id;
  }

  // ---------------------------------------------------------------------------
  // POST /notes

  /** Create appends exactly one note, leaves the earlier ones as they were,
      returns the appended note, and names it after the old length plus one. */
  lemma CreateAppendsOne(s: seq<Note>, body: Body)
    ensures var st := Create(s, body);
      && st.response.Ok?
      && |st.notes| == |s| + 1
      && st.notes[..|s|] == s
      && st.notes[|s|] == st.response.value
      && st.response.value.id == Decimal(|s| + 1)
  {
  }

  /** Ids are not unique: on an empty store, create, create, delete "1",
      create leaves two notes that are both called "2". */
  lemma IdsRepeat(b1: Body, b2: Body, b3: Body)
    ensures var s1 := Create([], b1).notes;
      var s2 := Create(s1, b2).notes;
      var s3 := DeleteOne(s2, "1").notes;
      var s4 := Create(s3, b3).notes;
      && |s4| == 2
      && s4[0].id == "2"
      && s4[1].id == "2"
  {
  }

  /** The general form of the id clash: if the last note carries the id of the
      current length (as it does when it was the last one created and nothing
      was deleted since), deleting any earlier note makes the next created
      note duplicate the last note's id. */
  lemma CreateAfterDeleteReusesId(s: seq<Note>, id: string, body: Body)
    requires |s| >= 1 && s[|s| - 1].id == Decimal(|s|)
    requires 0 <= FirstIndex(s, id) < |s| - 1
    ensures var rest := DeleteOne(s, id).notes;
      var st := Create(rest, body);
      && |st.notes| == |s|
      && st.response.value.id == s[|s| - 1].id
      && st.notes[|s| - 2] == s[|s| - 1]
  {
  }

  /** A note created under a fresh id is removed again by deleting that id,
      which gives back the earlier store. */
  lemma CreateThenDeleteRestores(s: seq<Note>, body: Body)
    requires forall j :: 0 <= j < |s| ==> s[j].id != NextId(s)
    ensures var st := Create(s, body);
      DeleteOne(st.notes, NextId(s)) == Step(Ok(Deleted(st.response.value, s)), s)
  {
    var n := NewNote(s, body);
    FirstIndexOfAppended(s, n);
    assert (s + [n])[..|s|] + (s + [n])[|s| + 1..] == s;
  }

  /** When an earlier note already has the new id, deleting that id removes
      the first earlier note with it and the note just created stays, at the
      end. */
  lemma CreateThenDeleteHitsEarlier(s: seq<Note>, body: Body)
    requires exists j :: 0 <= j < |s| && s[j].id == NextId(s)
    ensures var st := Create(s, body);
      var del := DeleteOne(st.notes, NextId(s));
      && del.response.Ok?
      && var i := FirstIndex(s, NextId(s));
      && 0 <= i
      && del.response.value.note == s[i]
      && |del.notes| == |s|
      && del.notes[|s| - 1] == st.response.value
  {
    var n := NewNote(s, body);
    var t := s + [n];
    var j :| 0 <= j < |s| && s[j].id == NextId(s);
    assert t[j].id == n.id;
    var i := FirstIndex(t, n.id);
    assert i <= j;
    assert t[i] == s[i];
    assert forall m :: 0 <= m < i ==> s[m].id == t[m].id;
    assert FirstIndex(s, n.id) == i;
  }

  // ---------------------------------------------------------------------------
  // DELETE /notes/:id

  /** Delete answers 404 exactly when no note has the id, and then changes
      nothing; it never answers 400. */
  lemma DeleteOneNotFound(s: seq<Note>, id: string)
    ensures DeleteOne(s, id).response.NotFound? <==> forall j :: 0 <= j < |s| ==> s[j].id != id
    ensures DeleteOne(s, id).response.NotFound? ==> DeleteOne(s, id).notes == s
    ensures !DeleteOne(s, id).response.BadRequest?
  {
  }

  /** Splicing out one note leaves the other notes as a multiset. */
  lemma RemoveAtMultiset(s: seq<Note>, i: nat)
    requires i < |s|
    ensures multiset(RemoveAt(s, i)) + multiset{s[i]} == multiset(s)
  {
    assert s == s[..i] + ([s[i]] + s[i + 1..]);
    calc {
      multiset(s);
      multiset(s[..i]) + multiset([s[i]] + s[i + 1..]);
      multiset(s[..i]) + multiset{s[i]} + multiset(s[i + 1..]);
      multiset(RemoveAt(s, i)) + multiset{s[i]};
    }
  }

  /** When some note has the id, delete removes exactly the first such note,
      returns it with the remaining notes, and keeps the others in order. */
  lemma DeleteOneFound(s: seq<Note>, id: string, k: nat)
    requires k < |s| && s[k].id == id
    ensures var st := DeleteOne(s, id);
      var i := FirstIndex(s, id);
      && 0 <= i <= k
      && (forall j :: 0 <= j < i ==> s[j].id != id)
      && st.response == Ok(Deleted(s[i], st.notes))
      && s[i].id == id
      && |st.notes| == |s| - 1
      && multiset(st.notes) + multiset{s[i]} == multiset(s)
      && (forall j :: 0 <= j < |st.notes| ==> st.notes[j] == (if j < i then s[j] else s[j + 1]))
  {
    var i := FirstIndex(s, id);
    var rest := RemoveAt(s, i);
    assert DeleteOne(s, id) == Step(Ok(Deleted(s[i], rest)), rest);
    RemoveAtMultiset(s, i);
  }

  // ---------------------------------------------------------------------------
  // PATCH /notes/:id

  /** PATCH looks the note up before it looks at the body: an unknown id
      answers 404 and changes nothing, whatever the body holds, `id` included. */
  lemma PatchNotFoundFirst(s: seq<Note>, id: string, body: Body)
    requires forall j :: 0 <= j < |s| ==> s[j].id != id
    ensures Patch(s, id, body) == Step(NotFound, s)
  {
  }

  /** A body whose `id`, turned into a string, differs from the path id makes
      PATCH answer 400 and change nothing, once the note exists. */
  lemma PatchRejectsIdChange(s: seq<Note>, id: string, body: Body, k: nat)
    requires k < |s| && s[k].id == id
    requires "id" in body && ToJsString(body["id"]) != id
    ensures Patch(s, id, body) == Step(BadRequest, s)
  {
  }

  /** A body `id` given as the number the path id spells is not a change of
      id: PATCH goes ahead. */
  lemma PatchAcceptsNumericId(s: seq<Note>, n: nat, body: Body, k: nat)
    requires k < |s| && s[k].id == Decimal(n)
    requires "id" in body && body["id"] == Num(n)
    ensures Patch(s, Decimal(n), body).response.Ok?
  {
  }

  /** A successful PATCH overwrites, on the first note with the id, exactly the
      allowed fields the body gives a value other than undefined; the id, the
      other notes and the length stay. */
  lemma PatchSuccess(s: seq<Note>, id: string, body: Body, k: nat)
    requires k < |s| && s[k].id == id
    requires !("id" in body && ToJsString(body["id"]) != id)
    ensures var st := Patch(s, id, body);
      && st.response.Ok?
      && |st.notes| == |s|
      && exists i :: 0 <= i <= k
           && s[i].id == id
           && (forall j :: 0 <= j < i ==> s[j].id != id)
           && st.notes[i] == st.response.value
           && (forall j :: 0 <= j < |s| && j != i ==> st.notes[j] == s[j])
           && st.response.value.id == id
           && st.response.value.title == (if Get(body, "title") != Undefined then Get(body, "title") else s[i].title)
           && st.response.value.content == (if Get(body, "content") != Undefined then Get(body, "content") else s[i].content)
           && st.response.value.tags == (if Get(body, "tags") != Undefined then Get(body, "tags") else s[i].tags)
  {
  }

  /** Applying the same PATCH twice gives the same response and store as
      applying it once. */
  lemma PatchIdempotent(s: seq<Note>, id: string, body: Body)
    ensures var once := Patch(s, id, body);
      Patch(once.notes, id, body) == once
  {
    var once := Patch(s, id, body);
    if once.response.Ok? {
      FirstIndexDependsOnIds(s, once.notes, id);
    }
  }

  // ---------------------------------------------------------------------------
  // PUT /notes/:id

  /** PUT answers 404 and changes nothing exactly when no note has the id. */
  lemma PutNotFound(s: seq<Note>, id: string, body: Body)
    ensures Put(s, id, body).response.NotFound? <==> forall j :: 0 <= j < |s| ==> s[j].id != id
    ensures Put(s, id, body).response.NotFound? ==> Put(s, id, body).notes == s
    ensures Put(s, id, body).response.Ok? || Put(s, id, body).response.NotFound?
  {
  }

  /** A successful PUT answers with the path id and, on the first note with
      that id, overwrites `title` and `content` when given and always
      overwrites `tags`: with the body's `tag`, or with the empty array when
      the body gives none. The id, the other notes and the length stay. */
  lemma PutSuccess(s: seq<Note>, id: string, body: Body, k: nat)
    requires k < |s| && s[k].id == id
    ensures var st := Put(s, id, body);
      && st.response == Ok(id)
      && |st.notes| == |s|
      && exists i :: 0 <= i <= k
           && s[i].id == id
           && (forall j :: 0 <= j < i ==> s[j].id != id)
           && (forall j :: 0 <= j < |s| && j != i ==> st.notes[j] == s[j])
           && st.notes[i].id == id
           && st.notes[i].title == (if Get(body, "title") != Undefined then Get(body, "title") else s[i].title)
           && st.notes[i].content == (if Get(body, "content") != Undefined then Get(body, "content") else s[i].content)
           && st.notes[i].tags == (if Get(body, "tag") != Undefined then Get(body, "tag") else Arr([]))
  {
  }

  /** The two update paths differ on tags: for a body that gives neither
      `tags` nor `tag`, PATCH keeps the note's tags and PUT empties them. */
  lemma PatchKeepsTagsPutClears(s: seq<Note>, id: string, body: Body, k: nat)
    requires k < |s| && s[k].id == id
    requires "tags" !in body && "tag" !in body
    ensures var i := FirstIndex(s, id);
      && Patch(s, id, body).notes[i].tags == s[i].tags
      && Put(s, id, body).notes[i].tags == Arr([])
  {
  }

  /** Applying the same PUT twice leaves the same store as applying it once. */
  lemma PutIdempotent(s: seq<Note>, id: string, body: Body)
    ensures var once := Put(s, id, body);
      Put(once.notes, id, body) == once
  {
    var once := Put(s, id, body);
    if once.response.Ok? {
      FirstIndexDependsOnIds(s, once.notes, id);
    }
  }

  // ---------------------------------------------------------------------------
  // DELETE /notes

  /** Delete-all empties the store whatever it held, so the next note created
      is called "1" again. */
  lemma DeleteAllRestartsIds(s: seq<Note>, body: Body)
    ensures DeleteAll(s) == Step(Ok([]), [])
    ensures Create(DeleteAll(s).notes, body).response.value.id == "1"
  {
  }

  // ---------------------------------------------------------------------------
  // The id invariant

  /** Every handler keeps every stored id a numeral of a positive number:
      ids are only ever made by Create, and PATCH and PUT never change them. */
  lemma StepsKeepNumeralIds(s: seq<Note>, id: string, body: Body)
    requires NumeralIds(s)
    ensures NumeralIds(Create(s, body).notes)
    ensures NumeralIds(DeleteOne(s, id).notes)
    ensures NumeralIds(Patch(s, id, body).notes)
    ensures NumeralIds(Put(s, id, body).notes)
    ensures NumeralIds(DeleteAll(s).notes)
  {
  }

  /** Under that invariant, a path id that is not such a numeral ("0", "01",
      "abc", "") never finds a note. */
  lemma NonNumeralIdNotFound(s: seq<Note>, id: string, body: Body)
    requires NumeralIds(s)
    requires !IsPositiveNumeral(id)
    ensures DeleteOne(s, id) == Step(NotFound, s)
    ensures Patch(s, id, body) == Step(NotFound, s)
    ensures Put(s, id, body) == Step(NotFound, s)
  {
  }
}
