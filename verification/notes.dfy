/** The notes store (lib/notes.ts): a newest-first read of the `notes` key,
    an add that never deduplicates, an in-place content update and a delete,
    each a full read-modify-write of the collection. */
module Notes {
  import opened Wrappers
  import opened Collections
  import opened Storage

  datatype Note = Note(id: string, content: string, timestamp: int)

  /** The key of `getNotes`' comparator: larger timestamps first. */
  function NoteRank(n: Note): Rank {
    Rank(0, -n.timestamp)
  }

  /** Timestamps do not increase along the listing. */
  ghost predicate NewestFirst(s: seq<Note>) {
    forall i, j | 0 <= i < j < |s| :: s[i].timestamp >= s[j].timestamp
  }

  /** `getNotes()`: the stored notes newest first; empty without a window,
      without a stored value, or when the value does not parse. */
  function GetNotes(slot: Slot<Note>): (r: seq<Note>)
    ensures multiset(r) == multiset(Load(slot))
    ensures NewestFirst(r)
    ensures !slot.hasWindow || !slot.blob.Present? ==> r == []
  {
    var r := Sort(Load(slot), NoteRank);
    assert SortedBy(r, NoteRank);
    r
  }

  datatype Added = Added(note: Note, slot: Slot<Note>)

  /** `addNote(content)` with the fresh id and the current time supplied: the
      new note holds the content verbatim and goes in front of the listing. */
  function AddNote(slot: Slot<Note>, content: string, id: string, now: int): (r: Added)
    ensures r.note == Note(id, content, now)
    ensures slot.hasWindow ==> r.slot.events == slot.events + 1
    ensures slot.hasWindow ==> Load(r.slot) == [r.note] + GetNotes(slot)
    ensures slot.hasWindow ==> multiset(Load(r.slot)) == multiset(Load(slot)) + multiset{r.note}
    ensures !slot.hasWindow ==> r.slot == slot
  {
    var n := Note(id, content, now);
    Added(n, Save(slot, [n] + GetNotes(slot)))
  }

  /** Adding then listing shows the new note with its content. */
  lemma AddNoteThenList(slot: Slot<Note>, content: string, id: string, now: int)
    requires slot.hasWindow
    ensures var r := AddNote(slot, content, id, now);
            r.note in GetNotes(r.slot) && r.note.content == content
            && |GetNotes(r.slot)| == |GetNotes(slot)| + 1
  {
    var r := AddNote(slot, content, id, now);
    assert r.note in multiset(GetNotes(r.slot));
    assert |multiset(GetNotes(r.slot))| == |multiset(GetNotes(slot))| + 1;
  }

  /** `s[k]` is the first note of `s` carrying `id`. */
  predicate FirstWithId(s: seq<Note>, id: string, k: int) {
    0 <= k < |s| && s[k].id == id && forall j | 0 <= j < k :: s[j].id != id
  }

  /** `updateNote(id, content)`: replaces the content of the first note with
      that id, keeping its id and timestamp and every other note; an unknown id
      writes nothing and dispatches no event. */
  function UpdateNote(slot: Slot<Note>, id: string, content: string): (r: Slot<Note>)
    ensures (forall j | 0 <= j < |GetNotes(slot)| :: GetNotes(slot)[j].id != id) ==> r == slot
    ensures forall k | FirstWithId(GetNotes(slot), id, k) ::
              && r.events == slot.events + 1
              && |Load(r)| == |GetNotes(slot)|
              && Load(r)[k] == GetNotes(slot)[k].(content := content)
              && forall j | 0 <= j < |Load(r)| && j != k :: Load(r)[j] == GetNotes(slot)[j]
  {
    var notes := GetNotes(slot);
    match FindIndex(notes, (n: Note) => n.id == id)
    case None => slot
    case Some(k) =>
      assert FirstWithId(notes, id, k);
      assert forall k' | FirstWithId(notes, id, k') :: k' == k;
      Save(slot, notes[k := notes[k].(content := content)])
  }

  /** Updating then listing shows the new content under that id. */
  lemma UpdateNoteThenList(slot: Slot<Note>, id: string, content: string)
    requires exists n :: n in GetNotes(slot) && n.id == id
    ensures exists n :: n in GetNotes(UpdateNote(slot, id, content)) && n.id == id && n.content == content
  {
    var notes := GetNotes(slot);
    var k :| 0 <= k < |notes| && notes[k].id == id;
    match FindIndex(notes, (n: Note) => n.id == id)
    case None =>
      assert false;
    case Some(k0) =>
      assert FirstWithId(notes, id, k0);
      var r := UpdateNote(slot, id, content);
      var n := Load(r)[k0];
      assert n in multiset(GetNotes(r));
  }

  /** The notes `deleteNote(id)` keeps. */
  function OtherNote(id: string): Note -> bool {
    (n: Note) => n.id != id
  }

  /** `deleteNote(id)`: writes the listing without any note carrying `id`,
      and dispatches an event whether or not one was removed. Every other
      note of the listing survives, once per occurrence and in listing order. */
  function DeleteNote(slot: Slot<Note>, id: string): (r: Slot<Note>)
    ensures slot.hasWindow ==> r.events == slot.events + 1 && r.blob.Present?
    ensures !slot.hasWindow ==> r == slot
    ensures forall i | 0 <= i < |Load(r)| :: Load(r)[i].id != id && Load(r)[i] in GetNotes(slot)
    ensures slot.hasWindow ==> forall n | n in GetNotes(slot) && n.id != id :: n in Load(r)
    ensures slot.hasWindow ==> SubsequenceOf(Load(r), GetNotes(slot))
    ensures slot.hasWindow ==> |Load(r)| == Count(GetNotes(slot), OtherNote(id))
    ensures NewestFirst(Load(r))
  {
    var kept := Filter(GetNotes(slot), OtherNote(id));
    FilterKeepsOrder(GetNotes(slot), OtherNote(id), NoteRank);
    FilterSubsequence(GetNotes(slot), OtherNote(id));
    Save(slot, kept)
  }

  /** Deleting twice leaves the same collection as deleting once, and no
      listed note carries the id afterwards. */
  lemma DeleteNoteIdempotent(slot: Slot<Note>, id: string)
    ensures DeleteNote(DeleteNote(slot, id), id).blob == DeleteNote(slot, id).blob
    ensures slot.hasWindow ==> DeleteNote(DeleteNote(slot, id), id).events == slot.events + 2
    ensures forall n | n in GetNotes(DeleteNote(slot, id)) :: n.id != id
  {
    var p := OtherNote(id);
    var once := DeleteNote(slot, id);
    forall n | n in GetNotes(once)
      ensures n.id != id
    {
      assert n in multiset(Load(once));
    }
    if slot.hasWindow {
      var kept := Filter(GetNotes(slot), p);
      assert Load(once) == kept;
      FilterKeepsOrder(GetNotes(slot), p, NoteRank);
      SortOfSorted(kept, NoteRank);
      assert GetNotes(once) == kept;
      FilterIdempotent(GetNotes(slot), p);
    }
  }
}
