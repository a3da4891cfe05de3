/**
 * Household notes. A note is private to its author unless it is shared;
 * only the author may change or delete it.
 */
module Notes {
  import opened Wrappers
  import opened Dates
  import opened Types
  import opened Query

  datatype Note = Note(
    id: Uuid,
    householdId: Uuid,
    userId: Uuid,
    title: string,
    content: string,
    isShared: bool,
    createdAt: Instant,
    updatedAt: Instant)

  datatype CreateNoteRequest = CreateNoteRequest(title: string, content: Option<string>, isShared: bool)

  datatype UpdateNoteRequest = UpdateNoteRequest(title: Option<string>, content: Option<string>, isShared: Option<bool>)

  datatype NoteError = NotFound | PermissionDenied

  /** can_view_note: shared notes are for everybody, private ones for their author. */
  predicate CanViewNote(note: Note, userId: Uuid)
  {
    note.isShared || note.userId == userId
  }

  lemma CanViewNoteRules(note: Note, userId: Uuid)
    ensures note.userId == userId ==> CanViewNote(note, userId)
    ensures !note.isShared ==> (CanViewNote(note, userId) <==> note.userId == userId)
    ensures note.isShared ==> CanViewNote(note, userId)
  {
  }

  predicate IdsUnique(ns: seq<Note>)
  {
    forall i, j :: 0 <= i < j < |ns| ==> ns[i].id != ns[j].id
  }

  function FindNote(ns: seq<Note>, id: Uuid): (r: Option<nat>)
    ensures r.Some? ==> r.value < |ns| && ns[r.value].id == id
    ensures r.None? <==> forall i :: 0 <= i < |ns| ==> ns[i].id != id
  {
    if ns == [] then None
    else if ns[|ns| - 1].id == id then Some(|ns| - 1)
    else FindNote(ns[..|ns| - 1], id)
  }

  /** The note create_note inserts: a missing content is the empty text. */
  function NewNote(householdId: Uuid, userId: Uuid, req: CreateNoteRequest, id: Uuid, now: Instant): (n: Note)
    ensures n.content == req.content.UnwrapOr([])
    ensures req.content.None? ==> n.content == []
    ensures n.id == id && n.householdId == householdId && n.userId == userId && n.title == req.title
    ensures n.isShared == req.isShared && n.createdAt == now && n.updatedAt == now
  {
    Note(id, householdId, userId, req.title, req.content.UnwrapOr([]), req.isShared, now, now)
  }

  /** update_note's merge: each present field replaces the stored one; updated_at becomes now. */
  function MergeNote(n: Note, req: UpdateNoteRequest, now: Instant): (r: Note)
    ensures r.id == n.id && r.householdId == n.householdId && r.userId == n.userId && r.createdAt == n.createdAt
    ensures r.updatedAt == now
    ensures r.title == (if req.title.Some? then req.title.value else n.title)
    ensures r.content == (if req.content.Some? then req.content.value else n.content)
    ensures r.isShared == (if req.isShared.Some? then req.isShared.value else n.isShared)
  {
    n.(title := req.title.UnwrapOr(n.title), content := req.content.UnwrapOr(n.content),
       isShared := req.isShared.UnwrapOr(n.isShared), updatedAt := now)
  }

  lemma MergeNoteIdempotent(n: Note, req: UpdateNoteRequest, now: Instant)
    ensures MergeNote(MergeNote(n, req, now), req, now) == MergeNote(n, req, now)
    ensures req == UpdateNoteRequest(None, None, None) ==> MergeNote(n, req, now) == n.(updatedAt := now)
  {
  }

  /** Listed for the user: in the household and viewable by the user. */
  predicate Listed(n: Note, householdId: Uuid, userId: Uuid)
  {
    n.householdId == householdId && CanViewNote(n, userId)
  }

  function ListedOf(householdId: Uuid, userId: Uuid): Note -> bool
  {
    (n: Note) => Listed(n, householdId, userId)
  }

  /** ORDER BY updated_at DESC. */
  function RecentlyUpdatedFirst(): Note -> seq<int>
  {
    (n: Note) => [-n.updatedAt]
  }

  /**
   * list_notes: exactly the household's notes that are shared or the
   * user's own, most recently updated first.
   */
  function ListNotes(ns: seq<Note>, householdId: Uuid, userId: Uuid): (r: seq<Note>)
    ensures forall i :: 0 <= i < |r| ==> r[i] in ns && r[i].householdId == householdId && CanViewNote(r[i], userId)
    ensures forall i :: 0 <= i < |ns| && ns[i].householdId == householdId && CanViewNote(ns[i], userId) ==> ns[i] in r
    ensures |r| == Count(ns, ListedOf(householdId, userId))
    ensures forall i, j :: 0 <= i < j < |r| ==> r[i].updatedAt >= r[j].updatedAt
  {
    var r := Select(ns, ListedOf(householdId, userId), RecentlyUpdatedFirst());
    forall i, j | 0 <= i < j < |r|
      ensures r[i].updatedAt >= r[j].updatedAt
    {
      assert !KeyLess(RecentlyUpdatedFirst()(r[j]), RecentlyUpdatedFirst()(r[i]));
    }
    r
  }

  /** Another user's private note is never listed. */
  lemma PrivateNotesStayPrivate(ns: seq<Note>, householdId: Uuid, userId: Uuid, n: Note)
    requires !n.isShared && n.userId != userId
    ensures n !in ListNotes(ns, householdId, userId)
  {
  }

  class NoteStore {
    var notes: seq<Note>

    predicate Valid()
      reads this
    {
      IdsUnique(notes)
    }

    constructor ()
      ensures notes == [] && Valid()
    {
      notes := [];
    }

    /** create_note with the fresh id id. */
    method CreateNote(householdId: Uuid, userId: Uuid, req: CreateNoteRequest, id: Uuid, now: Instant)
      returns (n: Note)
      requires Valid() && FindNote(notes, id).None?
      modifies this
      ensures Valid()
      ensures n == NewNote(householdId, userId, req, id, now) && notes == old(notes) + [n]
    {
      n := NewNote(householdId, userId, req, id, now);
      notes := notes + [n];
    }

    /** update_note: NotFound, then PermissionDenied for a non-author, else the merge. */
    method UpdateNote(noteId: Uuid, userId: Uuid, req: UpdateNoteRequest, now: Instant)
      returns (res: Result<Note, NoteError>)
      requires Valid()
      modifies this
      ensures Valid()
      ensures match old(FindNote(notes, noteId))
        case None => res == Err(NotFound) && notes == old(notes)
        case Some(i) =>
          if old(notes[i]).userId != userId then res == Err(PermissionDenied) && notes == old(notes)
          else res == Ok(MergeNote(old(notes[i]), req, now)) && notes == old(notes)[i := res.value]
    {
      var found := FindNote(notes, noteId);
      if found.None? {
        return Err(NotFound);
      }
      var i := found.value;
      if notes[i].userId != userId {
        return Err(PermissionDenied);
      }
      var merged := MergeNote(notes[i], req, now);
      notes := notes[i := merged];
      res := Ok(merged);
    }

    /** delete_note: NotFound, then PermissionDenied for a non-author, else the row goes. */
    method DeleteNote(noteId: Uuid, userId: Uuid) returns (res: Result<(), NoteError>)
      requires Valid()
      modifies this
      ensures Valid()
      ensures match old(FindNote(notes, noteId))
        case None => res == Err(NotFound) && notes == old(notes)
        case Some(i) =>
          if old(notes[i]).userId != userId then res == Err(PermissionDenied) && notes == old(notes)
          else res == Ok(()) && notes == RemoveAt(old(notes), i)
      ensures FindNote(notes, noteId).None? || res.Err?
    {
      var found := FindNote(notes, noteId);
      if found.None? {
        return Err(NotFound);
      }
      var i := found.value;
      if notes[i].userId != userId {
        return Err(PermissionDenied);
      }
      ghost var before := notes;
      notes := RemoveAt(notes, i);
      forall k | 0 <= k < |notes|
        ensures notes[k].id != noteId
      {
        if k < i {
          assert notes[k] == before[k];
        } else {
          assert notes[k] == before[k + 1];
        }
      }
      res := Ok(());
    }
  }
}
