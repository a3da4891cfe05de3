/**
 * The household journal. Entries are dated; an entry is private to its
 * author unless it is shared, and only the author may change or delete it.
 */
module Journal {
  import opened Wrappers
  import opened Dates
  import opened Types
  import opened Query

  datatype JournalEntry = JournalEntry(
    id: Uuid,
    householdId: Uuid,
    userId: Uuid,
    title: string,
    content: string,
    entryDate: Date,
    isShared: bool,
    createdAt: Instant,
    updatedAt: Instant)

  datatype CreateJournalEntryRequest = CreateJournalEntryRequest(
    title: Option<string>, content: string, entryDate: Option<Date>, isShared: bool)

  datatype UpdateJournalEntryRequest = UpdateJournalEntryRequest(
    title: Option<string>, content: Option<string>, entryDate: Option<Date>, isShared: Option<bool>)

  datatype JournalError = NotFound | PermissionDenied

  /** can_view_entry: shared entries are for everybody, private ones for their author. */
  predicate CanViewEntry(entry: JournalEntry, userId: Uuid)
  {
    entry.isShared || entry.userId == userId
  }

  predicate IdsUnique(es: seq<JournalEntry>)
  {
    forall i, j :: 0 <= i < j < |es| ==> es[i].id != es[j].id
  }

  lemma AppendKeepsUnique(es: seq<JournalEntry>, e: JournalEntry)
    requires IdsUnique(es) && FindEntry(es, e.id).None?
    ensures IdsUnique(es + [e])
  {
  }

  function FindEntry(es: seq<JournalEntry>, id: Uuid): (r: Option<nat>)
    ensures r.Some? ==> r.value < |es| && es[r.value].id == id
    ensures r.None? <==> forall i :: 0 <= i < |es| ==> es[i].id != id
  {
    if es == [] then None
    else if es[|es| - 1].id == id then Some(|es| - 1)
    else FindEntry(es[..|es| - 1], id)
  }

  /**
   * The entry create_journal_entry inserts: a missing title is the empty
   * text and a missing date is today's date in UTC.
   */
  function NewEntry(householdId: Uuid, userId: Uuid, req: CreateJournalEntryRequest, id: Uuid, now: Instant)
    : (e: JournalEntry)
    ensures req.title.None? ==> e.title == []
    ensures req.title.Some? ==> e.title == req.title.value
    ensures req.entryDate.None? ==> e.entryDate == DateOfInstant(now)
    ensures req.entryDate.Some? ==> e.entryDate == req.entryDate.value
    ensures e.id == id && e.householdId == householdId && e.userId == userId && e.content == req.content
    ensures e.isShared == req.isShared && e.createdAt == now && e.updatedAt == now
  {
    JournalEntry(id, householdId, userId, req.title.UnwrapOr([]), req.content,
                 req.entryDate.UnwrapOr(DateOfInstant(now)), req.isShared, now, now)
  }

  /** update_journal_entry's merge: each present field replaces the stored one. */
  function MergeEntry(e: JournalEntry, req: UpdateJournalEntryRequest, now: Instant): (r: JournalEntry)
    ensures r.id == e.id && r.householdId == e.householdId && r.userId == e.userId && r.createdAt == e.createdAt
    ensures r.updatedAt == now
    ensures r.title == (if req.title.Some? then req.title.value else e.title)
    ensures r.content == (if req.content.Some? then req.content.value else e.content)
    ensures r.entryDate == (if req.entryDate.Some? then req.entryDate.value else e.entryDate)
    ensures r.isShared == (if req.isShared.Some? then req.isShared.value else e.isShared)
  {
    e.(title := req.title.UnwrapOr(e.title), content := req.content.UnwrapOr(e.content),
       entryDate := req.entryDate.UnwrapOr(e.entryDate), isShared := req.isShared.UnwrapOr(e.isShared),
       updatedAt := now)
  }

  lemma MergeEntryIdempotent(e: JournalEntry, req: UpdateJournalEntryRequest, now: Instant)
    ensures MergeEntry(MergeEntry(e, req, now), req, now) == MergeEntry(e, req, now)
  {
  }

  predicate Listed(e: JournalEntry, householdId: Uuid, userId: Uuid)
  {
    e.householdId == householdId && CanViewEntry(e, userId)
  }

  function ListedOf(householdId: Uuid, userId: Uuid): JournalEntry -> bool
  {
    (e: JournalEntry) => Listed(e, householdId, userId)
  }

  /** ORDER BY entry_date DESC, created_at DESC. */
  function NewestFirst(): JournalEntry -> seq<int>
  {
    (e: JournalEntry) => DateKeyDesc(e.entryDate) + [-e.createdAt]
  }

  /** Whether a comes before b in the listing: a later date, or the same date and a later creation. */
  predicate ListedBefore(a: JournalEntry, b: JournalEntry)
  {
    LexLess(b.entryDate, a.entryDate) || (a.entryDate == b.entryDate && a.createdAt > b.createdAt)
  }

  lemma NewestFirstKey(a: JournalEntry, b: JournalEntry)
    ensures KeyLess(NewestFirst()(a), NewestFirst()(b)) <==> ListedBefore(a, b)
  {
    assert NewestFirst()(a) == [-a.entryDate.year, -a.entryDate.month, -a.entryDate.day, -a.createdAt];
    assert NewestFirst()(b) == [-b.entryDate.year, -b.entryDate.month, -b.entryDate.day, -b.createdAt];
    KeyOfFour(-a.entryDate.year, -a.entryDate.month, -a.entryDate.day, -a.createdAt,
              -b.entryDate.year, -b.entryDate.month, -b.entryDate.day, -b.createdAt);
  }

  /**
   * list_journal_entries: exactly the household's entries that are shared
   * or the user's own, latest entry date first and, on one date, latest
   * creation first.
   */
  function ListEntries(es: seq<JournalEntry>, householdId: Uuid, userId: Uuid): (r: seq<JournalEntry>)
    ensures forall i :: 0 <= i < |r| ==> r[i] in es && r[i].householdId == householdId && CanViewEntry(r[i], userId)
    ensures forall i :: 0 <= i < |es| && es[i].householdId == householdId && CanViewEntry(es[i], userId) ==> es[i] in r
    ensures |r| == Count(es, ListedOf(householdId, userId))
    ensures forall i, j :: 0 <= i < j < |r| ==> !ListedBefore(r[j], r[i])
  {
    var r := Select(es, ListedOf(householdId, userId), NewestFirst());
    forall i, j | 0 <= i < j < |r|
      ensures !ListedBefore(r[j], r[i])
    {
      NewestFirstKey(r[j], r[i]);
    }
    r
  }

  class JournalStore {
    var entries: seq<JournalEntry>

    predicate Valid()
      reads this
    {
      IdsUnique(entries)
    }

    constructor ()
      ensures entries == [] && Valid()
    {
      entries := [];
    }

    /** create_journal_entry with the fresh id id. */
    method CreateEntry(householdId: Uuid, userId: Uuid, req: CreateJournalEntryRequest, id: Uuid, now: Instant)
      returns (e: JournalEntry)
      requires Valid() && FindEntry(entries, id).None?
      modifies this
      ensures Valid()
      ensures e == NewEntry(householdId, userId, req, id, now) && entries == old(entries) + [e]
    {
      e := NewEntry(householdId, userId, req, id, now);
      AppendKeepsUnique(entries, e);
      entries := entries + [e];
    }

    /** update_journal_entry: NotFound, then PermissionDenied for a non-author, else the merge. */
    method UpdateEntry(entryId: Uuid, userId: Uuid, req: UpdateJournalEntryRequest, now: Instant)
      returns (res: Result<JournalEntry, JournalError>)
      requires Valid()
      modifies this
      ensures Valid()
      ensures match old(FindEntry(entries, entryId))
        case None => res == Err(NotFound) && entries == old(entries)
        case Some(i) =>
          if old(entries[i]).userId != userId then res == Err(PermissionDenied) && entries == old(entries)
          else res == Ok(MergeEntry(old(entries[i]), req, now)) && entries == old(entries)[i := res.value]
    {
      var found := FindEntry(entries, entryId);
      if found.None? {
        return Err(NotFound);
      }
      var i := found.value;
      if entries[i].userId != userId {
        return Err(PermissionDenied);
      }
      var merged := MergeEntry(entries[i], req, now);
      entries := entries[i := merged];
      res := Ok(merged);
    }

    /** delete_journal_entry: NotFound, then PermissionDenied for a non-author, else the row goes. */
    method DeleteEntry(entryId: Uuid, userId: Uuid) returns (res: Result<(), JournalError>)
      requires Valid()
      modifies this
      ensures Valid()
      ensures match old(FindEntry(entries, entryId))
        case None => res == Err(NotFound) && entries == old(entries)
        case Some(i) =>
          if old(entries[i]).userId != userId then res == Err(PermissionDenied) && entries == old(entries)
          else res == Ok(()) && entries == RemoveAt(old(entries), i)
    {
      var found := FindEntry(entries, entryId);
      if found.None? {
        return Err(NotFound);
      }
      var i := found.value;
      if entries[i].userId != userId {
        return Err(PermissionDenied);
      }
      entries := RemoveAt(entries, i);
      res := Ok(());
    }
  }
}
