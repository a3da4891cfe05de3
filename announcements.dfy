/**
 * Household announcements: a title and a text shown to members during an
 * optional time window.
 */
module Announcements {
  import opened Wrappers
  import opened Dates
  import opened Types
  import opened Query

  datatype Announcement = Announcement(
    id: Uuid,
    householdId: Uuid,
    createdBy: Uuid,
    title: string,
    content: string,
    startsAt: Option<Instant>,
    endsAt: Option<Instant>,
    createdAt: Instant,
    updatedAt: Instant)

  datatype CreateAnnouncementRequest = CreateAnnouncementRequest(
    title: string, content: Option<string>, startsAt: Option<Instant>, endsAt: Option<Instant>)

  /**
   * An update: an absent title or content keeps the stored one; for the
   * window bounds the outer option says whether to touch the bound at all
   * and the inner one is the new (possibly cleared) bound.
   */
  datatype UpdateAnnouncementRequest = UpdateAnnouncementRequest(
    title: Option<string>, content: Option<string>,
    startsAt: Option<Option<Instant>>, endsAt: Option<Option<Instant>>)

  datatype AnnouncementError = NotFound

  /** Shown at now: started (or no start) and not yet ended (or no end). */
  predicate IsActive(a: Announcement, now: Instant)
  {
    (a.startsAt.None? || a.startsAt.value <= now) && (a.endsAt.None? || a.endsAt.value > now)
  }

  /** The window is half-open: the start instant is inside it, the end instant is not. */
  lemma ActiveWindow(a: Announcement, now: Instant)
    ensures a.startsAt == None && a.endsAt == None ==> IsActive(a, now)
    ensures a.startsAt.Some? && a.endsAt.Some? ==>
      (IsActive(a, now) <==> a.startsAt.value <= now < a.endsAt.value)
    ensures a.startsAt.Some? && now < a.startsAt.value ==> !IsActive(a, now)
    ensures a.endsAt.Some? && a.endsAt.value <= now ==> !IsActive(a, now)
    ensures a.startsAt.Some? && a.endsAt.Some? && a.endsAt.value <= a.startsAt.value ==> !IsActive(a, now)
  {
  }

  predicate IdsUnique(as_: seq<Announcement>)
  {
    forall i, j :: 0 <= i < j < |as_| ==> as_[i].id != as_[j].id
  }

  function FindAnnouncement(as_: seq<Announcement>, id: Uuid): (r: Option<nat>)
    ensures r.Some? ==> r.value < |as_| && as_[r.value].id == id
    ensures r.None? <==> forall i :: 0 <= i < |as_| ==> as_[i].id != id
  {
    if as_ == [] then None
    else if as_[|as_| - 1].id == id then Some(|as_| - 1)
    else FindAnnouncement(as_[..|as_| - 1], id)
  }

  /** The row create_announcement inserts: a missing content is the empty text. */
  function NewAnnouncement(householdId: Uuid, userId: Uuid, req: CreateAnnouncementRequest, id: Uuid, now: Instant)
    : (a: Announcement)
    ensures req.content.None? ==> a.content == []
    ensures req.content.Some? ==> a.content == req.content.value
    ensures a.id == id && a.householdId == householdId && a.createdBy == userId && a.title == req.title
    ensures a.startsAt == req.startsAt && a.endsAt == req.endsAt && a.createdAt == now && a.updatedAt == now
  {
    Announcement(id, householdId, userId, req.title, req.content.UnwrapOr([]),
                 req.startsAt, req.endsAt, now, now)
  }

  /** update_announcement's merge. */
  function MergeAnnouncement(a: Announcement, req: UpdateAnnouncementRequest, now: Instant): (r: Announcement)
    ensures r.id == a.id && r.householdId == a.householdId && r.createdBy == a.createdBy
    ensures r.createdAt == a.createdAt && r.updatedAt == now
    ensures r.title == (if req.title.Some? then req.title.value else a.title)
    ensures r.content == (if req.content.Some? then req.content.value else a.content)
    ensures req.startsAt.None? ==> r.startsAt == a.startsAt
    ensures req.startsAt == Some(None) ==> r.startsAt.None?
    ensures forall t :: req.startsAt == Some(Some(t)) ==> r.startsAt == Some(t)
    ensures req.endsAt.None? ==> r.endsAt == a.endsAt
    ensures req.endsAt == Some(None) ==> r.endsAt.None?
    ensures forall t :: req.endsAt == Some(Some(t)) ==> r.endsAt == Some(t)
  {
    a.(title := req.title.UnwrapOr(a.title), content := req.content.UnwrapOr(a.content),
       startsAt := req.startsAt.UnwrapOr(a.startsAt), endsAt := req.endsAt.UnwrapOr(a.endsAt),
       updatedAt := now)
  }

  /** Applying the same update twice is applying it once; clearing both bounds makes it always shown. */
  lemma MergeAnnouncementRules(a: Announcement, req: UpdateAnnouncementRequest, now: Instant, later: Instant)
    ensures MergeAnnouncement(MergeAnnouncement(a, req, now), req, now) == MergeAnnouncement(a, req, now)
    ensures req.startsAt == Some(None) && req.endsAt == Some(None) ==> IsActive(MergeAnnouncement(a, req, now), later)
    ensures req.startsAt.None? && req.endsAt.None? ==>
      (IsActive(MergeAnnouncement(a, req, now), later) <==> IsActive(a, later))
  {
  }

  function InHousehold(householdId: Uuid): Announcement -> bool
  {
    (a: Announcement) => a.householdId == householdId
  }

  function ActiveIn(householdId: Uuid, now: Instant): Announcement -> bool
  {
    (a: Announcement) => a.householdId == householdId && IsActive(a, now)
  }

  /** ORDER BY created_at DESC. */
  function NewestFirst(): Announcement -> seq<int>
  {
    (a: Announcement) => [-a.createdAt]
  }

  /** list_announcements: every announcement of the household, newest first. */
  function ListAnnouncements(as_: seq<Announcement>, householdId: Uuid): (r: seq<Announcement>)
    ensures forall i :: 0 <= i < |r| ==> r[i] in as_ && r[i].householdId == householdId
    ensures forall i :: 0 <= i < |as_| && as_[i].householdId == householdId ==> as_[i] in r
    ensures |r| == Count(as_, InHousehold(householdId))
    ensures forall i, j :: 0 <= i < j < |r| ==> r[i].createdAt >= r[j].createdAt
  {
    var r := Select(as_, InHousehold(householdId), NewestFirst());
    forall i, j | 0 <= i < j < |r|
      ensures r[i].createdAt >= r[j].createdAt
    {
      assert !KeyLess(NewestFirst()(r[j]), NewestFirst()(r[i]));
    }
    r
  }

  /** list_active_announcements: exactly the household's announcements active at now, newest first. */
  function ListActiveAnnouncements(as_: seq<Announcement>, householdId: Uuid, now: Instant): (r: seq<Announcement>)
    ensures forall i :: 0 <= i < |r| ==> r[i] in as_ && r[i].householdId == householdId && IsActive(r[i], now)
    ensures forall i :: 0 <= i < |as_| && as_[i].householdId == householdId && IsActive(as_[i], now) ==> as_[i] in r
    ensures |r| == Count(as_, ActiveIn(householdId, now))
    ensures forall i, j :: 0 <= i < j < |r| ==> r[i].createdAt >= r[j].createdAt
  {
    var r := Select(as_, ActiveIn(householdId, now), NewestFirst());
    forall i, j | 0 <= i < j < |r|
      ensures r[i].createdAt >= r[j].createdAt
    {
      assert !KeyLess(NewestFirst()(r[j]), NewestFirst()(r[i]));
    }
    r
  }

  /** The display list is part of the management list and never longer. */
  lemma ActiveAmongAll(as_: seq<Announcement>, householdId: Uuid, now: Instant)
    ensures forall a :: a in ListActiveAnnouncements(as_, householdId, now) ==> a in ListAnnouncements(as_, householdId)
    ensures |ListActiveAnnouncements(as_, householdId, now)| <= |ListAnnouncements(as_, householdId)|
  {
    CountMonotone(as_, ActiveIn(householdId, now), InHousehold(householdId));
  }

  class AnnouncementStore {
    var announcements: seq<Announcement>

    predicate Valid()
      reads this
    {
      IdsUnique(announcements)
    }

    constructor ()
      ensures announcements == [] && Valid()
    {
      announcements := [];
    }

    /** create_announcement with the fresh id id. */
    method CreateAnnouncement(householdId: Uuid, userId: Uuid, req: CreateAnnouncementRequest, id: Uuid, now: Instant)
      returns (a: Announcement)
      requires Valid() && FindAnnouncement(announcements, id).None?
      modifies this
      ensures Valid()
      ensures a == NewAnnouncement(householdId, userId, req, id, now) && announcements == old(announcements) + [a]
    {
      a := NewAnnouncement(householdId, userId, req, id, now);
      announcements := announcements + [a];
    }

    /** update_announcement: NotFound for an unknown id, else the merge. */
    method UpdateAnnouncement(id: Uuid, req: UpdateAnnouncementRequest, now: Instant)
      returns (res: Result<Announcement, AnnouncementError>)
      requires Valid()
      modifies this
      ensures Valid()
      ensures match old(FindAnnouncement(announcements, id))
        case None => res == Err(NotFound) && announcements == old(announcements)
        case Some(i) =>
          res == Ok(MergeAnnouncement(old(announcements[i]), req, now))
          && announcements == old(announcements)[i := res.value]
    {
      var found := FindAnnouncement(announcements, id);
      if found.None? {
        return Err(NotFound);
      }
      var i := found.value;
      var merged := MergeAnnouncement(announcements[i], req, now);
      announcements := announcements[i := merged];
      res := Ok(merged);
    }

    /** delete_announcement: NotFound when no row goes, else the row goes. */
    method DeleteAnnouncement(id: Uuid) returns (res: Result<(), AnnouncementError>)
      requires Valid()
      modifies this
      ensures Valid()
      ensures match old(FindAnnouncement(announcements, id))
        case None => res == Err(NotFound) && announcements == old(announcements)
        case Some(i) => res == Ok(()) && announcements == RemoveAt(old(announcements), i)
    {
      var found := FindAnnouncement(announcements, id);
      if found.None? {
        return Err(NotFound);
      }
      announcements := RemoveAt(announcements, found.value);
      res := Ok(());
    }
  }
}
