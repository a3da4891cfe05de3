/**
 * The household chat: messages are written, edited and soft-deleted by
 * their authors, and listed newest first in pages that a cursor (the id
 * of the oldest message seen so far) moves back in time.
 */
module Chat {
  import opened Wrappers
  import opened Dates
  import opened Types
  import opened Text
  import opened Query

  datatype ChatMessage = ChatMessage(
    id: Uuid,
    householdId: Uuid,
    userId: Uuid,
    content: string,
    createdAt: Instant,
    updatedAt: Instant,
    deletedAt: Option<Instant>)

  datatype ChatError = NotFound | NotAuthorized | EmptyContent

  predicate IsDeleted(m: ChatMessage)
  {
    m.deletedAt.Some?
  }

  predicate IdsUnique(ms: seq<ChatMessage>)
  {
    forall i, j :: 0 <= i < j < |ms| ==> ms[i].id != ms[j].id
  }

  /** The position of the message with this id. */
  function FindMessage(ms: seq<ChatMessage>, id: Uuid): (r: Option<nat>)
    ensures r.Some? ==> r.value < |ms| && ms[r.value].id == id
    ensures r.None? <==> forall i :: 0 <= i < |ms| ==> ms[i].id != id
  {
    if ms == [] then None
    else if ms[|ms| - 1].id == id then Some(|ms| - 1)
    else FindMessage(ms[..|ms| - 1], id)
  }

  lemma FindUnique(ms: seq<ChatMessage>, i: nat)
    requires IdsUnique(ms) && i < |ms|
    ensures FindMessage(ms, ms[i].id) == Some(i)
  {
  }

  // ---------------------------------------------------------------------
  // Listing

  /** Visible in a page: the household's, not deleted, and older than the cursor if there is one. */
  predicate InPage(m: ChatMessage, householdId: Uuid, olderThan: Option<Instant>)
  {
    m.householdId == householdId && !IsDeleted(m)
    && (olderThan.Some? ==> m.createdAt < olderThan.value)
  }

  function InPageOf(householdId: Uuid, olderThan: Option<Instant>): ChatMessage -> bool
  {
    (m: ChatMessage) => InPage(m, householdId, olderThan)
  }

  /** ORDER BY created_at DESC. */
  function NewestFirst(): ChatMessage -> seq<int>
  {
    (m: ChatMessage) => [-m.createdAt]
  }

  /**
   * The instant a cursor stands for: None without a cursor, and also for
   * a cursor naming no message.
   */
  function Cursor(ms: seq<ChatMessage>, before: Option<Uuid>): Option<Instant>
  {
    match before
    case None => None
    case Some(b) =>
      match FindMessage(ms, b)
      case None => None
      case Some(i) => Some(ms[i].createdAt)
  }

  /**
   * list_messages: the household's messages that are not deleted, newest
   * first, at most limit of them (SQLite's LIMIT, so a negative limit
   * bounds nothing). With a cursor only messages strictly older than the
   * cursor's message count, and an unknown cursor gives an empty page. The
   * cursor's own household and deletion are not looked at.
   */
  function ListMessages(ms: seq<ChatMessage>, householdId: Uuid, limit: int, before: Option<Uuid>)
    : (r: seq<ChatMessage>)
    ensures limit >= 0 ==> |r| <= limit
    ensures before.Some? && FindMessage(ms, before.value).None? ==> r == []
    ensures forall i :: 0 <= i < |r| ==> r[i] in ms && InPage(r[i], householdId, Cursor(ms, before))
    ensures forall i, j :: 0 <= i < j < |r| ==> r[i].createdAt >= r[j].createdAt
    ensures before.None? ==>
      |r| == if limit < 0 then Count(ms, InPageOf(householdId, None)) else Min(limit, Count(ms, InPageOf(householdId, None)))
    ensures |r| > 0 ==> forall k ::
      (0 <= k < |ms| && InPage(ms[k], householdId, Cursor(ms, before)) && ms[k].createdAt > r[|r| - 1].createdAt)
      ==> ms[k] in r
  {
    var olderThan := Cursor(ms, before);
    if before.Some? && olderThan.None? then [] else Page(ms, householdId, limit, olderThan)
  }

  /**
   * The query of list_messages once the cursor is resolved to the instant
   * olderThan: the visible messages, newest first, cut to the limit.
   */
  function Page(ms: seq<ChatMessage>, householdId: Uuid, limit: int, olderThan: Option<Instant>)
    : (page: seq<ChatMessage>)
    ensures limit >= 0 ==> |page| <= limit
    ensures forall i :: 0 <= i < |page| ==> page[i] in ms && InPage(page[i], householdId, olderThan)
    ensures forall i, j :: 0 <= i < j < |page| ==> page[i].createdAt >= page[j].createdAt
    ensures |page| == if limit < 0 then Count(ms, InPageOf(householdId, olderThan))
                      else Min(limit, Count(ms, InPageOf(householdId, olderThan)))
    ensures |page| > 0 ==> forall k ::
      (0 <= k < |ms| && InPage(ms[k], householdId, olderThan) && ms[k].createdAt > page[|page| - 1].createdAt)
      ==> ms[k] in page
  {
    var all := Select(ms, InPageOf(householdId, olderThan), NewestFirst());
    var page := SqlLimit(all, limit);
    NewestFirstOrder(all, page);
    forall i | 0 <= i < |page| ensures page[i] in ms && InPage(page[i], householdId, olderThan) {
      assert page[i] == all[i];
      assert InPageOf(householdId, olderThan)(all[i]);
    }
    forall k | 0 <= k < |ms| && InPage(ms[k], householdId, olderThan) && |page| > 0
      && ms[k].createdAt > page[|page| - 1].createdAt
      ensures ms[k] in page
    {
      assert InPageOf(householdId, olderThan)(ms[k]);
      NewestKept(all, page, ms[k]);
    }
    page
  }

  function Min(a: nat, b: nat): nat
  {
    if a < b then a else b
  }

  lemma NewestFirstOrder(all: seq<ChatMessage>, r: seq<ChatMessage>)
    requires SortedBy(all, NewestFirst()) && |r| <= |all| && r == all[..|r|]
    ensures forall i, j :: 0 <= i < j < |r| ==> r[i].createdAt >= r[j].createdAt
  {
    forall i, j | 0 <= i < j < |r|
      ensures r[i].createdAt >= r[j].createdAt
    {
      assert !KeyLess(NewestFirst()(all[j]), NewestFirst()(all[i]));
      assert r[i] == all[i] && r[j] == all[j];
    }
  }

  /** A prefix of the newest-first rows holds every row newer than its last one. */
  lemma NewestKept(all: seq<ChatMessage>, page: seq<ChatMessage>, m: ChatMessage)
    requires SortedBy(all, NewestFirst()) && 0 < |page| <= |all| && page == all[..|page|]
    requires m in all && m.createdAt > page[|page| - 1].createdAt
    ensures m in page
  {
    var j :| 0 <= j < |all| && all[j] == m;
    assert page[j] == m;
  }

  /**
   * Paging does not skip: when a page is shorter than the limit, it holds
   * every visible message older than the cursor.
   */
  lemma ShortPageIsComplete(ms: seq<ChatMessage>, householdId: Uuid, limit: int, before: Uuid, k: nat)
    requires FindMessage(ms, before).Some?
    requires k < |ms| && InPage(ms[k], householdId, Some(ms[FindMessage(ms, before).value].createdAt))
    requires |ListMessages(ms, householdId, limit, Some(before))| < limit
    ensures ms[k] in ListMessages(ms, householdId, limit, Some(before))
  {
    var olderThan := Some(ms[FindMessage(ms, before).value].createdAt);
    var all := Select(ms, InPageOf(householdId, olderThan), NewestFirst());
    var page := ListMessages(ms, householdId, limit, Some(before));
    assert page == SqlLimit(all, limit);
    assert page == all by {
      ShortLimitIsAll(all, limit);
    }
    assert InPageOf(householdId, olderThan)(ms[k]);
  }

  lemma ShortLimitIsAll<T>(all: seq<T>, limit: int)
    requires |SqlLimit(all, limit)| < limit
    ensures SqlLimit(all, limit) == all
  {
  }

  /**
   * The page size of the list_messages handler: the query's limit, 50 when
   * it has none, capped at 100 by min on the signed value.
   */
  function HandlerPageLimit(query: Option<int>): int
  {
    var l := match query case Some(n) => n case None => 50;
    if l < 100 then l else 100
  }

  /**
   * The cap does not hold for a negative limit: a query with limit -1 gets
   * every visible message, more than 100 when there are more.
   */
  lemma NegativeLimitPassesCap(ms: seq<ChatMessage>, householdId: Uuid)
    requires Count(ms, InPageOf(householdId, None)) > 100
    ensures |ListMessages(ms, householdId, HandlerPageLimit(Some(-1)), None)| > 100
  {
  }

  /** The page size clamped into 1..100, as the cap is meant. */
  function CappedPageLimit(query: Option<int>): (l: int)
    ensures 1 <= l <= 100
    ensures 1 <= HandlerPageLimit(query) ==> l == HandlerPageLimit(query)
  {
    var l := HandlerPageLimit(query);
    if l < 1 then 1 else l
  }

  /** With the clamped page size no page holds more than 100 messages. */
  lemma CappedPageIsBounded(ms: seq<ChatMessage>, householdId: Uuid, query: Option<int>, before: Option<Uuid>)
    ensures |ListMessages(ms, householdId, CappedPageLimit(query), before)| <= 100
  {
  }

  // ---------------------------------------------------------------------
  // The table

  class ChatStore {
    var messages: seq<ChatMessage>

    predicate Valid()
      reads this
    {
      IdsUnique(messages)
    }

    constructor ()
      ensures messages == [] && Valid()
    {
      messages := [];
    }

    /**
     * create_message: EmptyContent when the content is blank; otherwise a
     * new message with the trimmed content, the fresh id id, not deleted.
     */
    method CreateMessage(householdId: Uuid, userId: Uuid, content: string, id: Uuid, now: Instant)
      returns (res: Result<ChatMessage, ChatError>)
      requires Valid() && FindMessage(messages, id).None?
      modifies this
      ensures Valid()
      ensures Trim(content) == [] ==> res == Err(EmptyContent) && messages == old(messages)
      ensures Trim(content) != [] ==>
        res == Ok(ChatMessage(id, householdId, userId, Trim(content), now, now, None))
        && messages == old(messages) + [res.value]
    {
      var trimmed := Trim(content);
      if trimmed == [] {
        return Err(EmptyContent);
      }
      var m := ChatMessage(id, householdId, userId, trimmed, now, now, None);
      messages := messages + [m];
      res := Ok(m);
    }

    /**
     * update_message: EmptyContent, then NotFound, then NotAuthorized for
     * somebody else's message, then NotFound for a deleted one; otherwise
     * only the content and the update instant change.
     */
    method UpdateMessage(messageId: Uuid, userId: Uuid, content: string, now: Instant)
      returns (res: Result<ChatMessage, ChatError>)
      requires Valid()
      modifies this
      ensures Valid()
      ensures res.Err? ==> messages == old(messages)
      ensures Trim(content) == [] ==> res == Err(EmptyContent)
      ensures Trim(content) != [] ==>
        match old(FindMessage(messages, messageId))
        case None => res == Err(NotFound)
        case Some(i) =>
          var m := old(messages[i]);
          if m.userId != userId then res == Err(NotAuthorized)
          else if IsDeleted(m) then res == Err(NotFound)
          else (res == Ok(m.(content := Trim(content), updatedAt := now))
                && messages == old(messages)[i := res.value])
    {
      var trimmed := Trim(content);
      if trimmed == [] {
        return Err(EmptyContent);
      }
      var found := FindMessage(messages, messageId);
      if found.None? {
        return Err(NotFound);
      }
      var i := found.value;
      var m := messages[i];
      if m.userId != userId {
        return Err(NotAuthorized);
      }
      if IsDeleted(m) {
        return Err(NotFound);
      }
      var updated := m.(content := trimmed, updatedAt := now);
      messages := messages[i := updated];
      res := Ok(updated);
    }

    /**
     * delete_message: NotFound, then NotAuthorized for somebody else's
     * message; a deleted message stays as it is; otherwise it is marked
     * deleted at now.
     */
    method DeleteMessage(messageId: Uuid, userId: Uuid, now: Instant)
      returns (res: Result<(), ChatError>)
      requires Valid()
      modifies this
      ensures Valid()
      ensures match old(FindMessage(messages, messageId))
        case None => res == Err(NotFound) && messages == old(messages)
        case Some(i) =>
          var m := old(messages[i]);
          if m.userId != userId then res == Err(NotAuthorized) && messages == old(messages)
          else if IsDeleted(m) then res == Ok(()) && messages == old(messages)
          else res == Ok(()) && messages == old(messages)[i := m.(deletedAt := Some(now), updatedAt := now)]
    {
      var found := FindMessage(messages, messageId);
      if found.None? {
        return Err(NotFound);
      }
      var i := found.value;
      var m := messages[i];
      if m.userId != userId {
        return Err(NotAuthorized);
      }
      if IsDeleted(m) {
        return Ok(());
      }
      messages := messages[i := m.(deletedAt := Some(now), updatedAt := now)];
      res := Ok(());
    }
  }
}
