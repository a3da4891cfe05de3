/**
 * The rows of user_rewards and user_punishments, which share one shape
 * and one life cycle. A row counts, for one user, item (reward or
 * punishment) and household, how many times the item was assigned
 * (amount), how many of those were used up (redeemed_amount,
 * completed_amount) and how many uses await confirmation
 * (pending_redemption, pending_completion). Using, approving and
 * rejecting keep done + pending within amount.
 */
module Assignments {
  import opened Wrappers
  import opened Dates
  import opened Types
  import opened Query

  datatype Assignment = Assignment(
    id: Uuid,
    userId: Uuid,
    itemId: Uuid,
    householdId: Uuid,
    amount: int,
    doneAmount: int,
    pendingAmount: int,
    updatedAt: Instant)

  // ---------------------------------------------------------------------
  // The counters of one row

  /** Assigned units neither used up nor awaiting confirmation. */
  function Available(a: Assignment): int
  {
    a.amount - a.doneAmount - a.pendingAmount
  }

  /** The counters' invariant: both non-negative, and together within amount. */
  predicate Balanced(a: Assignment)
  {
    a.doneAmount >= 0 && a.pendingAmount >= 0 && a.doneAmount + a.pendingAmount <= a.amount
  }

  /** The row keeps its identity and its (user, item, household) key. */
  predicate SameRow(a: Assignment, b: Assignment)
  {
    a.id == b.id && a.userId == b.userId && a.itemId == b.itemId && a.householdId == b.householdId
  }

  /** One more unit assigned. */
  function AssignRow(a: Assignment, now: Instant): (r: Assignment)
    ensures SameRow(r, a) && r.amount == a.amount + 1 && Available(r) == Available(a) + 1
    ensures r.doneAmount == a.doneAmount && r.pendingAmount == a.pendingAmount
    ensures Balanced(a) ==> Balanced(r)
  {
    a.(amount := a.amount + 1, updatedAt := now)
  }

  /** One unit fewer, the row surviving. */
  function UnassignRow(a: Assignment, now: Instant): (r: Assignment)
    requires a.amount > 1
    ensures SameRow(r, a) && r.amount == a.amount - 1 && r.amount >= 1
    ensures r.doneAmount == a.doneAmount && r.pendingAmount == a.pendingAmount
    ensures Balanced(a) && Available(a) > 0 ==> Balanced(r)
  {
    a.(amount := a.amount - 1, updatedAt := now)
  }

  /**
   * Unassigning does not look at the other counters: a fully used row
   * loses a unit all the same, after which done exceeds amount.
   */
  lemma UnassignIgnoresDone()
    ensures var a := Assignment(1, 2, 3, 4, 2, 2, 0, 0);
      Balanced(a) && !Balanced(UnassignRow(a, 5))
  {
  }

  /**
   * One unit used (redeemed, completed): into pending when the item
   * requires confirmation, else straight into done.
   */
  function UseRow(a: Assignment, requiresConfirmation: bool, now: Instant): (r: Assignment)
    requires Available(a) > 0
    ensures SameRow(r, a) && r.amount == a.amount && Available(r) == Available(a) - 1
    ensures requiresConfirmation ==> r.pendingAmount == a.pendingAmount + 1 && r.doneAmount == a.doneAmount
    ensures !requiresConfirmation ==> r.doneAmount == a.doneAmount + 1 && r.pendingAmount == a.pendingAmount
    ensures Balanced(a) ==> Balanced(r)
  {
    if requiresConfirmation then a.(pendingAmount := a.pendingAmount + 1, updatedAt := now)
    else a.(doneAmount := a.doneAmount + 1, updatedAt := now)
  }

  /** A pending use confirmed: one unit moves from pending to done. */
  function ApproveRow(a: Assignment, now: Instant): (r: Assignment)
    requires a.pendingAmount > 0
    ensures SameRow(r, a) && r.amount == a.amount && Available(r) == Available(a)
    ensures r.pendingAmount == a.pendingAmount - 1 && r.doneAmount == a.doneAmount + 1
    ensures Balanced(a) ==> Balanced(r)
  {
    a.(pendingAmount := a.pendingAmount - 1, doneAmount := a.doneAmount + 1, updatedAt := now)
  }

  /** A pending use refused: the unit becomes available again. */
  function RejectRow(a: Assignment, now: Instant): (r: Assignment)
    requires a.pendingAmount > 0
    ensures SameRow(r, a) && r.amount == a.amount && Available(r) == Available(a) + 1
    ensures r.pendingAmount == a.pendingAmount - 1 && r.doneAmount == a.doneAmount
    ensures Balanced(a) ==> Balanced(r)
  {
    a.(pendingAmount := a.pendingAmount - 1, updatedAt := now)
  }

  /** A use awaiting confirmation that is then rejected gives the counters back. */
  lemma UseThenReject(a: Assignment, now: Instant, later: Instant)
    requires Balanced(a) && Available(a) > 0
    ensures RejectRow(UseRow(a, true, now), later) == a.(updatedAt := later)
  {
  }

  /** A use awaiting confirmation that is then approved is a direct use. */
  lemma UseThenApprove(a: Assignment, now: Instant, later: Instant)
    requires Balanced(a) && Available(a) > 0
    ensures ApproveRow(UseRow(a, true, now), later) == UseRow(a, false, later)
  {
  }

  // ---------------------------------------------------------------------
  // The table

  predicate OfTriple(a: Assignment, userId: Uuid, itemId: Uuid, householdId: Uuid)
  {
    a.userId == userId && a.itemId == itemId && a.householdId == householdId
  }

  /** Ids are unique, and so are (user, item, household) triples. */
  predicate RowsValid(rows: seq<Assignment>)
  {
    (forall i, j :: 0 <= i < j < |rows| ==> rows[i].id != rows[j].id)
    && (forall i, j :: 0 <= i < j < |rows| ==> !OfTriple(rows[j], rows[i].userId, rows[i].itemId, rows[i].householdId))
  }

  predicate AllBalanced(rows: seq<Assignment>)
  {
    forall i :: 0 <= i < |rows| ==> Balanced(rows[i])
  }

  function FindId(rows: seq<Assignment>, id: Uuid): (r: Option<nat>)
    ensures r.Some? ==> r.value < |rows| && rows[r.value].id == id
    ensures r.None? <==> forall i :: 0 <= i < |rows| ==> rows[i].id != id
  {
    if rows == [] then None
    else if rows[|rows| - 1].id == id then Some(|rows| - 1)
    else FindId(rows[..|rows| - 1], id)
  }

  function FindTriple(rows: seq<Assignment>, userId: Uuid, itemId: Uuid, householdId: Uuid): (r: Option<nat>)
    ensures r.Some? ==> r.value < |rows| && OfTriple(rows[r.value], userId, itemId, householdId)
    ensures r.None? <==> forall i :: 0 <= i < |rows| ==> !OfTriple(rows[i], userId, itemId, householdId)
  {
    if rows == [] then None
    else if OfTriple(rows[|rows| - 1], userId, itemId, householdId) then Some(|rows| - 1)
    else FindTriple(rows[..|rows| - 1], userId, itemId, householdId)
  }

  /** The row of a triple, if any. */
  function GetTriple(rows: seq<Assignment>, userId: Uuid, itemId: Uuid, householdId: Uuid): (r: Option<Assignment>)
    ensures r.Some? ==> r.value in rows && OfTriple(r.value, userId, itemId, householdId)
    ensures r.None? <==> forall i :: 0 <= i < |rows| ==> !OfTriple(rows[i], userId, itemId, householdId)
  {
    match FindTriple(rows, userId, itemId, householdId)
    case Some(i) => Some(rows[i])
    case None => None
  }

  /** In a valid table, the row at i is the one both lookups find. */
  lemma FindsUnique(rows: seq<Assignment>, i: nat)
    requires RowsValid(rows) && i < |rows|
    ensures FindId(rows, rows[i].id) == Some(i)
    ensures FindTriple(rows, rows[i].userId, rows[i].itemId, rows[i].householdId) == Some(i)
  {
  }

  /** Rewriting a row's counters keeps both keys unique and the counters' invariant. */
  lemma ReplaceKeeps(rows: seq<Assignment>, i: nat, r: Assignment)
    requires RowsValid(rows) && i < |rows| && SameRow(r, rows[i])
    ensures RowsValid(rows[i := r])
    ensures AllBalanced(rows) && Balanced(r) ==> AllBalanced(rows[i := r])
  {
  }

  lemma AppendKeeps(rows: seq<Assignment>, r: Assignment)
    requires RowsValid(rows)
    requires FindId(rows, r.id).None? && FindTriple(rows, r.userId, r.itemId, r.householdId).None?
    ensures RowsValid(rows + [r])
    ensures AllBalanced(rows) && Balanced(r) ==> AllBalanced(rows + [r])
  {
  }

  lemma RemoveKeeps(rows: seq<Assignment>, i: nat)
    requires RowsValid(rows) && i < |rows|
    ensures RowsValid(RemoveAt(rows, i))
    ensures AllBalanced(rows) ==> AllBalanced(RemoveAt(rows, i))
    ensures forall k :: 0 <= k < |RemoveAt(rows, i)| ==> RemoveAt(rows, i)[k].id != rows[i].id
    ensures forall k :: 0 <= k < |RemoveAt(rows, i)| ==>
      !OfTriple(RemoveAt(rows, i)[k], rows[i].userId, rows[i].itemId, rows[i].householdId)
  {
    var r := RemoveAt(rows, i);
    forall a, b | 0 <= a < b < |r|
      ensures r[a].id != r[b].id
      ensures !OfTriple(r[b], r[a].userId, r[a].itemId, r[a].householdId)
    {
      var a' := if a < i then a else a + 1;
      var b' := if b < i then b else b + 1;
      assert r[a] == rows[a'] && r[b] == rows[b'] && a' < b';
    }
    forall k | 0 <= k < |r|
      ensures r[k].id != rows[i].id
      ensures !OfTriple(r[k], rows[i].userId, rows[i].itemId, rows[i].householdId)
    {
      var k' := if k < i then k else k + 1;
      assert r[k] == rows[k'] && k' != i;
      if k' < i {
        assert !OfTriple(rows[i], rows[k'].userId, rows[k'].itemId, rows[k'].householdId);
      }
    }
  }

  // ---------------------------------------------------------------------
  // Table operations

  /**
   * assign_reward / assign_punishment once the item is known to exist:
   * the UPDATE amount + 1 of the triple's row, or, when it touched no row,
   * the INSERT of a row holding one unit under the fresh id newId; then
   * the fetch of the triple's row. Every other row keeps its place and
   * value.
   */
  function Assign(rows: seq<Assignment>, itemId: Uuid, userId: Uuid, householdId: Uuid, now: Instant, newId: Uuid)
    : (r: (seq<Assignment>, Assignment))
    requires RowsValid(rows) && FindId(rows, newId).None?
    ensures RowsValid(r.0)
    ensures GetTriple(r.0, userId, itemId, householdId) == Some(r.1)
    ensures match GetTriple(rows, userId, itemId, householdId)
      case Some(old_) => r.1 == AssignRow(old_, now) && |r.0| == |rows|
      case None => r.1 == Assignment(newId, userId, itemId, householdId, 1, 0, 0, now) && |r.0| == |rows| + 1
    ensures forall k :: 0 <= k < |rows| && !OfTriple(rows[k], userId, itemId, householdId) ==> r.0[k] == rows[k]
    ensures forall k :: 0 <= k < |rows| ==> SameRow(r.0[k], rows[k])
    ensures |r.0| == |rows| + 1 ==> r.0[|rows|] == r.1
    ensures forall id :: FindId(rows, id).None? && id != newId ==> FindId(r.0, id).None?
    ensures AllBalanced(rows) ==> AllBalanced(r.0)
  {
    match FindTriple(rows, userId, itemId, householdId)
    case Some(i) =>
      var a := AssignRow(rows[i], now);
      ReplaceKeeps(rows, i, a);
      FindsUnique(rows[i := a], i);
      FindsUnique(rows, i);
      (rows[i := a], a)
    case None =>
      var a := Assignment(newId, userId, itemId, householdId, 1, 0, 0, now);
      AppendKeeps(rows, a);
      FindsUnique(rows + [a], |rows|);
      (rows + [a], a)
  }

  /** A triple that has a row keeps one through an assignment. */
  lemma AssignKeepsTriples(rows: seq<Assignment>, itemId: Uuid, userId: Uuid, householdId: Uuid, now: Instant, newId: Uuid,
                           u: Uuid, item: Uuid, h: Uuid)
    requires RowsValid(rows) && FindId(rows, newId).None?
    requires GetTriple(rows, u, item, h).Some?
    ensures GetTriple(Assign(rows, itemId, userId, householdId, now, newId).0, u, item, h).Some?
  {
    var k := FindTriple(rows, u, item, h).value;
    assert OfTriple(Assign(rows, itemId, userId, householdId, now, newId).0[k], u, item, h);
  }

  /**
   * The loop of assign_task_completion_rewards and
   * assign_missed_task_punishments: Assign for each item in turn, the
   * k-th taking the fresh id newIds[k]; the fetched rows in order.
   */
  function AssignEach(rows: seq<Assignment>, itemIds: seq<Uuid>, userId: Uuid, householdId: Uuid, now: Instant,
                      newIds: seq<Uuid>)
    : (r: (seq<Assignment>, seq<Assignment>))
    requires FreshIds(rows, newIds) && |newIds| == |itemIds|
    ensures RowsValid(r.0) && |r.1| == |itemIds|
    ensures forall id :: FindId(rows, id).None? && id !in newIds ==> FindId(r.0, id).None?
    decreases |itemIds|
  {
    if itemIds == [] then (rows, [])
    else
      var n := |itemIds| - 1;
      var p := AssignEach(rows, itemIds[..n], userId, householdId, now, newIds[..n]);
      assert newIds[n] !in newIds[..n];
      var q := Assign(p.0, itemIds[n], userId, householdId, now, newIds[n]);
      (q.0, p.1 + [q.1])
  }

  /** A valid table and distinct ids none of which it holds. */
  predicate FreshIds(rows: seq<Assignment>, newIds: seq<Uuid>)
  {
    RowsValid(rows)
    && (forall k :: 0 <= k < |newIds| ==> FindId(rows, newIds[k]).None?)
    && (forall j, k :: 0 <= j < k < |newIds| ==> newIds[j] != newIds[k])
  }

  /** A triple that has a row keeps one through AssignEach. */
  lemma {:induction false} AssignEachKeepsTriples(rows: seq<Assignment>, itemIds: seq<Uuid>, userId: Uuid,
                                                  householdId: Uuid, now: Instant, newIds: seq<Uuid>,
                                                  u: Uuid, item: Uuid, h: Uuid)
    requires FreshIds(rows, newIds) && |newIds| == |itemIds|
    requires GetTriple(rows, u, item, h).Some?
    ensures GetTriple(AssignEach(rows, itemIds, userId, householdId, now, newIds).0, u, item, h).Some?
    decreases |itemIds|
  {
    if itemIds != [] {
      var n := |itemIds| - 1;
      AssignEachKeepsTriples(rows, itemIds[..n], userId, householdId, now, newIds[..n], u, item, h);
      var p := AssignEach(rows, itemIds[..n], userId, householdId, now, newIds[..n]);
      assert newIds[n] !in newIds[..n];
      AssignKeepsTriples(p.0, itemIds[n], userId, householdId, now, newIds[n], u, item, h);
    }
  }

  /** The k-th row AssignEach fetches is item k's. */
  lemma {:induction false} AssignEachRows(rows: seq<Assignment>, itemIds: seq<Uuid>, userId: Uuid, householdId: Uuid,
                                          now: Instant, newIds: seq<Uuid>)
    requires FreshIds(rows, newIds) && |newIds| == |itemIds|
    ensures forall k :: 0 <= k < |itemIds| ==>
      OfTriple(AssignEach(rows, itemIds, userId, householdId, now, newIds).1[k], userId, itemIds[k], householdId)
    decreases |itemIds|
  {
    if itemIds != [] {
      var n := |itemIds| - 1;
      AssignEachRows(rows, itemIds[..n], userId, householdId, now, newIds[..n]);
      var p := AssignEach(rows, itemIds[..n], userId, householdId, now, newIds[..n]);
      assert newIds[n] !in newIds[..n];
      var q := Assign(p.0, itemIds[n], userId, householdId, now, newIds[n]);
      assert AssignEach(rows, itemIds, userId, householdId, now, newIds).1 == p.1 + [q.1];
      assert OfTriple(q.1, userId, itemIds[n], householdId);
      RowsOfItems(p.1, q.1, itemIds, userId, householdId);
    }
  }

  /** Appending item n's row to rows of items 0..n-1 gives rows of items 0..n. */
  lemma RowsOfItems(ps: seq<Assignment>, q: Assignment, items: seq<Uuid>, userId: Uuid, householdId: Uuid)
    requires |items| == |ps| + 1
    requires forall k :: 0 <= k < |ps| ==> OfTriple(ps[k], userId, items[..|ps|][k], householdId)
    requires OfTriple(q, userId, items[|ps|], householdId)
    ensures forall k :: 0 <= k < |items| ==> OfTriple((ps + [q])[k], userId, items[k], householdId)
  {
    forall k | 0 <= k < |items|
      ensures OfTriple((ps + [q])[k], userId, items[k], householdId)
    {
      if k < |ps| {
        assert items[..|ps|][k] == items[k];
      }
    }
  }

  /** After AssignEach every item (the k-th here) has a row for the user and household. */
  lemma {:induction false} AssignEachHolds(rows: seq<Assignment>, itemIds: seq<Uuid>, userId: Uuid, householdId: Uuid,
                                           now: Instant, newIds: seq<Uuid>, k: nat)
    requires FreshIds(rows, newIds) && |newIds| == |itemIds| && k < |itemIds|
    ensures GetTriple(AssignEach(rows, itemIds, userId, householdId, now, newIds).0, userId, itemIds[k], householdId).Some?
    decreases |itemIds|
  {
    var n := |itemIds| - 1;
    if k == n {
      AssignEachHoldsLast(rows, itemIds, userId, householdId, now, newIds);
    } else {
      var p := AssignEach(rows, itemIds[..n], userId, householdId, now, newIds[..n]);
      assert newIds[n] !in newIds[..n];
      assert AssignEach(rows, itemIds, userId, householdId, now, newIds).0
        == Assign(p.0, itemIds[n], userId, householdId, now, newIds[n]).0;
      AssignEachHolds(rows, itemIds[..n], userId, householdId, now, newIds[..n], k);
      assert itemIds[..n][k] == itemIds[k];
      AssignKeepsTriples(p.0, itemIds[n], userId, householdId, now, newIds[n], userId, itemIds[k], householdId);
    }
  }

  /** The last item of AssignEach has its row. */
  lemma AssignEachHoldsLast(rows: seq<Assignment>, itemIds: seq<Uuid>, userId: Uuid, householdId: Uuid,
                            now: Instant, newIds: seq<Uuid>)
    requires FreshIds(rows, newIds) && |newIds| == |itemIds| && itemIds != []
    ensures GetTriple(AssignEach(rows, itemIds, userId, householdId, now, newIds).0, userId, itemIds[|itemIds| - 1],
                      householdId).Some?
  {
    var n := |itemIds| - 1;
    var p := AssignEach(rows, itemIds[..n], userId, householdId, now, newIds[..n]);
    assert newIds[n] !in newIds[..n];
    var q := Assign(p.0, itemIds[n], userId, householdId, now, newIds[n]);
    assert AssignEach(rows, itemIds, userId, householdId, now, newIds).0 == q.0;
    assert GetTriple(q.0, userId, itemIds[n], householdId) == Some(q.1);
  }

  /** AssignEach keeps the counters' invariant. */
  lemma {:induction false} AssignEachBalanced(rows: seq<Assignment>, itemIds: seq<Uuid>, userId: Uuid, householdId: Uuid,
                                              now: Instant, newIds: seq<Uuid>)
    requires FreshIds(rows, newIds) && |newIds| == |itemIds| && AllBalanced(rows)
    ensures AllBalanced(AssignEach(rows, itemIds, userId, householdId, now, newIds).0)
    decreases |itemIds|
  {
    if itemIds != [] {
      var n := |itemIds| - 1;
      AssignEachBalanced(rows, itemIds[..n], userId, householdId, now, newIds[..n]);
    }
  }

  /**
   * unassign_reward / unassign_punishment: None when the triple has no
   * row; otherwise the row is deleted at amount <= 1 and loses one unit
   * above. Every other row is kept.
   */
  function Unassign(rows: seq<Assignment>, itemId: Uuid, userId: Uuid, householdId: Uuid, now: Instant)
    : (r: Option<seq<Assignment>>)
    requires RowsValid(rows)
    ensures r.None? <==> GetTriple(rows, userId, itemId, householdId).None?
    ensures r.Some? ==> RowsValid(r.value)
    ensures r.Some? ==>
      var a := GetTriple(rows, userId, itemId, householdId).value;
      (a.amount <= 1 ==> GetTriple(r.value, userId, itemId, householdId).None? && |r.value| == |rows| - 1)
      && (a.amount > 1 ==> GetTriple(r.value, userId, itemId, householdId) == Some(UnassignRow(a, now)) && |r.value| == |rows|)
    ensures r.Some? ==> forall k :: 0 <= k < |rows| && !OfTriple(rows[k], userId, itemId, householdId) ==> rows[k] in r.value
  {
    match FindTriple(rows, userId, itemId, householdId)
    case None => None
    case Some(i) =>
      if rows[i].amount <= 1 then
        RemoveKeeps(rows, i);
        RemovedOthersKept(rows, i);
        Some(RemoveAt(rows, i))
      else
        var a := UnassignRow(rows[i], now);
        ReplaceKeeps(rows, i, a);
        FindsUnique(rows[i := a], i);
        ReplacedOthersKept(rows, i, a);
        Some(rows[i := a])
  }

  lemma RemovedOthersKept(rows: seq<Assignment>, i: nat)
    requires i < |rows|
    ensures forall k :: 0 <= k < |rows| && k != i ==> rows[k] in RemoveAt(rows, i)
  {
    forall k | 0 <= k < |rows| && k != i
      ensures rows[k] in RemoveAt(rows, i)
    {
      if k < i {
        assert RemoveAt(rows, i)[k] == rows[k];
      } else {
        assert RemoveAt(rows, i)[k - 1] == rows[k];
      }
    }
  }

  lemma ReplacedOthersKept(rows: seq<Assignment>, i: nat, a: Assignment)
    requires i < |rows|
    ensures forall k :: 0 <= k < |rows| && k != i ==> rows[k] in rows[i := a]
  {
    forall k | 0 <= k < |rows| && k != i
      ensures rows[k] in rows[i := a]
    {
      assert rows[i := a][k] == rows[k];
    }
  }

  /** The row with the given id after one use, approval or rejection: the table keeps its keys. */
  lemma UpdateByIdKeeps(rows: seq<Assignment>, i: nat, a: Assignment)
    requires RowsValid(rows) && i < |rows| && SameRow(a, rows[i])
    ensures RowsValid(rows[i := a]) && FindId(rows[i := a], a.id) == Some(i)
    ensures AllBalanced(rows) && Balanced(a) ==> AllBalanced(rows[i := a])
  {
    ReplaceKeeps(rows, i, a);
    FindsUnique(rows[i := a], i);
  }
}
