/**
 * Households and the household_memberships table. A membership row links a
 * user to a household with a role (stored as text) and a points balance.
 * The row operations are SQL statements over the table: an UPDATE or
 * DELETE touches every row of the (household, user) pair, and a single-row
 * fetch sees the first such row.
 */
module Households {
  import opened Wrappers
  import opened Dates
  import opened Types
  import opened Query

  datatype Household = Household(id: Uuid, name: string, ownerId: Uuid, createdAt: Instant, updatedAt: Instant)

  datatype Membership = Membership(
    id: Uuid,
    householdId: Uuid,
    userId: Uuid,
    role: string,
    points: int,
    joinedAt: Instant)

  /**
   * HouseholdError. RowMissing stands for the database error that a
   * fetch_one of a membership row that does not exist raises.
   */
  datatype HouseholdError = NotFound | RowMissing

  predicate IsRowOf(m: Membership, householdId: Uuid, userId: Uuid)
  {
    m.householdId == householdId && m.userId == userId
  }

  function RowOfMember(householdId: Uuid, userId: Uuid): Membership -> bool
  {
    (m: Membership) => IsRowOf(m, householdId, userId)
  }

  /** is_member: the COUNT(*) of the pair's rows is positive. */
  function IsMember(rows: seq<Membership>, householdId: Uuid, userId: Uuid): (b: bool)
    ensures b <==> exists i :: 0 <= i < |rows| && IsRowOf(rows[i], householdId, userId)
  {
    CountPositive(rows, RowOfMember(householdId, userId));
    Count(rows, RowOfMember(householdId, userId)) > 0
  }

  /** The position of the first row of the pair. */
  function FindMember(rows: seq<Membership>, householdId: Uuid, userId: Uuid): (r: Option<nat>)
    ensures r.Some? ==> r.value < |rows| && IsRowOf(rows[r.value], householdId, userId)
    ensures r.Some? ==> forall i :: 0 <= i < r.value ==> !IsRowOf(rows[i], householdId, userId)
    ensures r.None? <==> !IsMember(rows, householdId, userId)
  {
    if rows == [] then None
    else if IsRowOf(rows[0], householdId, userId) then Some(0)
    else
      match FindMember(rows[1..], householdId, userId)
      case Some(i) =>
        assert rows[1..][i] == rows[i + 1];
        Some(i + 1)
      case None =>
        assert forall i :: 1 <= i < |rows| ==> rows[i] == rows[1..][i - 1];
        None
  }

  /** The membership a fetch_one / fetch_optional of the pair returns. */
  function GetMember(rows: seq<Membership>, householdId: Uuid, userId: Uuid): (r: Option<Membership>)
    ensures r.None? <==> !IsMember(rows, householdId, userId)
    ensures r.Some? ==> r.value in rows && IsRowOf(r.value, householdId, userId)
  {
    match FindMember(rows, householdId, userId)
    case Some(i) => Some(rows[i])
    case None => None
  }

  /** The role text of a row, read with Member as the fallback for text that does not parse. */
  function RoleOf(m: Membership): (r: Role)
    ensures forall x: Role :: m.role == x.AsStr() ==> r == x
    ensures ParseRole(m.role).None? ==> r == Member
  {
    RoleRoundTrip(Owner);
    RoleRoundTrip(Admin);
    RoleRoundTrip(Member);
    ParseRole(m.role).UnwrapOr(Member)
  }

  /** get_member_role: None for a non-member, else the parsed role of the row. */
  function GetMemberRole(rows: seq<Membership>, householdId: Uuid, userId: Uuid): (r: Option<Role>)
    ensures r.None? <==> !IsMember(rows, householdId, userId)
    ensures r.Some? ==> r.value == RoleOf(GetMember(rows, householdId, userId).value)
  {
    match GetMember(rows, householdId, userId)
    case Some(m) => Some(RoleOf(m))
    case None => None
  }

  // ---------------------------------------------------------------------
  // Statements over the table

  /** UPDATE household_memberships SET role = ? WHERE household_id = ? AND user_id = ?. */
  function SetRole(rows: seq<Membership>, householdId: Uuid, userId: Uuid, role: Role): (r: seq<Membership>)
    ensures |r| == |rows|
    ensures forall i :: 0 <= i < |rows| ==>
      r[i] == if IsRowOf(rows[i], householdId, userId) then rows[i].(role := role.AsStr()) else rows[i]
  {
    seq(|rows|, i requires 0 <= i < |rows| =>
      if IsRowOf(rows[i], householdId, userId) then rows[i].(role := role.AsStr()) else rows[i])
  }

  /** UPDATE household_memberships SET points = points + ? WHERE household_id = ? AND user_id = ?. */
  function AddPoints(rows: seq<Membership>, householdId: Uuid, userId: Uuid, delta: int): (r: seq<Membership>)
    ensures |r| == |rows|
    ensures forall i :: 0 <= i < |rows| ==>
      r[i] == if IsRowOf(rows[i], householdId, userId) then rows[i].(points := rows[i].points + delta) else rows[i]
  {
    seq(|rows|, i requires 0 <= i < |rows| =>
      if IsRowOf(rows[i], householdId, userId) then rows[i].(points := rows[i].points + delta) else rows[i])
  }

  /** A statement that keeps every row's key keeps the pairs that are members. */
  lemma SameKeysSameMembers(rows: seq<Membership>, rows': seq<Membership>, householdId: Uuid, userId: Uuid)
    requires |rows'| == |rows|
    requires forall i :: 0 <= i < |rows| ==>
      rows'[i].householdId == rows[i].householdId && rows'[i].userId == rows[i].userId
    ensures FindMember(rows', householdId, userId) == FindMember(rows, householdId, userId)
  {
    match FindMember(rows, householdId, userId)
    case Some(i) =>
      assert IsRowOf(rows'[i], householdId, userId);
      var j := FindMember(rows', householdId, userId).value;
      assert IsRowOf(rows[j], householdId, userId);
    case None =>
  }

  /** After SetRole, the pair's role is the new one and every other pair's role is unchanged. */
  lemma SetRoleEffect(rows: seq<Membership>, householdId: Uuid, userId: Uuid, role: Role, h: Uuid, u: Uuid)
    ensures GetMemberRole(SetRole(rows, householdId, userId, role), h, u) ==
      if h == householdId && u == userId && IsMember(rows, h, u) then Some(role)
      else GetMemberRole(rows, h, u)
  {
    var rows' := SetRole(rows, householdId, userId, role);
    SameKeysSameMembers(rows, rows', h, u);
    if FindMember(rows, h, u).Some? {
      RoleRoundTrip(role);
    }
  }

  /** After AddPoints, the pair's balance grows by delta and every other pair's is unchanged. */
  lemma AddPointsEffect(rows: seq<Membership>, householdId: Uuid, userId: Uuid, delta: int, h: Uuid, u: Uuid)
    ensures var r := GetMember(AddPoints(rows, householdId, userId, delta), h, u);
      var o := GetMember(rows, h, u);
      r.Some? == o.Some?
      && (r.Some? ==> r.value.points == o.value.points + (if h == householdId && u == userId then delta else 0))
      && (r.Some? ==> r.value.role == o.value.role)
  {
    SameKeysSameMembers(rows, AddPoints(rows, householdId, userId, delta), h, u);
  }

  function NotRowOf(householdId: Uuid, userId: Uuid): Membership -> bool
  {
    (m: Membership) => !IsRowOf(m, householdId, userId)
  }

  /** A single-row fetch looks at the first row, then at the rest. */
  lemma GetMemberCons(x: Membership, t: seq<Membership>, h: Uuid, u: Uuid)
    ensures GetMember([x] + t, h, u) == if IsRowOf(x, h, u) then Some(x) else GetMember(t, h, u)
  {
    assert ([x] + t)[1..] == t;
  }

  /** Deleting one pair's rows leaves the first row of every other pair as it was. */
  lemma {:induction false} RemoveKeepsOthers(rows: seq<Membership>, householdId: Uuid, userId: Uuid, h: Uuid, u: Uuid)
    requires !(h == householdId && u == userId)
    ensures GetMember(Filter(rows, NotRowOf(householdId, userId)), h, u) == GetMember(rows, h, u)
  {
    if rows != [] {
      RemoveKeepsOthers(rows[1..], householdId, userId, h, u);
      var p := NotRowOf(householdId, userId);
      var tail := Filter(rows[1..], p);
      assert rows == [rows[0]] + rows[1..];
      GetMemberCons(rows[0], rows[1..], h, u);
      if p(rows[0]) {
        assert Filter(rows, p) == [rows[0]] + tail;
        GetMemberCons(rows[0], tail, h, u);
      } else {
        assert Filter(rows, p) == tail;
      }
    }
  }

  // ---------------------------------------------------------------------
  // Leaderboard

  /** list_members' ORDER BY points DESC, joined_at ASC. */
  function RankKey(m: Membership): seq<int>
  {
    [-m.points, m.joinedAt]
  }

  function InHouseholdOf(householdId: Uuid): Membership -> bool
  {
    (m: Membership) => m.householdId == householdId
  }

  lemma KeyOfTwo(a0: int, a1: int, b0: int, b1: int)
    ensures KeyLess([a0, a1], [b0, b1]) <==> a0 < b0 || (a0 == b0 && a1 < b1)
  {
    assert [a0, a1][1..] == [a1] && [b0, b1][1..] == [b1];
    assert [a1][1..] == [] && [b1][1..] == [];
    assert KeyLess([a1], [b1]) <==> a1 < b1;
  }

  /**
   * list_members: the rows of the household, highest balance first and,
   * among equal balances, earliest join first.
   */
  function ListMembers(rows: seq<Membership>, householdId: Uuid): (ms: seq<Membership>)
    ensures forall i :: 0 <= i < |ms| ==> ms[i] in rows && ms[i].householdId == householdId
    ensures forall i :: 0 <= i < |rows| && rows[i].householdId == householdId ==> rows[i] in ms
    ensures |ms| == Count(rows, InHouseholdOf(householdId))
    ensures forall i, j :: 0 <= i < j < |ms| ==>
      ms[i].points > ms[j].points || (ms[i].points == ms[j].points && ms[i].joinedAt <= ms[j].joinedAt)
  {
    var ms := Select(rows, InHouseholdOf(householdId), RankKey);
    forall i, j | 0 <= i < j < |ms|
      ensures ms[i].points > ms[j].points || (ms[i].points == ms[j].points && ms[i].joinedAt <= ms[j].joinedAt)
    {
      assert !KeyLess(RankKey(ms[j]), RankKey(ms[i]));
      KeyOfTwo(-ms[j].points, ms[j].joinedAt, -ms[i].points, ms[i].joinedAt);
    }
    ms
  }

  /** A finished task, as the leaderboard counts it: (task_id, user_id) of a task_completions row. */
  datatype CompletionRef = CompletionRef(taskId: Uuid, userId: Uuid)

  function CompletedInOf(taskIds: set<Uuid>, userId: Uuid): CompletionRef -> bool
  {
    (c: CompletionRef) => c.taskId in taskIds && c.userId == userId
  }

  datatype LeaderboardEntry = LeaderboardEntry(
    userId: Uuid,
    points: int,
    rank: int,
    tasksCompleted: nat,
    currentStreak: int)

  // ---------------------------------------------------------------------
  // The tables

  class HouseholdStore {
    var households: map<Uuid, Household>
    var members: seq<Membership>

    constructor ()
      ensures households == map[] && members == []
    {
      households := map[];
      members := [];
    }

    /**
     * create_household: insert the household with the fresh id and its
     * creator as an Owner member with 0 points.
     */
    method CreateHousehold(ownerId: Uuid, name: string, id: Uuid, membershipId: Uuid, now: Instant)
      returns (h: Household)
      modifies this
      ensures h == Household(id, name, ownerId, now, now)
      ensures households == old(households)[id := h]
      ensures members == old(members) + [Membership(membershipId, id, ownerId, Owner.AsStr(), 0, now)]
      ensures IsMember(members, id, ownerId)
      ensures !old(IsMember(members, id, ownerId)) ==>
        GetMemberRole(members, id, ownerId) == Some(Owner) && GetMember(members, id, ownerId).value.points == 0
    {
      h := Household(id, name, ownerId, now, now);
      households := households[id := h];
      var m := Membership(membershipId, id, ownerId, Owner.AsStr(), 0, now);
      ghost var before := members;
      members := members + [m];
      assert members[|before|] == m;
      if !IsMember(before, id, ownerId) {
        assert forall i :: 0 <= i < |before| ==> members[i] == before[i];
        RoleRoundTrip(Owner);
      }
    }

    /** The membership INSERT of accept_invitation. */
    method AddMember(householdId: Uuid, userId: Uuid, role: Role, membershipId: Uuid, now: Instant)
      modifies this
      ensures households == old(households)
      ensures members == old(members) + [Membership(membershipId, householdId, userId, role.AsStr(), 0, now)]
      ensures !old(IsMember(members, householdId, userId)) ==>
        GetMemberRole(members, householdId, userId) == Some(role)
        && GetMember(members, householdId, userId).value.points == 0
    {
      var m := Membership(membershipId, householdId, userId, role.AsStr(), 0, now);
      ghost var before := members;
      members := members + [m];
      assert members[|before|] == m;
      if !IsMember(before, householdId, userId) {
        assert forall i :: 0 <= i < |before| ==> members[i] == before[i];
        RoleRoundTrip(role);
      }
    }

    /** remove_member: delete the pair's rows. */
    method RemoveMember(householdId: Uuid, userId: Uuid)
      modifies this
      ensures households == old(households)
      ensures members == Filter(old(members), NotRowOf(householdId, userId))
      ensures !IsMember(members, householdId, userId)
      ensures forall h: Uuid, u: Uuid :: !(h == householdId && u == userId) ==>
        GetMember(members, h, u) == old(GetMember(members, h, u))
    {
      ghost var before := members;
      members := Filter(members, NotRowOf(householdId, userId));
      forall h: Uuid, u: Uuid | !(h == householdId && u == userId)
        ensures GetMember(members, h, u) == GetMember(before, h, u)
      {
        RemoveKeepsOthers(before, householdId, userId, h, u);
      }
    }

    /** update_member_role: set the role, then fetch the row (an error when there is none). */
    method UpdateMemberRole(householdId: Uuid, userId: Uuid, role: Role)
      returns (res: Result<Membership, HouseholdError>)
      modifies this
      ensures households == old(households)
      ensures members == SetRole(old(members), householdId, userId, role)
      ensures res.Err? <==> !IsMember(members, householdId, userId)
      ensures res.Err? ==> res.error == RowMissing && members == old(members)
      ensures res.Ok? ==>
        res == Ok(GetMember(members, householdId, userId).value) && RoleOf(res.value) == role
      ensures forall h: Uuid, u: Uuid ::
        GetMemberRole(members, h, u) ==
          (if h == householdId && u == userId && old(IsMember(members, h, u)) then Some(role)
           else old(GetMemberRole(members, h, u)))
    {
      ghost var before := members;
      members := SetRole(members, householdId, userId, role);
      forall h: Uuid, u: Uuid
        ensures GetMemberRole(members, h, u) ==
          if h == householdId && u == userId && IsMember(before, h, u) then Some(role)
          else GetMemberRole(before, h, u)
      {
        SetRoleEffect(before, householdId, userId, role, h, u);
      }
      SetRoleEffect(before, householdId, userId, role, householdId, userId);
      match GetMember(members, householdId, userId)
      case Some(m) =>
        res := Ok(m);
      case None =>
        assert forall i :: 0 <= i < |before| ==> members[i] == before[i];
        res := Err(RowMissing);
    }

    /**
     * transfer_ownership: in one transaction demote the current owner to
     * Admin and promote the new owner to Owner, then fetch the new owner's
     * row (an error, after the commit, when there is none).
     */
    method TransferOwnership(householdId: Uuid, currentOwnerId: Uuid, newOwnerId: Uuid)
      returns (res: Result<Membership, HouseholdError>)
      modifies this
      ensures households == old(households)
      ensures members == SetRole(SetRole(old(members), householdId, currentOwnerId, Admin), householdId, newOwnerId, Owner)
      ensures res.Err? <==> !IsMember(members, householdId, newOwnerId)
      ensures res.Err? ==> res.error == RowMissing
      ensures res.Ok? ==> GetMemberRole(members, householdId, newOwnerId) == Some(Owner)
      ensures currentOwnerId != newOwnerId && old(IsMember(members, householdId, currentOwnerId)) ==>
        GetMemberRole(members, householdId, currentOwnerId) == Some(Admin)
      ensures forall u: Uuid :: u != currentOwnerId && u != newOwnerId ==>
        GetMemberRole(members, householdId, u) == old(GetMemberRole(members, householdId, u))
      ensures forall h: Uuid, u: Uuid :: h != householdId ==>
        GetMemberRole(members, h, u) == old(GetMemberRole(members, h, u))
    {
      ghost var before := members;
      var demoted := SetRole(members, householdId, currentOwnerId, Admin);
      members := SetRole(demoted, householdId, newOwnerId, Owner);
      forall h: Uuid, u: Uuid
        ensures GetMemberRole(members, h, u) ==
          if h == householdId && u == newOwnerId && IsMember(demoted, h, u) then Some(Owner)
          else GetMemberRole(demoted, h, u)
        ensures GetMemberRole(demoted, h, u) ==
          if h == householdId && u == currentOwnerId && IsMember(before, h, u) then Some(Admin)
          else GetMemberRole(before, h, u)
        ensures IsMember(demoted, h, u) == IsMember(before, h, u)
      {
        SetRoleEffect(demoted, householdId, newOwnerId, Owner, h, u);
        SetRoleEffect(before, householdId, currentOwnerId, Admin, h, u);
      }
      match GetMember(members, householdId, newOwnerId)
      case Some(m) =>
        res := Ok(m);
      case None =>
        res := Err(RowMissing);
    }

    /** update_member_points: add delta to the pair's balance and return the new balance. */
    method UpdateMemberPoints(householdId: Uuid, userId: Uuid, delta: int)
      returns (res: Result<int, HouseholdError>)
      modifies this
      ensures households == old(households)
      ensures members == AddPoints(old(members), householdId, userId, delta)
      ensures res.Err? <==> !old(IsMember(members, householdId, userId))
      ensures res.Err? ==> res.error == RowMissing && members == old(members)
      ensures res.Ok? ==>
        res.value == old(GetMember(members, householdId, userId)).value.points + delta
        && res.value == GetMember(members, householdId, userId).value.points
      ensures forall h: Uuid, u: Uuid :: !(h == householdId && u == userId) ==>
        GetMember(members, h, u) == old(GetMember(members, h, u))
    {
      ghost var before := members;
      members := AddPoints(members, householdId, userId, delta);
      forall h: Uuid, u: Uuid | !(h == householdId && u == userId)
        ensures GetMember(members, h, u) == GetMember(before, h, u)
      {
        SameKeysSameMembers(before, members, h, u);
      }
      AddPointsEffect(before, householdId, userId, delta, householdId, userId);
      match GetMember(members, householdId, userId)
      case Some(m) =>
        res := Ok(m.points);
      case None =>
        assert forall i :: 0 <= i < |before| ==> members[i] == before[i];
        res := Err(RowMissing);
    }

    /**
     * get_leaderboard: one entry per member in list_members order, ranked
     * 1, 2, ..., with the member's COUNT of completions of the household's
     * tasks (taskIds) and a current streak that is always 0.
     */
    method GetLeaderboard(householdId: Uuid, taskIds: set<Uuid>, completions: seq<CompletionRef>)
      returns (entries: seq<LeaderboardEntry>)
      ensures |entries| == Count(members, InHouseholdOf(householdId))
      ensures forall i :: 0 <= i < |entries| ==>
        entries[i].rank == i + 1 && entries[i].currentStreak == 0
        && IsMember(members, householdId, entries[i].userId)
        && entries[i].tasksCompleted == Count(completions, CompletedInOf(taskIds, entries[i].userId))
      ensures forall i, j :: 0 <= i < j < |entries| ==> entries[i].points >= entries[j].points
      ensures forall i :: 0 <= i < |members| && members[i].householdId == householdId ==>
        exists k :: 0 <= k < |entries| && entries[k].userId == members[i].userId
      ensures |entries| == |ListMembers(members, householdId)|
      ensures forall i :: 0 <= i < |entries| ==>
        entries[i] == EntryFor(ListMembers(members, householdId)[i], i + 1, taskIds, completions)
    {
      var ms := ListMembers(members, householdId);
      entries := BuildEntries(ms, taskIds, completions);
      LeaderboardOrder(members, householdId, ms, entries, taskIds, completions);
      LeaderboardMembers(members, householdId, ms, entries, taskIds, completions);
      LeaderboardCovers(members, householdId, ms, entries, taskIds, completions);
    }
  }

  /** The loop of get_leaderboard: push one ranked entry per listed member. */
  method BuildEntries(ms: seq<Membership>, taskIds: set<Uuid>, completions: seq<CompletionRef>)
    returns (entries: seq<LeaderboardEntry>)
    ensures |entries| == |ms|
    ensures forall i :: 0 <= i < |ms| ==> entries[i] == EntryFor(ms[i], i + 1, taskIds, completions)
  {
    entries := [];
    var rank: int := 0;
    while rank < |ms|
      invariant 0 <= rank <= |ms| && |entries| == rank
      invariant forall i :: 0 <= i < rank ==> entries[i] == EntryFor(ms[i], i + 1, taskIds, completions)
    {
      var m := ms[rank];
      var done := Count(completions, CompletedInOf(taskIds, m.userId));
      entries := entries + [LeaderboardEntry(m.userId, m.points, rank + 1, done, 0)];
      rank := rank + 1;
    }
  }

  /** Entries are ranked 1..n in order of balance, highest first. */
  lemma LeaderboardOrder(members: seq<Membership>, householdId: Uuid, ms: seq<Membership>,
                         entries: seq<LeaderboardEntry>, taskIds: set<Uuid>, completions: seq<CompletionRef>)
    requires ms == ListMembers(members, householdId) && |entries| == |ms|
    requires forall i :: 0 <= i < |ms| ==> entries[i] == EntryFor(ms[i], i + 1, taskIds, completions)
    ensures |entries| == Count(members, InHouseholdOf(householdId))
    ensures forall i :: 0 <= i < |entries| ==>
      entries[i].rank == i + 1 && entries[i].currentStreak == 0
      && entries[i].tasksCompleted == Count(completions, CompletedInOf(taskIds, entries[i].userId))
    ensures forall i, j :: 0 <= i < j < |entries| ==> entries[i].points >= entries[j].points
  {
  }

  function EntryFor(m: Membership, rank: int, taskIds: set<Uuid>, completions: seq<CompletionRef>): LeaderboardEntry
  {
    LeaderboardEntry(m.userId, m.points, rank, Count(completions, CompletedInOf(taskIds, m.userId)), 0)
  }

  /** Every leaderboard entry is a member's. */
  lemma LeaderboardMembers(members: seq<Membership>, householdId: Uuid, ms: seq<Membership>,
                           entries: seq<LeaderboardEntry>, taskIds: set<Uuid>, completions: seq<CompletionRef>)
    requires ms == ListMembers(members, householdId) && |entries| == |ms|
    requires forall i :: 0 <= i < |ms| ==> entries[i] == EntryFor(ms[i], i + 1, taskIds, completions)
    ensures forall i :: 0 <= i < |entries| ==> IsMember(members, householdId, entries[i].userId)
  {
    forall i | 0 <= i < |entries|
      ensures IsMember(members, householdId, entries[i].userId)
    {
      assert ms[i] in members;
      var k :| 0 <= k < |members| && members[k] == ms[i];
      assert IsRowOf(members[k], householdId, entries[i].userId);
    }
  }

  /** Every member of the household has a leaderboard entry. */
  lemma LeaderboardCovers(members: seq<Membership>, householdId: Uuid, ms: seq<Membership>,
                          entries: seq<LeaderboardEntry>, taskIds: set<Uuid>, completions: seq<CompletionRef>)
    requires ms == ListMembers(members, householdId) && |entries| == |ms|
    requires forall i :: 0 <= i < |ms| ==> entries[i] == EntryFor(ms[i], i + 1, taskIds, completions)
    ensures forall i :: 0 <= i < |members| && members[i].householdId == householdId ==>
      exists k :: 0 <= k < |entries| && entries[k].userId == members[i].userId
  {
    forall i | 0 <= i < |members| && members[i].householdId == householdId
      ensures exists k :: 0 <= k < |entries| && entries[k].userId == members[i].userId
    {
      assert members[i] in ms;
      var k :| 0 <= k < |ms| && ms[k] == members[i];
      assert entries[k].userId == members[i].userId;
    }
  }
}
