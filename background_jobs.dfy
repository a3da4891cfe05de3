/**
 * The daily background job: when it next runs, and the sweep over all
 * tasks that deducts points for, and assigns the linked punishments of,
 * every task that was due on a date and not completed on it.
 */
module BackgroundJobs {
  import opened Wrappers
  import opened Dates
  import opened Types
  import opened Query
  import opened Scheduler
  import opened Tasks
  import opened Households
  import opened Points
  import opened Assignments
  import opened Punishments
  import opened TaskConsequences

  // ---------------------------------------------------------------------
  // When the job runs

  /** JobConfig: the time of day of the check (two u32 fields). */
  datatype JobConfig = JobConfig(checkHour: nat, checkMinute: nat)

  /** JobConfig::default. */
  function DefaultJobConfig(): JobConfig
  {
    JobConfig(2, 0)
  }

  /** Seconds after midnight of the check time. */
  function CheckOffset(config: JobConfig): int
  {
    config.checkHour * SecondsPerHour + config.checkMinute * 60
  }

  /**
   * The next_check of start_scheduler: today's check time if now is
   * earlier, otherwise tomorrow's. None stands for the panic of
   * and_hms_opt(..).unwrap() on an hour or minute out of range.
   */
  function NextCheck(config: JobConfig, now: Instant): (r: Option<Instant>)
    ensures r.Some? <==> config.checkHour < 24 && config.checkMinute < 60
    ensures r.Some? ==> now < r.value <= now + SecondsPerDay
    ensures r.Some? ==> r.value % SecondsPerDay == CheckOffset(config)
  {
    if config.checkHour < 24 && config.checkMinute < 60 then
      var todayCheck := (now / SecondsPerDay) * SecondsPerDay + CheckOffset(config);
      Some(if now < todayCheck then todayCheck else todayCheck + SecondsPerDay)
    else None
  }

  /** No instant between now and the next check is at the check time of day. */
  lemma NextCheckIsFirst(config: JobConfig, now: Instant, t: Instant)
    requires NextCheck(config, now).Some?
    requires now < t < NextCheck(config, now).value
    ensures t % SecondsPerDay != CheckOffset(config)
  {
    var r := NextCheck(config, now).value;
    var day := now / SecondsPerDay;
    var tday := t / SecondsPerDay;
    var off := t % SecondsPerDay;
    assert t == tday * SecondsPerDay + off && 0 <= off < SecondsPerDay;
    assert 0 <= CheckOffset(config) < SecondsPerDay;
    if now < day * SecondsPerDay + CheckOffset(config) {
      assert r == day * SecondsPerDay + CheckOffset(config);
      assert tday == day;
      assert off < CheckOffset(config);
    } else {
      assert r == (day + 1) * SecondsPerDay + CheckOffset(config);
      assert day <= tday <= day + 1;
      assert tday == day ==> off > CheckOffset(config);
      assert tday == day + 1 ==> off < CheckOffset(config);
    }
  }

  /**
   * The sleep of start_scheduler: the time to the next check, or an hour
   * when that duration is negative.
   */
  function SleepSeconds(next: Instant, now: Instant): int
  {
    if next - now >= 0 then next - now else SecondsPerHour
  }

  /** The one-hour fallback never applies: the job sleeps exactly until the next check. */
  lemma SleepReachesCheck(config: JobConfig, now: Instant)
    requires NextCheck(config, now).Some?
    ensures 0 < SleepSeconds(NextCheck(config, now).value, now) <= SecondsPerDay
    ensures now + SleepSeconds(NextCheck(config, now).value, now) == NextCheck(config, now).value
  {
  }

  /** The default job runs every day at 02:00 UTC. */
  lemma DefaultRunsAtTwo(now: Instant)
    ensures NextCheck(DefaultJobConfig(), now).Some?
    ensures NextCheck(DefaultJobConfig(), now).value % SecondsPerDay == 2 * SecondsPerHour
  {
  }

  // ---------------------------------------------------------------------
  // Which tasks count, and who pays

  /** MissedTaskReport. */
  datatype MissedTaskReport = MissedTaskReport(
    processedAt: Instant,
    tasksChecked: int,
    missedTasks: int,
    punishmentsAssigned: int,
    pointsDeducted: int)

  /** BackgroundJobError, as far as the sweep can raise it. */
  datatype JobError = PointsFailed(cause: PointsError)

  /** A task the sweep checks: not OneTime, and due on the date. */
  function CheckedOn(date: Date): Task -> bool
  {
    (t: Task) => Valid(date) && t.recurrenceType != OneTime && IsTaskDueOnDate(t, date)
  }

  function DueOnOf(taskId: Uuid, date: Date): Completion -> bool
  {
    (c: Completion) => c.taskId == taskId && c.dueDate == date
  }

  function CompletionOfTask(taskId: Uuid): Completion -> bool
  {
    (c: Completion) => c.taskId == taskId
  }

  /** A checked task with no completion whose due date is the date. */
  function MissedOn(completions: seq<Completion>, date: Date): Task -> bool
  {
    (t: Task) => CheckedOn(date)(t) && Count(completions, DueOnOf(t.id, date)) == 0
  }

  /** Every missed task is a checked one, so the report never counts more missed than checked tasks. */
  lemma MissedAtMostChecked(tasks: seq<Task>, completions: seq<Completion>, date: Date)
    ensures Count(tasks, MissedOn(completions, date)) <= Count(tasks, CheckedOn(date))
  {
    CountMonotone(tasks, MissedOn(completions, date), CheckedOn(date));
  }

  function UserIdsOf(ms: seq<Membership>): (r: seq<Uuid>)
    ensures |r| == |ms|
    ensures forall i :: 0 <= i < |ms| ==> r[i] == ms[i].userId
  {
    if ms == [] then [] else [ms[0].userId] + UserIdsOf(ms[1..])
  }

  /**
   * users_to_penalize: the assignee alone, or, for an unassigned task,
   * every member of the task's household (get_household_member_ids).
   */
  function UsersToPenalize(task: Task, members: seq<Membership>): (r: seq<Uuid>)
    ensures task.assignedUserId.Some? ==> r == [task.assignedUserId.value]
    ensures task.assignedUserId.None? ==>
      forall u :: u in r <==> IsMember(members, task.householdId, u)
  {
    match task.assignedUserId
    case Some(u) => [u]
    case None =>
      var kept := Filter(members, InHouseholdOf(task.householdId));
      var r := UserIdsOf(kept);
      forall u
        ensures u in r <==> IsMember(members, task.householdId, u)
      {
        if u in r {
          var k :| 0 <= k < |r| && r[k] == u;
          var j :| 0 <= j < |members| && members[j] == kept[k];
          assert IsRowOf(members[j], task.householdId, u);
        }
        if IsMember(members, task.householdId, u) {
          var j :| 0 <= j < |members| && IsRowOf(members[j], task.householdId, u);
          assert InHouseholdOf(task.householdId)(members[j]);
          var k :| 0 <= k < |kept| && kept[k] == members[j];
          assert r[k] == u;
        }
      }
      r
  }

  function ConditionOfHousehold(householdId: Uuid): PointCondition -> bool
  {
    (c: PointCondition) => c.householdId == householdId
  }

  /** list_point_conditions: the household's point conditions. */
  function HouseholdConditions(conditions: seq<PointCondition>, householdId: Uuid): (r: seq<PointCondition>)
    ensures forall i :: 0 <= i < |r| ==> r[i] in conditions && r[i].householdId == householdId
  {
    Filter(conditions, ConditionOfHousehold(householdId))
  }

  /** What deduct_missed_task_points computes for the task (the same for every user). */
  function MissedPoints(conditions: seq<PointCondition>, task: Task, broken: bool): int
  {
    -PenaltyOf(map[task.id := task], task.id) + SumMissed(conditions, task.id, broken)
  }

  function Abs(x: int): (r: nat)
    ensures r == x || r == -x
  {
    if x < 0 then -x else x
  }

  // ---------------------------------------------------------------------
  // Row ids for the assignments the sweep creates

  function MaxId(rows: seq<Assignment>): (m: int)
    ensures forall i :: 0 <= i < |rows| ==> rows[i].id <= m
  {
    if rows == [] then 0
    else
      var m := MaxId(rows[..|rows| - 1]);
      if rows[|rows| - 1].id > m then rows[|rows| - 1].id else m
  }

  /**
   * n distinct row ids none of which the table holds. They stand for the
   * Uuid::new_v4 calls of the inserts.
   */
  function NextIds(rows: seq<Assignment>, n: nat): (ids: seq<Uuid>)
    requires RowsValid(rows)
    ensures |ids| == n && FreshIds(rows, ids)
  {
    var ids := seq(n, i requires 0 <= i < n => MaxId(rows) + 1 + i);
    forall k | 0 <= k < n
      ensures FindId(rows, ids[k]).None?
    {
      assert ids[k] == MaxId(rows) + 1 + k;
    }
    ids
  }

  // ---------------------------------------------------------------------
  // What the sweep writes, as functions of the state before it

  /** Two membership tables with the same (household, user) pair in every row. */
  predicate SameKeys(ms: seq<Membership>, ms': seq<Membership>)
  {
    |ms'| == |ms|
    && forall i :: 0 <= i < |ms| ==> ms'[i].householdId == ms[i].householdId && ms'[i].userId == ms[i].userId
  }

  /** deduct_missed_task_points for one user: a zero total writes nothing. */
  function Deducted(ms: seq<Membership>, householdId: Uuid, userId: Uuid, total: int): (r: seq<Membership>)
    ensures SameKeys(ms, r)
  {
    if total == 0 then ms else AddPoints(ms, householdId, userId, total)
  }

  /** The balances after the deduction for each of the users in turn. */
  function DeductedEach(ms: seq<Membership>, householdId: Uuid, users: seq<Uuid>, total: int): (r: seq<Membership>)
    ensures SameKeys(ms, r)
    decreases |users|
  {
    if users == [] then ms
    else Deducted(DeductedEach(ms, householdId, users[..|users| - 1], total), householdId, users[|users| - 1], total)
  }

  lemma DeductedEachStep(ms: seq<Membership>, householdId: Uuid, users: seq<Uuid>, k: nat, total: int)
    requires k < |users|
    ensures DeductedEach(ms, householdId, users[..k + 1], total)
      == Deducted(DeductedEach(ms, householdId, users[..k], total), householdId, users[k], total)
  {
    assert users[..k + 1][..k] == users[..k];
  }

  /** Deducting for the users leaves every other pair's membership as it was. */
  lemma {:induction false} DeductedEachOthers(ms: seq<Membership>, householdId: Uuid, users: seq<Uuid>, total: int)
    ensures forall h: Uuid, u: Uuid :: !(h == householdId && u in users) ==>
      GetMember(DeductedEach(ms, householdId, users, total), h, u) == GetMember(ms, h, u)
    decreases |users|
  {
    if users != [] {
      var n := |users| - 1;
      DeductedEachOthers(ms, householdId, users[..n], total);
      var prev := DeductedEach(ms, householdId, users[..n], total);
      OthersUnchanged(prev, Deducted(prev, householdId, users[n], total), householdId, users[n], total);
      assert users[..n + 1] == users;
      OthersStep(ms, prev, DeductedEach(ms, householdId, users, total), householdId, users, n);
    }
  }

  /** A task whose missed points come to zero writes no balance. */
  lemma {:induction false} ZeroDeductsNothing(ms: seq<Membership>, householdId: Uuid, users: seq<Uuid>)
    ensures DeductedEach(ms, householdId, users, 0) == ms
    decreases |users|
  {
    if users != [] {
      ZeroDeductsNothing(ms, householdId, users[..|users| - 1]);
    }
  }

  /** assign_missed_task_punishments for one user, each new row with a fresh id. */
  function Punished(rows: seq<Assignment>, linked: seq<Uuid>, userId: Uuid, householdId: Uuid, now: Instant)
    : (r: seq<Assignment>)
    requires RowsValid(rows)
    ensures RowsValid(r)
  {
    AssignEach(rows, linked, userId, householdId, now, NextIds(rows, |linked|)).0
  }

  /** The assignment table after the punishments of each of the users in turn. */
  function PunishedEach(rows: seq<Assignment>, linked: seq<Uuid>, users: seq<Uuid>, householdId: Uuid, now: Instant)
    : (r: seq<Assignment>)
    requires RowsValid(rows)
    ensures RowsValid(r)
    decreases |users|
  {
    if users == [] then rows
    else
      Punished(PunishedEach(rows, linked, users[..|users| - 1], householdId, now), linked, users[|users| - 1],
               householdId, now)
  }

  lemma PunishedEachStep(rows: seq<Assignment>, linked: seq<Uuid>, users: seq<Uuid>, k: nat, householdId: Uuid,
                         now: Instant)
    requires RowsValid(rows) && k < |users|
    ensures PunishedEach(rows, linked, users[..k + 1], householdId, now)
      == Punished(PunishedEach(rows, linked, users[..k], householdId, now), linked, users[k], householdId, now)
  {
    assert users[..k + 1][..k] == users[..k];
  }

  /** After the users of a task are penalized, each of them holds each punishment linked to it. */
  lemma {:induction false} PunishedEachHolds(rows: seq<Assignment>, linked: seq<Uuid>, users: seq<Uuid>,
                                             householdId: Uuid, now: Instant, j: nat, k: nat)
    requires RowsValid(rows) && j < |users| && k < |linked|
    ensures GetTriple(PunishedEach(rows, linked, users, householdId, now), users[j], linked[k], householdId).Some?
    decreases |users|
  {
    var n := |users| - 1;
    var prev := PunishedEach(rows, linked, users[..n], householdId, now);
    if j == n {
      AssignEachHolds(prev, linked, users[n], householdId, now, NextIds(prev, |linked|), k);
    } else {
      PunishedEachHolds(rows, linked, users[..n], householdId, now, j, k);
      assert users[..n][j] == users[j];
      AssignEachKeepsTriples(prev, linked, users[n], householdId, now, NextIds(prev, |linked|),
                             users[j], linked[k], householdId);
    }
  }

  /** Tables with the same keys have the same members in a household. */
  lemma {:induction false} SameKeysSameUsers(ms: seq<Membership>, ms': seq<Membership>, householdId: Uuid)
    requires SameKeys(ms, ms')
    ensures UserIdsOf(Filter(ms', InHouseholdOf(householdId))) == UserIdsOf(Filter(ms, InHouseholdOf(householdId)))
    decreases |ms|
  {
    if ms != [] {
      var p := InHouseholdOf(householdId);
      assert SameKeys(ms[1..], ms'[1..]);
      SameKeysSameUsers(ms[1..], ms'[1..], householdId);
      var f := Filter(ms[1..], p);
      var f' := Filter(ms'[1..], p);
      if p(ms[0]) {
        assert p(ms'[0]);
        assert ([ms[0]] + f)[1..] == f;
        assert ([ms'[0]] + f')[1..] == f';
      } else {
        assert !p(ms'[0]);
        assert Filter(ms, p) == f && Filter(ms', p) == f';
      }
    }
  }

  /** The sweep's deductions leave the users to penalize of every later task as they were. */
  lemma UsersStable(task: Task, ms: seq<Membership>, ms': seq<Membership>)
    requires SameKeys(ms, ms')
    ensures UsersToPenalize(task, ms') == UsersToPenalize(task, ms)
  {
    if task.assignedUserId.None? {
      SameKeysSameUsers(ms, ms', task.householdId);
    }
  }

  /**
   * The report's two totals over the missed tasks of the date: each user
   * to penalize adds the absolute value of the task's missed points to the
   * first, and one row per punishment linked to the task to the second.
   */
  function MissedTotals(tasks: seq<Task>, members: seq<Membership>, completions: seq<Completion>,
                        conditions: seq<PointCondition>, links: seq<TaskLink>, names: map<Uuid, string>,
                        date: Date): (nat, nat)
    decreases |tasks|
  {
    if tasks == [] then (0, 0)
    else
      Plus(MissedTotals(tasks[..|tasks| - 1], members, completions, conditions, links, names, date),
           MissedTask(tasks[|tasks| - 1], members, completions, conditions, links, names, date))
  }

  function Plus(a: (nat, nat), b: (nat, nat)): (nat, nat)
  {
    (a.0 + b.0, a.1 + b.1)
  }

  lemma PlusNothing(a: (nat, nat))
    ensures Plus(a, (0, 0)) == a
  {
  }

  /** What one task adds to the two totals: nothing unless it was missed on the date. */
  function MissedTask(t: Task, members: seq<Membership>, completions: seq<Completion>,
                      conditions: seq<PointCondition>, links: seq<TaskLink>, names: map<Uuid, string>,
                      date: Date): (nat, nat)
  {
    if MissedOn(completions, date)(t) then TaskTotals(t, members, completions, conditions, links, names) else (0, 0)
  }

  /** What penalizing the users of one missed task adds to the two totals. */
  function TaskTotals(t: Task, members: seq<Membership>, completions: seq<Completion>,
                      conditions: seq<PointCondition>, links: seq<TaskLink>, names: map<Uuid, string>): (nat, nat)
  {
    var n := |UsersToPenalize(t, members)|;
    var broken := Count(completions, CompletionOfTask(t.id)) > 0;
    (Times(n, Abs(MissedPoints(HouseholdConditions(conditions, t.householdId), t, broken))),
     Times(n, |LinkedIds(links, names, t.id)|))
  }

  function Times(n: nat, x: nat): nat
  {
    n * x
  }

  /** A date without missed tasks deducts nothing and assigns nothing. */
  lemma {:induction false} NoMissedNoTotals(tasks: seq<Task>, members: seq<Membership>, completions: seq<Completion>,
                                            conditions: seq<PointCondition>, links: seq<TaskLink>,
                                            names: map<Uuid, string>, date: Date)
    requires Count(tasks, MissedOn(completions, date)) == 0
    ensures MissedTotals(tasks, members, completions, conditions, links, names, date) == (0, 0)
    decreases |tasks|
  {
    if tasks != [] {
      var n := |tasks| - 1;
      CountStep(tasks, n, MissedOn(completions, date));
      assert tasks[..n + 1] == tasks;
      NoMissedNoTotals(tasks[..n], members, completions, conditions, links, names, date);
    }
  }

  /** MissedTotals over one more task of a prefix. */
  lemma MissedTotalsStep(tasks: seq<Task>, i: nat, members: seq<Membership>, completions: seq<Completion>,
                         conditions: seq<PointCondition>, links: seq<TaskLink>, names: map<Uuid, string>, date: Date)
    requires i < |tasks|
    ensures MissedTotals(tasks[..i + 1], members, completions, conditions, links, names, date)
      == Plus(MissedTotals(tasks[..i], members, completions, conditions, links, names, date),
              MissedTask(tasks[i], members, completions, conditions, links, names, date))
  {
    var p := tasks[..i + 1];
    assert p[..i] == tasks[..i];
    assert p[i] == tasks[i];
  }

  // ---------------------------------------------------------------------
  // The sweep

  /** Whether deduct_missed_task_points succeeds for the user: a zero total, or a member of the household. */
  predicate Deductible(ms: seq<Membership>, householdId: Uuid, userId: Uuid, total: int)
  {
    total == 0 || IsMember(ms, householdId, userId)
  }

  predicate AllDeductible(ms: seq<Membership>, householdId: Uuid, users: seq<Uuid>, total: int)
  {
    forall u :: u in users ==> Deductible(ms, householdId, u, total)
  }

  lemma DeductibleStep(ms: seq<Membership>, householdId: Uuid, users: seq<Uuid>, k: nat, total: int)
    requires k < |users| && AllDeductible(ms, householdId, users[..k], total)
    requires Deductible(ms, householdId, users[k], total)
    ensures AllDeductible(ms, householdId, users[..k + 1], total)
  {
    assert users[..k + 1] == users[..k] + [users[k]];
  }

  /**
   * The inner loop of the sweep, over the users to penalize (PenalizeUser
   * for each). The first failing deduction ends the sweep; one fails when
   * the missed points are not zero and the user is no member of the
   * task's household.
   */
  method PenalizeUsers(points: HouseholdStore, punish: PunishmentStore, conditions: seq<PointCondition>,
                       links: seq<TaskLink>, task: Task, users: seq<Uuid>, broken: bool, now: Instant)
    returns (res: Result<(nat, nat), JobError>)
    requires punish.Valid()
    modifies points, punish
    ensures punish.Valid() && punish.punishments == old(punish.punishments) && punish.options == old(punish.options)
    ensures points.households == old(points.households)
    ensures res.Err? <==> !old(AllDeductible(points.members, task.householdId, users, MissedPoints(conditions, task, broken)))
    ensures res.Ok? ==>
      res.value.0 == |users| * Abs(MissedPoints(conditions, task, broken))
      && res.value.1 == |users| * |LinkedIds(links, PunishmentNames(punish.punishments), task.id)|
    ensures res.Ok? ==>
      points.members == DeductedEach(old(points.members), task.householdId, users, MissedPoints(conditions, task, broken))
    ensures res.Ok? ==>
      punish.userPunishments == PunishedEach(old(punish.userPunishments),
                                             LinkedIds(links, PunishmentNames(punish.punishments), task.id),
                                             users, task.householdId, now)
    ensures res.Ok? ==> forall h: Uuid, u: Uuid :: !(h == task.householdId && u in users) ==>
      GetMember(points.members, h, u) == old(GetMember(points.members, h, u))
  {
    ghost var total := MissedPoints(conditions, task, broken);
    ghost var linked := LinkedIds(links, PunishmentNames(punish.punishments), task.id);
    ghost var members0 := points.members;
    ghost var rows0 := punish.userPunishments;
    var deducted: nat := 0;
    var given: nat := 0;
    var k := 0;
    while k < |users|
      invariant 0 <= k <= |users|
      invariant punish.Valid() && punish.punishments == old(punish.punishments) && punish.options == old(punish.options)
      invariant points.households == old(points.households)
      invariant deducted == k * Abs(total) && given == k * |linked|
      invariant points.members == DeductedEach(members0, task.householdId, users[..k], total)
      invariant punish.userPunishments == PunishedEach(rows0, linked, users[..k], task.householdId, now)
      invariant AllDeductible(members0, task.householdId, users[..k], total)
    {
      ghost var before := points.members;
      SameKeysSameMembers(members0, before, task.householdId, users[k]);
      assert Deductible(before, task.householdId, users[k], total) == Deductible(members0, task.householdId, users[k], total);
      var one := PenalizeUser(points, punish, conditions, links, task, users[k], broken, now);
      if one.Err? {
        assert users[k] in users;
        return Err(one.error);
      }
      DeductibleStep(members0, task.householdId, users, k, total);
      DeductedEachStep(members0, task.householdId, users, k, total);
      PunishedEachStep(rows0, linked, users, k, task.householdId, now);
      MulSucc(k, Abs(total));
      MulSucc(k, |linked|);
      deducted := deducted + one.value.0;
      given := given + one.value.1;
      k := k + 1;
    }
    assert users[..k] == users;
    DeductedEachOthers(members0, task.householdId, users, total);
    res := Ok((deducted, given));
  }

  /**
   * One turn of the inner loop: deduct_missed_task_points for the user,
   * whose absolute value is the first result, then
   * assign_missed_task_punishments, whose number of rows is the second.
   */
  method PenalizeUser(points: HouseholdStore, punish: PunishmentStore, conditions: seq<PointCondition>,
                      links: seq<TaskLink>, task: Task, user: Uuid, broken: bool, now: Instant)
    returns (res: Result<(nat, nat), JobError>)
    requires punish.Valid()
    modifies points, punish
    ensures punish.Valid() && punish.punishments == old(punish.punishments) && punish.options == old(punish.options)
    ensures points.households == old(points.households)
    ensures res.Err? <==> !old(Deductible(points.members, task.householdId, user, MissedPoints(conditions, task, broken)))
    ensures res.Ok? ==>
      res.value.0 == Abs(MissedPoints(conditions, task, broken))
      && res.value.1 == |LinkedIds(links, PunishmentNames(punish.punishments), task.id)|
    ensures res.Ok? ==>
      points.members == Deducted(old(points.members), task.householdId, user, MissedPoints(conditions, task, broken))
    ensures res.Ok? ==>
      punish.userPunishments == Punished(old(punish.userPunishments),
                                         LinkedIds(links, PunishmentNames(punish.punishments), task.id),
                                         user, task.householdId, now)
    ensures res.Ok? ==> forall h: Uuid, u: Uuid :: !(h == task.householdId && u == user) ==>
      GetMember(points.members, h, u) == old(GetMember(points.members, h, u))
  {
    ghost var before := points.members;
    ghost var total := MissedPoints(conditions, task, broken);
    assert total == -PenaltyOf(map[task.id := task], task.id) + SumMissed(conditions, task.id, broken);
    var deduction := DeductMissedTaskPoints(points, conditions, map[task.id := task], task.householdId, user,
                                            task.id, broken);
    if deduction.Err? {
      return Err(PointsFailed(deduction.error));
    }
    assert points.members == Deducted(before, task.householdId, user, total);
    OthersUnchanged(before, points.members, task.householdId, user, total);
    var ids := NextIds(punish.userPunishments, |LinkedIds(links, PunishmentNames(punish.punishments), task.id)|);
    var rows := AssignMissedTaskPunishments(punish, links, task.id, user, task.householdId, now, ids);
    res := Ok((Abs(deduction.value), |rows|));
  }

  lemma OthersStep(m0: seq<Membership>, m1: seq<Membership>, m2: seq<Membership>, householdId: Uuid,
                   users: seq<Uuid>, k: nat)
    requires k < |users|
    requires forall h: Uuid, u: Uuid :: !(h == householdId && u in users[..k]) ==>
      GetMember(m1, h, u) == GetMember(m0, h, u)
    requires forall h: Uuid, u: Uuid :: !(h == householdId && u == users[k]) ==>
      GetMember(m2, h, u) == GetMember(m1, h, u)
    ensures forall h: Uuid, u: Uuid :: !(h == householdId && u in users[..k + 1]) ==>
      GetMember(m2, h, u) == GetMember(m0, h, u)
  {
    assert users[..k + 1] == users[..k] + [users[k]];
  }

  lemma MulSucc(k: int, x: int)
    ensures (k + 1) * x == k * x + x
  {
  }

  /** A deduction for one user leaves every other pair's membership as it was. */
  lemma OthersUnchanged(before: seq<Membership>, after: seq<Membership>, householdId: Uuid, userId: Uuid, total: int)
    requires after == before || after == AddPoints(before, householdId, userId, total)
    ensures forall h: Uuid, u: Uuid :: !(h == householdId && u == userId) ==>
      GetMember(after, h, u) == GetMember(before, h, u)
  {
    if after != before {
      forall h: Uuid, u: Uuid | !(h == householdId && u == userId)
        ensures GetMember(after, h, u) == GetMember(before, h, u)
      {
        SameKeysSameMembers(before, after, h, u);
      }
    }
  }

  /**
   * The body of the sweep for a missed task: its users to penalize, whether
   * its streak counts as broken, and PenalizeUsers.
   */
  method PenalizeTask(points: HouseholdStore, punish: PunishmentStore, task: Task, completions: seq<Completion>,
                      conditions: seq<PointCondition>, links: seq<TaskLink>, now: Instant)
    returns (res: Result<(nat, nat), JobError>)
    requires punish.Valid()
    modifies points, punish
    ensures punish.Valid() && punish.punishments == old(punish.punishments) && punish.options == old(punish.options)
    ensures points.households == old(points.households)
    ensures res.Err? <==>
      !old(AllDeductible(points.members, task.householdId, UsersToPenalize(task, points.members),
                         MissedPoints(HouseholdConditions(conditions, task.householdId), task,
                                      Count(completions, CompletionOfTask(task.id)) > 0)))
    ensures res.Ok? ==>
      res.value.0 == TaskTotals(task, old(points.members), completions, conditions, links,
                                PunishmentNames(punish.punishments)).0
      && res.value.1 == TaskTotals(task, old(points.members), completions, conditions, links,
                                   PunishmentNames(punish.punishments)).1
    ensures res.Ok? ==>
      points.members == DeductedEach(old(points.members), task.householdId, UsersToPenalize(task, old(points.members)),
                                     MissedPoints(HouseholdConditions(conditions, task.householdId), task,
                                                  Count(completions, CompletionOfTask(task.id)) > 0))
    ensures res.Ok? ==>
      punish.userPunishments == PunishedEach(old(punish.userPunishments),
                                             LinkedIds(links, PunishmentNames(punish.punishments), task.id),
                                             UsersToPenalize(task, old(points.members)), task.householdId, now)
  {
    var users := UsersToPenalize(task, points.members);
    var broken := Count(completions, CompletionOfTask(task.id)) > 0;
    res := PenalizeUsers(points, punish, HouseholdConditions(conditions, task.householdId), links, task, users,
                         broken, now);
  }

  lemma SameKeysTransitive(a: seq<Membership>, b: seq<Membership>, c: seq<Membership>)
    requires SameKeys(a, b) && SameKeys(b, c)
    ensures SameKeys(a, c)
  {
  }

  /** What a missed task adds to the totals depends only on the keys of the membership table. */
  lemma TotalsStable(task: Task, ms: seq<Membership>, ms': seq<Membership>, completions: seq<Completion>,
                     conditions: seq<PointCondition>, links: seq<TaskLink>, names: map<Uuid, string>)
    requires SameKeys(ms, ms')
    ensures TaskTotals(task, ms', completions, conditions, links, names)
      == TaskTotals(task, ms, completions, conditions, links, names)
  {
    UsersStable(task, ms, ms');
  }

  /**
   * process_missed_tasks_for_date: every task that is not OneTime and is
   * due on the date is checked; a checked task without a completion due
   * that day is missed, and each user to penalize loses its points and
   * receives its linked punishments. A streak counts as broken when the
   * task has any completion at all. The counters count exactly those
   * tasks, and the two totals are MissedTotals of the tables before the
   * sweep.
   */
  method ProcessMissedTasksForDate(points: HouseholdStore, punish: PunishmentStore, tasks: seq<Task>,
                                   completions: seq<Completion>, conditions: seq<PointCondition>,
                                   links: seq<TaskLink>, date: Date, now: Instant)
    returns (res: Result<MissedTaskReport, JobError>)
    requires Valid(date) && punish.Valid()
    modifies points, punish
    ensures punish.Valid() && punish.punishments == old(punish.punishments) && punish.options == old(punish.options)
    ensures points.households == old(points.households)
    ensures res.Ok? ==>
      res.value.processedAt == now
      && res.value.tasksChecked == Count(tasks, CheckedOn(date))
      && res.value.missedTasks == Count(tasks, MissedOn(completions, date))
      && res.value.missedTasks <= res.value.tasksChecked
    ensures res.Ok? ==>
      res.value.pointsDeducted == MissedTotals(tasks, old(points.members), completions, conditions, links,
                                               PunishmentNames(punish.punishments), date).0
      && res.value.punishmentsAssigned == MissedTotals(tasks, old(points.members), completions, conditions, links,
                                                       PunishmentNames(punish.punishments), date).1
    ensures res.Ok? ==> SameKeys(old(points.members), points.members)
  {
    ghost var members0 := points.members;
    ghost var names := PunishmentNames(punish.punishments);
    var checked := 0;
    var missed := 0;
    var assignedCount := 0;
    var deducted := 0;
    var i := 0;
    while i < |tasks|
      invariant 0 <= i <= |tasks|
      invariant punish.Valid() && punish.punishments == old(punish.punishments) && punish.options == old(punish.options)
      invariant points.households == old(points.households)
      invariant checked == Count(tasks[..i], CheckedOn(date))
      invariant missed == Count(tasks[..i], MissedOn(completions, date))
      invariant deducted == MissedTotals(tasks[..i], members0, completions, conditions, links, names, date).0
      invariant assignedCount == MissedTotals(tasks[..i], members0, completions, conditions, links, names, date).1
      invariant SameKeys(members0, points.members)
    {
      var task := tasks[i];
      CountStep(tasks, i, CheckedOn(date));
      CountStep(tasks, i, MissedOn(completions, date));
      MissedTotalsStep(tasks, i, members0, completions, conditions, links, names, date);
      ghost var add := MissedTask(task, members0, completions, conditions, links, names, date);
      if task.recurrenceType != OneTime && IsTaskDueOnDate(task, date) {
        checked := checked + 1;
        if Count(completions, DueOnOf(task.id, date)) == 0 {
          missed := missed + 1;
          assert add == TaskTotals(task, members0, completions, conditions, links, names);
          ghost var next := MissedTotals(tasks[..i + 1], members0, completions, conditions, links, names, date);
          assert next.0 == deducted + add.0 && next.1 == assignedCount + add.1;
          ghost var before := points.members;
          TotalsStable(task, members0, before, completions, conditions, links, names);
          var penalized := PenalizeTask(points, punish, task, completions, conditions, links, now);
          if penalized.Err? {
            return Err(penalized.error);
          }
          SameKeysTransitive(members0, before, points.members);
          assert penalized.value.0 == add.0 && penalized.value.1 == add.1;
          deducted := deducted + penalized.value.0;
          assignedCount := assignedCount + penalized.value.1;
          assert deducted == next.0 && assignedCount == next.1;
        } else {
          assert add == (0, 0);
          PlusNothing(MissedTotals(tasks[..i], members0, completions, conditions, links, names, date));
        }
      } else {
        assert add == (0, 0);
        PlusNothing(MissedTotals(tasks[..i], members0, completions, conditions, links, names, date));
        assert (deducted, assignedCount) == MissedTotals(tasks[..i + 1], members0, completions, conditions, links, names, date);
      }
      i := i + 1;
    }
    assert tasks[..i] == tasks;
    MissedAtMostChecked(tasks, completions, date);
    res := Ok(MissedTaskReport(now, checked, missed, assignedCount, deducted));
  }

  /** process_missed_tasks: the sweep for the UTC day before now. */
  method ProcessMissedTasks(points: HouseholdStore, punish: PunishmentStore, tasks: seq<Task>,
                            completions: seq<Completion>, conditions: seq<PointCondition>,
                            links: seq<TaskLink>, now: Instant)
    returns (res: Result<MissedTaskReport, JobError>)
    requires punish.Valid()
    modifies points, punish
    ensures punish.Valid() && punish.punishments == old(punish.punishments) && punish.options == old(punish.options)
    ensures points.households == old(points.households)
    ensures res.Ok? ==>
      res.value.processedAt == now
      && res.value.tasksChecked == Count(tasks, CheckedOn(SubDays(DateOfInstant(now), 1)))
      && res.value.missedTasks == Count(tasks, MissedOn(completions, SubDays(DateOfInstant(now), 1)))
      && res.value.missedTasks <= res.value.tasksChecked
    ensures res.Ok? ==>
      res.value.pointsDeducted == MissedTotals(tasks, old(points.members), completions, conditions, links,
                                               PunishmentNames(punish.punishments), SubDays(DateOfInstant(now), 1)).0
      && res.value.punishmentsAssigned == MissedTotals(tasks, old(points.members), completions, conditions, links,
                                                       PunishmentNames(punish.punishments),
                                                       SubDays(DateOfInstant(now), 1)).1
    ensures res.Ok? ==> SameKeys(old(points.members), points.members)
  {
    var yesterday := SubDays(DateOfInstant(now), 1);
    res := ProcessMissedTasksForDate(points, punish, tasks, completions, conditions, links, yesterday, now);
  }

  /** Counting one more row of a prefix. */
  lemma CountStep<T>(s: seq<T>, i: nat, p: T -> bool)
    requires i < |s|
    ensures Count(s[..i + 1], p) == Count(s[..i], p) + (if p(s[i]) then 1 else 0)
  {
    assert s[..i + 1] == s[..i] + [s[i]];
    CountAppend(s[..i], [s[i]], p);
    assert [s[i]][1..] == [];
  }
}
