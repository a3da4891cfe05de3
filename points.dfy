/**
 * Point arithmetic. A household's point conditions add to or take from a
 * member's balance when a task is completed, when a completion is
 * rejected and when a task is missed. Each of the three operations sums
 * the task's own reward or penalty and the values of the conditions of the
 * matching kinds that apply to the task, then changes the member's balance
 * by the sum when it is not zero.
 */
module Points {
  import opened Wrappers
  import opened Types
  import opened Households

  datatype ConditionType = TaskComplete | TaskMissed | Streak | StreakBroken
  {
    function AsStr(): string
    {
      match this
      case TaskComplete => "task_complete"
      case TaskMissed => "task_missed"
      case Streak => "streak"
      case StreakBroken => "streak_broken"
    }
  }

  /** A point_conditions row; the multiplier column is not part of this model. */
  datatype PointCondition = PointCondition(
    id: Uuid,
    householdId: Uuid,
    name: string,
    conditionType: ConditionType,
    pointsValue: int,
    streakThreshold: Option<int>,
    taskId: Option<Uuid>)

  datatype PointsError = NotFound | HouseholdFailed(cause: HouseholdError)

  /** A condition applies to every task when it names none, else only to the one it names. */
  predicate Applies(c: PointCondition, taskId: Uuid)
  {
    c.taskId.None? || c.taskId == Some(taskId)
  }

  // ---------------------------------------------------------------------
  // The streak test

  /**
   * The streak test as written: streak >= t && streak % t == 0 with Rust's
   * remainder, which panics for t == 0 (None here). For t != 0 the Rust
   * remainder is 0 exactly when |t| divides streak.
   */
  function StreakDueAsWritten(t: int, streak: int): (r: Option<bool>)
    ensures r.None? <==> streak >= t && t == 0
  {
    if streak < t then Some(false)
    else if t == 0 then None
    else Some(streak % (if t < 0 then -t else t) == 0)
  }

  /** A zero threshold that a non-negative streak reaches makes the remainder panic. */
  lemma ZeroThresholdPanics(streak: int)
    requires streak >= 0
    ensures StreakDueAsWritten(0, streak).None?
  {
  }

  /** The streak test the model uses: as written, with a zero threshold never due. */
  function StreakDue(t: int, streak: int): (b: bool)
    ensures t == 0 ==> !b
    ensures streak < t ==> !b
  {
    t != 0 && StreakDueAsWritten(t, streak) == Some(true)
  }

  /** x * t grows with x for a positive t: at least t from x = 1 on, at most -t from x = -1 down. */
  lemma {:induction false} MulBounds(x: int, t: int)
    requires t > 0
    ensures x >= 1 ==> x * t >= t
    ensures x <= -1 ==> x * t <= -t
    decreases if x < 0 then -x else x
  {
    if x > 1 {
      MulBounds(x - 1, t);
      assert x * t == (x - 1) * t + t;
    } else if x < -1 {
      MulBounds(x + 1, t);
      assert x * t == (x + 1) * t - t;
    }
  }

  /** A positive threshold is due exactly at its positive whole multiples. */
  lemma StreakDueMultiples(t: int, streak: int)
    requires t > 0
    ensures StreakDue(t, streak) <==> exists k: nat :: 1 <= k && streak == k * t
  {
    var q := streak / t;
    var r := streak % t;
    assert streak == q * t + r && 0 <= r < t;
    if StreakDue(t, streak) {
      assert streak == q * t;
      MulBounds(q, t);
      assert 1 <= q;
    }
    if exists k: nat :: 1 <= k && streak == k * t {
      var k: nat :| 1 <= k && streak == k * t;
      assert (k - q) * t == r;
      MulBounds(k - q, t);
      assert k == q;
      MulBounds(k, t);
    }
  }

  /** Wherever the written test does not panic, the two tests agree. */
  lemma StreakDueAgrees(t: int, streak: int)
    requires StreakDueAsWritten(t, streak).Some?
    ensures StreakDueAsWritten(t, streak) == Some(StreakDue(t, streak))
  {
  }

  // ---------------------------------------------------------------------
  // What each condition contributes

  /** The value a condition adds on completion at the given streak. */
  function AwardOf(c: PointCondition, taskId: Uuid, streak: int): int
  {
    match c.conditionType
    case TaskComplete => if Applies(c, taskId) then c.pointsValue else 0
    case Streak =>
      if c.streakThreshold.Some? && Applies(c, taskId) && StreakDue(c.streakThreshold.value, streak)
      then c.pointsValue else 0
    case _ => 0
  }

  /** The value a condition would have added on completion, streak bonuses excluded. */
  function BaseOf(c: PointCondition, taskId: Uuid): int
  {
    if c.conditionType == TaskComplete && Applies(c, taskId) then c.pointsValue else 0
  }

  /** The streak bonus alone. */
  function BonusOf(c: PointCondition, taskId: Uuid, streak: int): int
  {
    if c.conditionType == Streak then AwardOf(c, taskId, streak) else 0
  }

  /** The value a condition adds when the task is missed. */
  function MissedOf(c: PointCondition, taskId: Uuid, streakWasBroken: bool): int
  {
    match c.conditionType
    case TaskMissed => if Applies(c, taskId) then c.pointsValue else 0
    case StreakBroken => if streakWasBroken && Applies(c, taskId) then c.pointsValue else 0
    case _ => 0
  }

  function SumAward(cs: seq<PointCondition>, taskId: Uuid, streak: int): int
  {
    if cs == [] then 0 else SumAward(cs[..|cs| - 1], taskId, streak) + AwardOf(cs[|cs| - 1], taskId, streak)
  }

  function SumBase(cs: seq<PointCondition>, taskId: Uuid): int
  {
    if cs == [] then 0 else SumBase(cs[..|cs| - 1], taskId) + BaseOf(cs[|cs| - 1], taskId)
  }

  function SumBonus(cs: seq<PointCondition>, taskId: Uuid, streak: int): int
  {
    if cs == [] then 0 else SumBonus(cs[..|cs| - 1], taskId, streak) + BonusOf(cs[|cs| - 1], taskId, streak)
  }

  function SumMissed(cs: seq<PointCondition>, taskId: Uuid, streakWasBroken: bool): int
  {
    if cs == [] then 0 else SumMissed(cs[..|cs| - 1], taskId, streakWasBroken) + MissedOf(cs[|cs| - 1], taskId, streakWasBroken)
  }

  /** The task's points_reward, when the task exists and has one. */
  function RewardOf(tasks: map<Uuid, Task>, taskId: Uuid): int
  {
    if taskId in tasks && tasks[taskId].pointsReward.Some? then tasks[taskId].pointsReward.value else 0
  }

  /** The task's points_penalty, when the task exists and has one. */
  function PenaltyOf(tasks: map<Uuid, Task>, taskId: Uuid): int
  {
    if taskId in tasks && tasks[taskId].pointsPenalty.Some? then tasks[taskId].pointsPenalty.value else 0
  }

  // ---------------------------------------------------------------------
  // Properties of the sums

  /** A completion earns the base (reward and TaskComplete values) plus the streak bonuses. */
  lemma {:induction false} AwardIsBasePlusBonus(cs: seq<PointCondition>, taskId: Uuid, streak: int)
    ensures SumAward(cs, taskId, streak) == SumBase(cs, taskId) + SumBonus(cs, taskId, streak)
  {
    if cs != [] {
      AwardIsBasePlusBonus(cs[..|cs| - 1], taskId, streak);
    }
  }

  /** Conditions that name another task contribute nothing to any of the sums. */
  lemma {:induction false} OtherTasksIgnored(cs: seq<PointCondition>, taskId: Uuid, streak: int, broken: bool)
    requires forall i :: 0 <= i < |cs| ==> !Applies(cs[i], taskId)
    ensures SumAward(cs, taskId, streak) == 0 && SumBase(cs, taskId) == 0
    ensures SumMissed(cs, taskId, broken) == 0
  {
    if cs != [] {
      OtherTasksIgnored(cs[..|cs| - 1], taskId, streak, broken);
    }
  }

  /** Without streak conditions the award is exactly the base a rejection takes back. */
  lemma {:induction false} NoStreakNoBonus(cs: seq<PointCondition>, taskId: Uuid, streak: int)
    requires forall i :: 0 <= i < |cs| ==> cs[i].conditionType != Streak
    ensures SumAward(cs, taskId, streak) == SumBase(cs, taskId)
  {
    if cs != [] {
      NoStreakNoBonus(cs[..|cs| - 1], taskId, streak);
    }
  }

  /** StreakBroken conditions count only when the streak was broken, so they can only add their values. */
  lemma {:induction false} BrokenAddsStreakBroken(cs: seq<PointCondition>, taskId: Uuid)
    requires forall i :: 0 <= i < |cs| && cs[i].conditionType == StreakBroken ==> cs[i].pointsValue <= 0
    ensures SumMissed(cs, taskId, true) <= SumMissed(cs, taskId, false)
  {
    if cs != [] {
      BrokenAddsStreakBroken(cs[..|cs| - 1], taskId);
    }
  }

  lemma PrefixStep(cs: seq<PointCondition>, i: int)
    requires 0 <= i < |cs|
    ensures cs[..i + 1][..i] == cs[..i] && cs[..i + 1][i] == cs[i]
  {
  }

  // ---------------------------------------------------------------------
  // The three operations

  /** The summing loop of award_task_completion_points, the task's reward included. */
  method AwardTotal(conditions: seq<PointCondition>, tasks: map<Uuid, Task>, taskId: Uuid, currentStreak: int)
    returns (total: int)
    ensures total == RewardOf(tasks, taskId) + SumAward(conditions, taskId, currentStreak)
  {
    total := 0;
    if taskId in tasks && tasks[taskId].pointsReward.Some? {
      total := total + tasks[taskId].pointsReward.value;
    }
    var i: int := 0;
    while i < |conditions|
      invariant 0 <= i <= |conditions|
      invariant total == RewardOf(tasks, taskId) + SumAward(conditions[..i], taskId, currentStreak)
    {
      var c := conditions[i];
      PrefixStep(conditions, i);
      match c.conditionType {
        case TaskComplete =>
          var applies := c.taskId.None? || c.taskId == Some(taskId);
          if applies {
            total := total + c.pointsValue;
          }
        case Streak =>
          if c.streakThreshold.Some? {
            var threshold := c.streakThreshold.value;
            var applies := c.taskId.None? || c.taskId == Some(taskId);
            if applies && StreakDue(threshold, currentStreak) {
              total := total + c.pointsValue;
            }
          }
        case _ =>
      }
      i := i + 1;
    }
    assert conditions[..|conditions|] == conditions;
  }

  /** The summing loop of reverse_task_completion_points: reward and TaskComplete values only. */
  method BaseTotal(conditions: seq<PointCondition>, tasks: map<Uuid, Task>, taskId: Uuid)
    returns (total: int)
    ensures total == RewardOf(tasks, taskId) + SumBase(conditions, taskId)
  {
    total := 0;
    if taskId in tasks && tasks[taskId].pointsReward.Some? {
      total := total + tasks[taskId].pointsReward.value;
    }
    var i: int := 0;
    while i < |conditions|
      invariant 0 <= i <= |conditions|
      invariant total == RewardOf(tasks, taskId) + SumBase(conditions[..i], taskId)
    {
      var c := conditions[i];
      PrefixStep(conditions, i);
      if c.conditionType == TaskComplete {
        var applies := c.taskId.None? || c.taskId == Some(taskId);
        if applies {
          total := total + c.pointsValue;
        }
      }
      i := i + 1;
    }
    assert conditions[..|conditions|] == conditions;
  }

  /** The summing loop of deduct_missed_task_points, the task's penalty included. */
  method MissedTotal(conditions: seq<PointCondition>, tasks: map<Uuid, Task>, taskId: Uuid, streakWasBroken: bool)
    returns (total: int)
    ensures total == -PenaltyOf(tasks, taskId) + SumMissed(conditions, taskId, streakWasBroken)
  {
    total := 0;
    if taskId in tasks && tasks[taskId].pointsPenalty.Some? {
      total := total - tasks[taskId].pointsPenalty.value;
    }
    var i: int := 0;
    while i < |conditions|
      invariant 0 <= i <= |conditions|
      invariant total == -PenaltyOf(tasks, taskId) + SumMissed(conditions[..i], taskId, streakWasBroken)
    {
      var c := conditions[i];
      PrefixStep(conditions, i);
      match c.conditionType {
        case TaskMissed =>
          var applies := c.taskId.None? || c.taskId == Some(taskId);
          if applies {
            total := total + c.pointsValue;
          }
        case StreakBroken =>
          if streakWasBroken {
            var applies := c.taskId.None? || c.taskId == Some(taskId);
            if applies {
              total := total + c.pointsValue;
            }
          }
        case _ =>
      }
      i := i + 1;
    }
    assert conditions[..|conditions|] == conditions;
  }

  /**
   * award_task_completion_points: the task's reward plus every applicable
   * TaskComplete value plus every applicable Streak value whose threshold
   * the current streak reaches in a whole multiple; the member's balance
   * changes by the total when it is not zero. conditions is the
   * household's list of point conditions.
   */
  method AwardTaskCompletionPoints(store: HouseholdStore, conditions: seq<PointCondition>,
                                   tasks: map<Uuid, Task>, householdId: Uuid, userId: Uuid,
                                   taskId: Uuid, currentStreak: int)
    returns (res: Result<int, PointsError>)
    modifies store
    ensures var total := RewardOf(tasks, taskId) + SumAward(conditions, taskId, currentStreak);
      (total == 0 ==> res == Ok(0) && store.members == old(store.members))
      && (total != 0 ==> store.members == AddPoints(old(store.members), householdId, userId, total))
      && (res.Ok? ==> res.value == total)
      && (res.Err? <==> total != 0 && !old(IsMember(store.members, householdId, userId)))
    ensures store.households == old(store.households)
  {
    var total := AwardTotal(conditions, tasks, taskId, currentStreak);
    res := Settle(store, householdId, userId, total);
  }

  /**
   * reverse_task_completion_points: the same reward-plus-TaskComplete base,
   * never the streak bonuses, taken off the member's balance when it is
   * not zero. It returns the base (not its negation).
   */
  method ReverseTaskCompletionPoints(store: HouseholdStore, conditions: seq<PointCondition>,
                                     tasks: map<Uuid, Task>, householdId: Uuid, userId: Uuid, taskId: Uuid)
    returns (res: Result<int, PointsError>)
    modifies store
    ensures var total := RewardOf(tasks, taskId) + SumBase(conditions, taskId);
      (total == 0 ==> res == Ok(0) && store.members == old(store.members))
      && (total != 0 ==> store.members == AddPoints(old(store.members), householdId, userId, -total))
      && (res.Ok? ==> res.value == total)
      && (res.Err? <==> total != 0 && !old(IsMember(store.members, householdId, userId)))
    ensures store.households == old(store.households)
  {
    var total := BaseTotal(conditions, tasks, taskId);
    var settled := Settle(store, householdId, userId, -total);
    res := if settled.Ok? then Ok(total) else settled;
  }

  /**
   * deduct_missed_task_points: minus the task's penalty, plus every
   * applicable TaskMissed value, plus every applicable StreakBroken value
   * when the streak was broken; the member's balance changes by the total
   * when it is not zero.
   */
  method DeductMissedTaskPoints(store: HouseholdStore, conditions: seq<PointCondition>,
                                tasks: map<Uuid, Task>, householdId: Uuid, userId: Uuid,
                                taskId: Uuid, streakWasBroken: bool)
    returns (res: Result<int, PointsError>)
    modifies store
    ensures var total := -PenaltyOf(tasks, taskId) + SumMissed(conditions, taskId, streakWasBroken);
      (total == 0 ==> res == Ok(0) && store.members == old(store.members))
      && (total != 0 ==> store.members == AddPoints(old(store.members), householdId, userId, total))
      && (res.Ok? ==> res.value == total)
      && (res.Err? <==> total != 0 && !old(IsMember(store.members, householdId, userId)))
    ensures store.households == old(store.households)
  {
    var total := MissedTotal(conditions, tasks, taskId, streakWasBroken);
    res := Settle(store, householdId, userId, total);
  }

  /** Apply a non-zero total to the member's balance; a zero total writes nothing. */
  method Settle(store: HouseholdStore, householdId: Uuid, userId: Uuid, total: int)
    returns (res: Result<int, PointsError>)
    modifies store
    ensures total == 0 ==> res == Ok(0) && store.members == old(store.members)
    ensures total != 0 ==> store.members == AddPoints(old(store.members), householdId, userId, total)
    ensures res.Ok? ==> res.value == total
    ensures res.Err? <==> total != 0 && !old(IsMember(store.members, householdId, userId))
    ensures store.households == old(store.households)
  {
    if total != 0 {
      var updated := store.UpdateMemberPoints(householdId, userId, total);
      if updated.Err? {
        return Err(HouseholdFailed(updated.error));
      }
    }
    res := Ok(total);
  }
}
