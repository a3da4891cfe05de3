/**
 * The task service: the tasks table and the completion ledger. A
 * completion records who completed which task, when, for which due date,
 * and whether it still awaits review. The gates of complete_task decide
 * whether another completion may be recorded; calculate_streak walks a
 * user's completions back from today along the task's previous due dates.
 */
module Tasks {
  import opened Wrappers
  import opened Dates
  import opened Types
  import opened Query
  import opened Scheduler
  import Households
  import Points
  import Assignments
  import Rewards
  import TaskConsequences

  datatype TaskError = NotFound | AlreadyCompleted | NotDueToday | NotCompleted

  datatype Completion = Completion(
    id: Uuid,
    taskId: Uuid,
    userId: Uuid,
    completedAt: Instant,
    dueDate: Date,
    status: CompletionStatus)

  datatype CreateTaskRequest = CreateTaskRequest(
    title: string,
    description: Option<string>,
    recurrenceType: RecurrenceType,
    recurrenceValue: Option<RecurrenceValue>,
    assignedUserId: Option<Uuid>,
    targetCount: Option<int>,
    timePeriod: Option<TimePeriod>,
    allowExceedTarget: Option<bool>,
    requiresReview: Option<bool>,
    pointsReward: Option<int>,
    pointsPenalty: Option<int>,
    isSuggestion: Option<bool>)

  datatype UpdateTaskRequest = UpdateTaskRequest(
    title: Option<string>,
    description: Option<string>,
    recurrenceType: Option<RecurrenceType>,
    recurrenceValue: Option<RecurrenceValue>,
    assignedUserId: Option<Uuid>,
    targetCount: Option<int>,
    timePeriod: Option<TimePeriod>,
    allowExceedTarget: Option<bool>,
    requiresReview: Option<bool>,
    pointsReward: Option<int>,
    pointsPenalty: Option<int>,
    dueTime: Option<string>,
    habitType: Option<HabitType>,
    categoryId: Option<Option<Uuid>>,
    archived: Option<bool>,
    paused: Option<bool>)

  // ---------------------------------------------------------------------
  // Creating and updating tasks

  /**
   * The row create_task inserts. Columns the INSERT does not name take
   * their table defaults: a good habit, no due time, no category, neither
   * archived nor paused, not a suggestion.
   */
  function NewTask(householdId: Uuid, req: CreateTaskRequest, id: Uuid, now: Instant): (t: Task)
    ensures t.id == id && t.householdId == householdId && t.title == req.title
    ensures t.description == req.description.UnwrapOr([])
    ensures t.recurrenceType == req.recurrenceType && t.recurrenceValue == req.recurrenceValue
    ensures t.assignedUserId == req.assignedUserId && t.timePeriod == req.timePeriod
    ensures t.pointsReward == req.pointsReward && t.pointsPenalty == req.pointsPenalty
    ensures t.habitType == Good && !t.archived && !t.paused && t.suggestion.None?
    ensures t.createdAt == now && t.updatedAt == now
  {
    Task(id, householdId, req.title, req.description.UnwrapOr([]), req.recurrenceType,
         req.recurrenceValue, req.assignedUserId, req.targetCount.UnwrapOr(1), req.timePeriod,
         req.allowExceedTarget.UnwrapOr(true), req.requiresReview.UnwrapOr(false),
         req.pointsReward, req.pointsPenalty, None, DefaultHabit, None, false, false,
         None, None, now, now)
  }

  /** Unset options default to one completion per period, exceeding allowed, no review. */
  lemma CreateDefaults(householdId: Uuid, req: CreateTaskRequest, id: Uuid, now: Instant)
    ensures var t := NewTask(householdId, req, id, now);
      (req.targetCount.None? ==> t.targetCount == 1)
      && (req.allowExceedTarget.None? ==> t.allowExceedTarget)
      && (req.requiresReview.None? ==> !t.requiresReview)
      && (req.targetCount.Some? ==> t.targetCount == req.targetCount.value)
      && (req.allowExceedTarget.Some? ==> t.allowExceedTarget == req.allowExceedTarget.value)
      && (req.requiresReview.Some? ==> t.requiresReview == req.requiresReview.value)
  {
  }

  /** An optional request value replaces the current one only when present. */
  function Pick<T>(v: Option<T>, current: T): (r: T)
    ensures v.None? ==> r == current
    ensures v.Some? ==> r == v.value
  {
    match v case Some(x) => x case None => current
  }

  /**
   * update_task's merge: each of the eleven request fields that is present
   * replaces the stored value; updated_at becomes now. Nothing else
   * changes, in particular an absent assignee never unassigns the task.
   * The service reads neither the due time, the habit type, the category
   * nor the archived and paused flags of the request.
   */
  function MergeUpdate(t: Task, req: UpdateTaskRequest, now: Instant): Task
  {
    t.(title := Pick(req.title, t.title),
       description := Pick(req.description, t.description),
       recurrenceType := Pick(req.recurrenceType, t.recurrenceType),
       recurrenceValue := if req.recurrenceValue.Some? then req.recurrenceValue else t.recurrenceValue,
       assignedUserId := if req.assignedUserId.Some? then req.assignedUserId else t.assignedUserId,
       targetCount := Pick(req.targetCount, t.targetCount),
       timePeriod := if req.timePeriod.Some? then req.timePeriod else t.timePeriod,
       allowExceedTarget := Pick(req.allowExceedTarget, t.allowExceedTarget),
       requiresReview := Pick(req.requiresReview, t.requiresReview),
       pointsReward := if req.pointsReward.Some? then req.pointsReward else t.pointsReward,
       pointsPenalty := if req.pointsPenalty.Some? then req.pointsPenalty else t.pointsPenalty,
       updatedAt := now)
  }

  /** The empty request changes nothing but the update instant. */
  predicate EmptyUpdate(req: UpdateTaskRequest)
  {
    req.title.None? && req.description.None? && req.recurrenceType.None?
    && req.recurrenceValue.None? && req.assignedUserId.None? && req.targetCount.None?
    && req.timePeriod.None? && req.allowExceedTarget.None? && req.requiresReview.None?
    && req.pointsReward.None? && req.pointsPenalty.None?
  }

  lemma MergeRules(t: Task, req: UpdateTaskRequest, now: Instant)
    ensures var m := MergeUpdate(t, req, now);
      m.id == t.id && m.householdId == t.householdId && m.createdAt == t.createdAt
      && m.habitType == t.habitType && m.dueTime == t.dueTime && m.categoryId == t.categoryId
      && m.archived == t.archived && m.paused == t.paused && m.updatedAt == now
      && (req.title.None? ==> m.title == t.title) && (req.title.Some? ==> m.title == req.title.value)
      && (req.targetCount.None? ==> m.targetCount == t.targetCount)
      && (req.targetCount.Some? ==> m.targetCount == req.targetCount.value)
      && (req.assignedUserId.None? ==> m.assignedUserId == t.assignedUserId)
      && (req.assignedUserId.Some? ==> m.assignedUserId == req.assignedUserId)
      && (req.pointsReward.None? ==> m.pointsReward == t.pointsReward)
    ensures EmptyUpdate(req) ==> MergeUpdate(t, req, now) == t.(updatedAt := now)
  {
  }

  /** Merging is idempotent: applying the same request twice is applying it once. */
  lemma MergeIdempotent(t: Task, req: UpdateTaskRequest, now: Instant)
    ensures MergeUpdate(MergeUpdate(t, req, now), req, now) == MergeUpdate(t, req, now)
  {
  }

  // ---------------------------------------------------------------------
  // The completion gates

  /** Completions of the task by the user, whatever their due date or status. */
  predicate ByUser(c: Completion, taskId: Uuid, userId: Uuid)
  {
    c.taskId == taskId && c.userId == userId
  }

  function ByUserOf(taskId: Uuid, userId: Uuid): Completion -> bool
  {
    (c: Completion) => ByUser(c, taskId, userId)
  }

  /** ... with due_date inside the inclusive period [ps, pe]. */
  predicate InPeriod(c: Completion, taskId: Uuid, userId: Uuid, ps: Date, pe: Date)
  {
    ByUser(c, taskId, userId) && !LexLess(c.dueDate, ps) && !LexLess(pe, c.dueDate)
  }

  function InPeriodOf(taskId: Uuid, userId: Uuid, ps: Date, pe: Date): Completion -> bool
  {
    (c: Completion) => InPeriod(c, taskId, userId, ps, pe)
  }

  /** The user's completions of the task in the period containing today. */
  function CountInPeriod(cs: seq<Completion>, task: Task, userId: Uuid, today: Date): nat
    requires Valid(today)
  {
    var b := PeriodBounds(task, today);
    Count(cs, InPeriodOf(task.id, userId, b.0, b.1))
  }

  /**
   * The decision of complete_task for an existing task: the error it
   * returns, or the status of the completion it records.
   */
  function CompletionGate(task: Task, cs: seq<Completion>, userId: Uuid, today: Date): (r: Result<CompletionStatus, TaskError>)
    requires Valid(today)
    ensures r.Ok? ==> (r.value == Pending <==> task.requiresReview)
    ensures r.Err? ==> r.error in {AlreadyCompleted, NotDueToday}
  {
    if task.recurrenceType == OneTime && task.targetCount > 0 && !task.allowExceedTarget
       && Count(cs, ByUserOf(task.id, userId)) >= task.targetCount then Err(AlreadyCompleted)
    else if task.recurrenceType != OneTime && !IsTaskDueOnDate(task, today) then Err(NotDueToday)
    else if task.recurrenceType != OneTime && !task.allowExceedTarget
       && CountInPeriod(cs, task, userId, today) >= task.targetCount then Err(AlreadyCompleted)
    else Ok(if task.requiresReview then Pending else Approved)
  }

  /** The gates of complete_task, case by case. */
  lemma GateRules(task: Task, cs: seq<Completion>, userId: Uuid, today: Date)
    requires Valid(today)
    ensures var r := CompletionGate(task, cs, userId, today);
      var all := Count(cs, ByUserOf(task.id, userId));
      (task.recurrenceType == OneTime ==>
        (r == Err(AlreadyCompleted) <==> task.targetCount > 0 && !task.allowExceedTarget && all >= task.targetCount)
        && (r.Err? ==> r == Err(AlreadyCompleted)))
      && (task.recurrenceType != OneTime ==>
        (r == Err(NotDueToday) <==> !IsTaskDueOnDate(task, today))
        && (r == Err(AlreadyCompleted) <==>
              IsTaskDueOnDate(task, today) && !task.allowExceedTarget
              && CountInPeriod(cs, task, userId, today) >= task.targetCount))
      && (task.allowExceedTarget && (task.recurrenceType == OneTime || IsTaskDueOnDate(task, today)) ==> r.Ok?)
  {
  }

  // ---------------------------------------------------------------------
  // Uncompleting

  /**
   * The position of the completion uncomplete_task deletes: among those
   * satisfying p, one with the latest completed_at.
   */
  function Latest(cs: seq<Completion>, p: Completion -> bool): (r: Option<nat>)
    ensures r.Some? ==> r.value < |cs| && p(cs[r.value])
    ensures r.Some? ==> forall i :: 0 <= i < |cs| && p(cs[i]) ==> cs[i].completedAt <= cs[r.value].completedAt
    ensures r.None? <==> forall i :: 0 <= i < |cs| ==> !p(cs[i])
  {
    if cs == [] then None
    else
      var rest := Latest(cs[..|cs| - 1], p);
      var last := |cs| - 1;
      if !p(cs[last]) then rest
      else if rest.None? || cs[rest.value].completedAt <= cs[last].completedAt then Some(last)
      else rest
  }

  /** Unique completion ids. */
  predicate IdsUnique(cs: seq<Completion>)
  {
    forall i, j :: 0 <= i < j < |cs| ==> cs[i].id != cs[j].id
  }

  /** The position of the completion with this id. */
  function FindCompletion(cs: seq<Completion>, id: Uuid): (r: Option<nat>)
    ensures r.Some? ==> r.value < |cs| && cs[r.value].id == id
    ensures r.None? <==> forall i :: 0 <= i < |cs| ==> cs[i].id != id
  {
    if cs == [] then None
    else if cs[|cs| - 1].id == id then Some(|cs| - 1)
    else FindCompletion(cs[..|cs| - 1], id)
  }

  // ---------------------------------------------------------------------
  // Streaks

  /** The user's completions of the task, ORDER BY due_date DESC. */
  function UserCompletions(cs: seq<Completion>, taskId: Uuid, userId: Uuid): (r: seq<Completion>)
    ensures |r| == Count(cs, ByUserOf(taskId, userId))
    ensures forall i :: 0 <= i < |r| ==> r[i] in cs && ByUser(r[i], taskId, userId)
  {
    Select(cs, ByUserOf(taskId, userId), (c: Completion) => DateKeyDesc(c.dueDate))
  }

  // ---------------------------------------------------------------------
  // The service

  class TaskService {
    var tasks: map<Uuid, Task>
    var completions: seq<Completion>

    /** Rows are stored under their own id; completion ids are unique and due dates real dates. */
    predicate Valid()
      reads this
    {
      (forall id :: id in tasks ==> tasks[id].id == id)
      && IdsUnique(completions)
      && (forall i :: 0 <= i < |completions| ==> Dates.Valid(completions[i].dueDate))
    }

    constructor ()
      ensures tasks == map[] && completions == [] && Valid()
    {
      tasks := map[];
      completions := [];
    }

    /** create_task, with newId the fresh id and now the creation instant. */
    method CreateTask(householdId: Uuid, req: CreateTaskRequest, newId: Uuid, now: Instant) returns (t: Task)
      requires Valid() && newId !in tasks
      modifies this
      ensures Valid()
      ensures t == NewTask(householdId, req, newId, now)
      ensures tasks == old(tasks)[newId := t] && completions == old(completions)
    {
      t := NewTask(householdId, req, newId, now);
      tasks := tasks[newId := t];
    }

    /** update_task: NotFound for an unknown id, otherwise the merged row. */
    method UpdateTask(taskId: Uuid, req: UpdateTaskRequest, now: Instant) returns (res: Result<Task, TaskError>)
      requires Valid()
      modifies this
      ensures Valid()
      ensures taskId !in old(tasks) ==> res == Err(NotFound) && tasks == old(tasks)
      ensures taskId in old(tasks) ==>
        res == Ok(MergeUpdate(old(tasks)[taskId], req, now)) && tasks == old(tasks)[taskId := res.value]
      ensures completions == old(completions)
    {
      if taskId !in tasks {
        return Err(NotFound);
      }
      var t := MergeUpdate(tasks[taskId], req, now);
      tasks := tasks[taskId := t];
      res := Ok(t);
    }

    /**
     * complete_task for the user on the local date today at instant now,
     * with newId the fresh completion id: the ledger part of the
     * operation; CompleteTaskAndAward adds the points and rewards.
     */
    method CompleteTask(taskId: Uuid, userId: Uuid, today: Date, now: Instant, newId: Uuid)
      returns (res: Result<Completion, TaskError>)
      requires Valid() && Dates.Valid(today)
      requires forall i :: 0 <= i < |completions| ==> completions[i].id != newId
      modifies this
      ensures Valid() && tasks == old(tasks)
      ensures taskId !in tasks ==> res == Err(NotFound) && completions == old(completions)
      ensures taskId in tasks ==>
        match CompletionGate(tasks[taskId], old(completions), userId, today)
        case Err(e) => res == Err(e) && completions == old(completions)
        case Ok(status) =>
          res == Ok(Completion(newId, taskId, userId, now, today, status))
          && completions == old(completions) + [res.value]
    {
      if taskId !in tasks {
        return Err(NotFound);
      }
      var task := tasks[taskId];
      var gate := CompletionGate(task, completions, userId, today);
      if gate.Err? {
        return Err(gate.error);
      }
      var c := Completion(newId, taskId, userId, now, today, gate.value);
      completions := completions + [c];
      res := Ok(c);
    }

    /**
     * uncomplete_task: delete the user's latest completion (by
     * completed_at) in the current period; NotCompleted if there is none.
     */
    method UncompleteTask(taskId: Uuid, userId: Uuid, today: Date) returns (res: Result<Completion, TaskError>)
      requires Valid() && Dates.Valid(today)
      modifies this
      ensures Valid() && tasks == old(tasks)
      ensures taskId !in tasks ==> res == Err(NotFound) && completions == old(completions)
      ensures taskId in tasks ==>
        var b := PeriodBounds(tasks[taskId], today);
        match Latest(old(completions), InPeriodOf(taskId, userId, b.0, b.1))
        case None => res == Err(NotCompleted) && completions == old(completions)
        case Some(i) => res == Ok(old(completions)[i]) && completions == RemoveAt(old(completions), i)
    {
      if taskId !in tasks {
        return Err(NotFound);
      }
      var b := PeriodBounds(tasks[taskId], today);
      var latest := Latest(completions, InPeriodOf(taskId, userId, b.0, b.1));
      if latest.None? {
        return Err(NotCompleted);
      }
      res := Ok(completions[latest.value]);
      completions := RemoveAt(completions, latest.value);
    }

    /** approve_completion: only a pending completion becomes approved. */
    method ApproveCompletion(id: Uuid) returns (res: Result<Completion, TaskError>)
      requires Valid()
      modifies this
      ensures Valid() && tasks == old(tasks)
      ensures match FindCompletion(old(completions), id)
        case None => res == Err(NotFound) && completions == old(completions)
        case Some(i) =>
          if old(completions)[i].status == Pending then
            res == Ok(old(completions)[i].(status := Approved))
            && completions == old(completions)[i := res.value]
          else res == Err(NotFound) && completions == old(completions)
    {
      var found := FindCompletion(completions, id);
      if found.None? || completions[found.value].status != Pending {
        return Err(NotFound);
      }
      var c := completions[found.value].(status := Approved);
      completions := completions[found.value := c];
      res := Ok(c);
    }

    /**
     * reject_completion: a pending completion is deleted and returned (the
     * ledger part; RejectCompletionAndReverse takes the points back).
     */
    method RejectCompletion(id: Uuid) returns (res: Result<Completion, TaskError>)
      requires Valid()
      modifies this
      ensures Valid() && tasks == old(tasks)
      ensures match FindCompletion(old(completions), id)
        case None => res == Err(NotFound) && completions == old(completions)
        case Some(i) =>
          if old(completions)[i].status == Pending then
            res == Ok(old(completions)[i]) && completions == RemoveAt(old(completions), i)
          else res == Err(NotFound) && completions == old(completions)
    {
      var found := FindCompletion(completions, id);
      if found.None? || completions[found.value].status != Pending {
        return Err(NotFound);
      }
      res := Ok(completions[found.value]);
      completions := RemoveAt(completions, found.value);
    }
  }

  /** The first n completions of list have strictly decreasing due dates. */
  predicate StrictlyOlder(list: seq<Completion>, n: nat)
    requires n <= |list|
  {
    forall j, k :: 0 <= j < k < n ==> LexLess(list[k].dueDate, list[j].dueDate)
  }

  /** Each of the first n completions is due strictly before the one ahead of it. */
  predicate Descending(list: seq<Completion>, n: nat)
    requires n <= |list|
  {
    n <= 1 || (Descending(list, n - 1) && LexLess(list[n - 1].dueDate, list[n - 2].dueDate))
  }

  lemma {:induction false} DescendingIsOlder(list: seq<Completion>, n: nat)
    requires n <= |list| && Descending(list, n)
    ensures StrictlyOlder(list, n)
  {
    if n > 1 {
      DescendingIsOlder(list, n - 1);
      forall j | 0 <= j < n - 2
        ensures LexLess(list[n - 1].dueDate, list[j].dueDate)
      {
        LexTransitive(list[n - 1].dueDate, list[n - 2].dueDate, list[j].dueDate);
      }
    }
  }

  /**
   * calculate_streak over the completion ledger cs: for a OneTime task 0
   * (free-form) or the number of completions; otherwise, walking the user's
   * completions newest due date first, the number matching the chain of
   * expected dates that starts today (or yesterday, for the first) and
   * continues with the previous due date of each match.
   */
  method CalculateStreak(task: Task, userId: Uuid, cs: seq<Completion>, today: Date) returns (streak: int)
    requires TaskValid(task) && Valid(today)
    requires forall i :: 0 <= i < |cs| ==> Valid(cs[i].dueDate)
    ensures task.recurrenceType == OneTime && task.targetCount == 0 ==> streak == 0
    ensures task.recurrenceType == OneTime && task.targetCount != 0 ==>
      streak == Count(cs, ByUserOf(task.id, userId))
    ensures Count(cs, ByUserOf(task.id, userId)) == 0 ==> streak == 0
    ensures 0 <= streak <= Count(cs, ByUserOf(task.id, userId))
    ensures task.recurrenceType != OneTime ==>
      var list := UserCompletions(cs, task.id, userId);
      (streak > 0 ==> list[0].dueDate == today || list[0].dueDate == SubDays(today, 1))
      && StrictlyOlder(list, streak)
      && streak == StreakFrom(task, list, today)
    ensures streak == Streak(task, userId, cs, today)
  {
    if task.recurrenceType == OneTime {
      if task.targetCount == 0 {
        return 0;
      }
      return Count(cs, ByUserOf(task.id, userId));
    }
    var list := UserCompletions(cs, task.id, userId);
    streak := StreakWalk(task, list, today);
  }

  /** The streak calculate_streak reports, as one definition over the ledger cs. */
  function Streak(task: Task, userId: Uuid, cs: seq<Completion>, today: Date): int
    requires TaskValid(task) && Valid(today)
    requires forall i :: 0 <= i < |cs| ==> Valid(cs[i].dueDate)
  {
    if task.recurrenceType == OneTime then
      if task.targetCount == 0 then 0 else Count(cs, ByUserOf(task.id, userId))
    else
      var list := UserCompletions(cs, task.id, userId);
      assert DatesValid(list) by {
        forall j | 0 <= j < |list| ensures Valid(list[j].dueDate) {
          var k :| 0 <= k < |cs| && cs[k] == list[j];
        }
      }
      StreakFrom(task, list, today)
  }

  /** The due date before d, as the streak walk needs it: valid and earlier. */
  method EarlierDueDate(task: Task, d: Date) returns (r: Date)
    requires TaskValid(task) && Valid(d)
    ensures r == PreviousDue(task, d)
    ensures Valid(r) && LexLess(r, d)
  {
    r := PreviousDueDate(task, d);
    LexIsOrd(r, d);
  }

  /** Every completion in list has a valid due date. */
  predicate DatesValid(list: seq<Completion>)
  {
    forall j :: 0 <= j < |list| ==> Valid(list[j].dueDate)
  }

  /** The previous due date of each completion of list, position by position. */
  function PreviousDues(task: Task, list: seq<Completion>): (prevs: seq<Date>)
    requires TaskValid(task) && DatesValid(list)
    ensures |prevs| == |list|
  {
    seq(|list|, j requires 0 <= j < |list| => PreviousDue(task, list[j].dueDate))
  }

  /** Each of prevs is strictly before the due date at the same position. */
  predicate Earlier(list: seq<Completion>, prevs: seq<Date>)
    requires |prevs| == |list|
  {
    forall j :: 0 <= j < |list| ==> LexLess(prevs[j], list[j].dueDate)
  }

  lemma PreviousDuesEarlier(task: Task, list: seq<Completion>)
    requires TaskValid(task) && DatesValid(list)
    ensures Earlier(list, PreviousDues(task, list))
  {
    var prevs := PreviousDues(task, list);
    forall j | 0 <= j < |list|
      ensures LexLess(prevs[j], list[j].dueDate)
    {
      LexIsOrd(prevs[j], list[j].dueDate);
    }
  }

  /**
   * The part of the streak the walk of calculate_streak counts from position
   * i on, once the first completion has matched: each completion due on the
   * expected date adds one and makes its previous due date, prevs[i], the
   * next expected one; the first other completion ends the streak.
   */
  function Run(list: seq<Completion>, prevs: seq<Date>, i: nat, expected: Date): (n: nat)
    requires |prevs| == |list| && i <= |list|
    ensures i + n <= |list|
    decreases |list| - i
  {
    if i == |list| then 0
    else if list[i].dueDate == expected then 1 + Run(list, prevs, i + 1, prevs[i])
    else 0
  }

  /**
   * The streak calculate_streak counts over the user's completions list,
   * newest due date first: none unless the first is due today or yesterday,
   * and then one for it and one for each completion that continues the
   * chain of previous due dates.
   */
  function StreakFrom(task: Task, list: seq<Completion>, today: Date): (n: nat)
    requires TaskValid(task) && Valid(today) && DatesValid(list)
    ensures n <= |list|
  {
    if list == [] then 0
    else if list[0].dueDate == today || list[0].dueDate == SubDays(today, 1) then
      var prevs := PreviousDues(task, list);
      1 + Run(list, prevs, 1, prevs[0])
    else 0
  }

  /** The loop of calculate_streak over the completions, newest due date first. */
  method StreakWalk(task: Task, list: seq<Completion>, today: Date) returns (streak: int)
    requires TaskValid(task) && Valid(today) && DatesValid(list)
    ensures streak == StreakFrom(task, list, today)
    ensures 0 <= streak <= |list|
    ensures streak > 0 ==> list[0].dueDate == today || list[0].dueDate == SubDays(today, 1)
    ensures StrictlyOlder(list, streak)
  {
    ghost var prevs := PreviousDues(task, list);
    streak := 0;
    var expected := today;
    var i := 0;
    while i < |list|
      invariant 0 <= i <= |list| && streak == i
      invariant Valid(expected)
      invariant i == 0 ==> expected == today
      invariant i > 0 ==> list[0].dueDate == today || list[0].dueDate == SubDays(today, 1)
      invariant i > 0 ==> expected == prevs[i - 1]
      invariant i > 0 ==> Run(list, prevs, 1, prevs[0]) == i - 1 + Run(list, prevs, i, expected)
    {
      if list[i].dueDate == expected || (list[i].dueDate == SubDays(expected, 1) && streak == 0) {
        streak := streak + 1;
        expected := EarlierDueDate(task, list[i].dueDate);
        i := i + 1;
      } else {
        break;
      }
    }
    StreakOrder(task, list, today);
  }

  /** A streak that counts anything starts today or yesterday and runs over strictly older due dates. */
  lemma StreakOrder(task: Task, list: seq<Completion>, today: Date)
    requires TaskValid(task) && Valid(today) && DatesValid(list)
    ensures var n := StreakFrom(task, list, today);
      (n > 0 ==> list[0].dueDate == today || list[0].dueDate == SubDays(today, 1))
      && StrictlyOlder(list, n)
  {
    var n := StreakFrom(task, list, today);
    if n > 0 {
      var prevs := PreviousDues(task, list);
      PreviousDuesEarlier(task, list);
      RunOlder(list, prevs, 1, prevs[0]);
      DescendingIsOlder(list, n);
    }
  }

  /**
   * The completions a run counts from position i on are each due strictly
   * before the one ahead of them.
   */
  lemma {:induction false} RunOlder(list: seq<Completion>, prevs: seq<Date>, i: nat, expected: Date)
    requires |prevs| == |list| && i <= |list| && Earlier(list, prevs)
    requires i > 0 ==> LexLess(expected, list[i - 1].dueDate)
    requires Descending(list, i)
    ensures Descending(list, i + Run(list, prevs, i, expected))
    decreases |list| - i
  {
    if i < |list| && list[i].dueDate == expected {
      assert Descending(list, i + 1);
      RunOlder(list, prevs, i + 1, prevs[i]);
    }
  }

  /**
   * A Daily task completed on each of the n days up to today, or up to
   * yesterday, newest first, has a streak of n.
   */
  lemma DailyStreak(task: Task, list: seq<Completion>, today: Date, late: nat)
    requires TaskValid(task) && task.recurrenceType == Daily && Valid(today) && late <= 1
    requires DatesValid(list)
    requires forall j :: 0 <= j < |list| ==> list[j].dueDate == SubDays(today, j + late)
    ensures StreakFrom(task, list, today) == |list|
  {
    if list != [] {
      AddDaysAdd(today, 0, -1);
      if late == 1 {
        assert list[0].dueDate == SubDays(today, 1);
      }
      var prevs := PreviousDues(task, list);
      DailyChained(task, list, today, late, 0);
      ChainRun(list, prevs, 1, prevs[0]);
    }
  }

  /** From position i on, each completion is due on the date prevs holds for the one before it. */
  predicate Chained(list: seq<Completion>, prevs: seq<Date>, i: nat)
    requires |prevs| == |list| && i <= |list|
    decreases |list| - i
  {
    i + 1 >= |list| || (list[i + 1].dueDate == prevs[i] && Chained(list, prevs, i + 1))
  }

  /** Consecutive days, newest first, form a chain of a Daily task. */
  lemma {:induction false} DailyChained(task: Task, list: seq<Completion>, today: Date, late: nat, i: nat)
    requires TaskValid(task) && task.recurrenceType == Daily && Valid(today) && i <= |list|
    requires DatesValid(list)
    requires forall j :: 0 <= j < |list| ==> list[j].dueDate == SubDays(today, j + late)
    ensures Chained(list, PreviousDues(task, list), i)
    decreases |list| - i
  {
    if i + 1 < |list| {
      DailyStep(task, list, today, late, i);
      assert list[i + 1].dueDate == SubDays(today, i + 1 + late);
      DailyChained(task, list, today, late, i + 1);
    }
  }

  /**
   * A chain of completions whose first is due on the expected date is
   * counted in full.
   */
  lemma {:induction false} ChainRun(list: seq<Completion>, prevs: seq<Date>, i: nat, expected: Date)
    requires |prevs| == |list| && i <= |list|
    requires i < |list| ==> list[i].dueDate == expected
    requires Chained(list, prevs, i)
    ensures Run(list, prevs, i, expected) == |list| - i
    decreases |list| - i
  {
    if i < |list| {
      ChainRun(list, prevs, i + 1, prevs[i]);
    }
  }

  /** The previous due date of a Daily completion is the next day back. */
  lemma DailyStep(task: Task, list: seq<Completion>, today: Date, late: nat, i: nat)
    requires TaskValid(task) && task.recurrenceType == Daily && Valid(today) && i < |list|
    requires DatesValid(list)
    requires forall j :: 0 <= j < |list| ==> list[j].dueDate == SubDays(today, j + late)
    ensures PreviousDues(task, list)[i] == SubDays(today, i + 1 + late)
  {
    var d := list[i].dueDate;
    assert PreviousDue(task, d) == AddDays(d, -1);
    OrdInjective(PreviousDue(task, d), SubDays(today, i + 1 + late));
  }

  /**
   * complete_task as the service runs it: the completion is recorded
   * (TaskService.CompleteTask); then the user's streak over the new ledger
   * is calculated, award_task_completion_points settles the task's reward,
   * TaskComplete and Streak values on the member's balance, and
   * assign_task_completion_rewards hands out the task's linked rewards,
   * rewardIds being their fresh row ids. Whatever those two calls report
   * is discarded, as the source does with .ok().
   */
  method CompleteTaskAndAward(svc: TaskService, points: Households.HouseholdStore,
                              rewards: Rewards.RewardStore, conditions: seq<Points.PointCondition>,
                              links: seq<TaskConsequences.TaskLink>, householdId: Uuid,
                              taskId: Uuid, userId: Uuid, today: Date, now: Instant, newId: Uuid,
                              rewardIds: seq<Uuid>)
    returns (res: Result<Completion, TaskError>)
    requires svc.Valid() && Dates.Valid(today) && rewards.Valid()
    requires forall i :: 0 <= i < |svc.completions| ==> svc.completions[i].id != newId
    requires taskId in svc.tasks ==> TaskValid(svc.tasks[taskId])
    requires Assignments.FreshIds(rewards.userRewards, rewardIds)
    requires |rewardIds| == |TaskConsequences.LinkedIds(links, TaskConsequences.RewardNames(rewards.rewards), taskId)|
    modifies svc, points, rewards
    ensures svc.Valid() && svc.tasks == old(svc.tasks)
    ensures rewards.Valid() && rewards.rewards == old(rewards.rewards)
    ensures points.households == old(points.households)
    ensures taskId !in svc.tasks ==> res == Err(NotFound) && svc.completions == old(svc.completions)
    ensures taskId in svc.tasks ==>
      match CompletionGate(svc.tasks[taskId], old(svc.completions), userId, today)
      case Err(e) => res == Err(e) && svc.completions == old(svc.completions)
      case Ok(status) =>
        res == Ok(Completion(newId, taskId, userId, now, today, status))
        && svc.completions == old(svc.completions) + [res.value]
    ensures res.Err? ==> points.members == old(points.members) && rewards.userRewards == old(rewards.userRewards)
    ensures res.Ok? ==>
      points.members == Awarded(old(points.members), conditions, svc.tasks, householdId, userId, taskId,
                                Streak(svc.tasks[taskId], userId, svc.completions, today))
    ensures res.Ok? ==>
      rewards.userRewards
      == Assignments.AssignEach(old(rewards.userRewards),
                                TaskConsequences.LinkedIds(links, TaskConsequences.RewardNames(rewards.rewards), taskId),
                                userId, householdId, now, rewardIds).0
  {
    res := svc.CompleteTask(taskId, userId, today, now, newId);
    if res.Err? {
      return;
    }
    ghost var ts, cs := svc.tasks, svc.completions;
    AwardCompletion(points, rewards, conditions, links, svc.tasks, svc.completions, householdId,
                    taskId, userId, today, now, rewardIds);
    assert svc.tasks == ts && svc.completions == cs;
  }

  /**
   * The balances after award_task_completion_points for a completion of
   * taskId at the given streak: the task's reward plus the TaskComplete and
   * Streak values, added to the member's row when the total is not zero.
   */
  function Awarded(ms: seq<Households.Membership>, conditions: seq<Points.PointCondition>,
                   tasks: map<Uuid, Task>, householdId: Uuid, userId: Uuid, taskId: Uuid, streak: int)
    : seq<Households.Membership>
  {
    var total := Points.RewardOf(tasks, taskId) + Points.SumAward(conditions, taskId, streak);
    if total == 0 then ms else Households.AddPoints(ms, householdId, userId, total)
  }

  lemma AwardedByTotal(ms: seq<Households.Membership>, conditions: seq<Points.PointCondition>,
                       tasks: map<Uuid, Task>, householdId: Uuid, userId: Uuid, taskId: Uuid, streak: int)
    ensures var total := Points.RewardOf(tasks, taskId) + Points.SumAward(conditions, taskId, streak);
      (total == 0 ==> Awarded(ms, conditions, tasks, householdId, userId, taskId, streak) == ms)
      && (total != 0 ==> Awarded(ms, conditions, tasks, householdId, userId, taskId, streak)
                         == Households.AddPoints(ms, householdId, userId, total))
  {
  }

  /** award_task_completion_points as complete_task calls it, its report discarded. */
  method AwardPoints(points: Households.HouseholdStore, conditions: seq<Points.PointCondition>,
                     tasks: map<Uuid, Task>, householdId: Uuid, userId: Uuid, taskId: Uuid, streak: int)
    modifies points
    ensures points.households == old(points.households)
    ensures points.members == Awarded(old(points.members), conditions, tasks, householdId, userId, taskId, streak)
  {
    var awarded := Points.AwardTaskCompletionPoints(points, conditions, tasks, householdId, userId, taskId, streak);
    AwardedByTotal(old(points.members), conditions, tasks, householdId, userId, taskId, streak);
  }

  /**
   * The consequences complete_task runs once the completion cs ends with
   * is recorded: the streak over cs, the points award for it and the
   * task's linked rewards; what the calls report is discarded.
   */
  method AwardCompletion(points: Households.HouseholdStore, rewards: Rewards.RewardStore,
                         conditions: seq<Points.PointCondition>, links: seq<TaskConsequences.TaskLink>,
                         tasks: map<Uuid, Task>, cs: seq<Completion>, householdId: Uuid,
                         taskId: Uuid, userId: Uuid, today: Date, now: Instant, rewardIds: seq<Uuid>)
    requires taskId in tasks && TaskValid(tasks[taskId]) && tasks[taskId].id == taskId && Dates.Valid(today)
    requires forall i :: 0 <= i < |cs| ==> Dates.Valid(cs[i].dueDate)
    requires rewards.Valid() && Assignments.FreshIds(rewards.userRewards, rewardIds)
    requires |rewardIds| == |TaskConsequences.LinkedIds(links, TaskConsequences.RewardNames(rewards.rewards), taskId)|
    modifies points, rewards
    ensures rewards.Valid() && rewards.rewards == old(rewards.rewards)
    ensures points.households == old(points.households)
    ensures points.members
      == Awarded(old(points.members), conditions, tasks, householdId, userId, taskId, Streak(tasks[taskId], userId, cs, today))
    ensures rewards.userRewards
      == Assignments.AssignEach(old(rewards.userRewards),
                                TaskConsequences.LinkedIds(links, TaskConsequences.RewardNames(rewards.rewards), taskId),
                                userId, householdId, now, rewardIds).0
  {
    var streak := CalculateStreak(tasks[taskId], userId, cs, today);
    AwardPoints(points, conditions, tasks, householdId, userId, taskId, streak);
    ghost var members1 := points.members;
    var given := TaskConsequences.AssignTaskCompletionRewards(rewards, links, taskId, userId, householdId, now, rewardIds);
    assert points.members == members1;
    assert streak == Streak(tasks[taskId], userId, cs, today);
  }

  /**
   * reject_completion as the service runs it: a pending completion is
   * deleted and returned (TaskService.RejectCompletion), and
   * reverse_task_completion_points takes the task's reward and TaskComplete
   * values back off the completing user's balance; what that call reports
   * is discarded, as the source does with .ok().
   */
  method RejectCompletionAndReverse(svc: TaskService, points: Households.HouseholdStore,
                                    conditions: seq<Points.PointCondition>, householdId: Uuid, id: Uuid)
    returns (res: Result<Completion, TaskError>)
    requires svc.Valid()
    modifies svc, points
    ensures svc.Valid() && svc.tasks == old(svc.tasks)
    ensures points.households == old(points.households)
    ensures match FindCompletion(old(svc.completions), id)
      case None => res == Err(NotFound) && svc.completions == old(svc.completions)
      case Some(i) =>
        if old(svc.completions)[i].status == Pending then
          res == Ok(old(svc.completions)[i]) && svc.completions == RemoveAt(old(svc.completions), i)
        else res == Err(NotFound) && svc.completions == old(svc.completions)
    ensures res.Err? ==> points.members == old(points.members)
    ensures res.Ok? ==>
      var total := Points.RewardOf(svc.tasks, res.value.taskId) + Points.SumBase(conditions, res.value.taskId);
      points.members == if total == 0 then old(points.members)
                        else Households.AddPoints(old(points.members), householdId, res.value.userId, -total)
  {
    res := svc.RejectCompletion(id);
    if res.Err? {
      return;
    }
    var reversed := Points.ReverseTaskCompletionPoints(points, conditions, svc.tasks, householdId,
                                                       res.value.userId, res.value.taskId);
  }
}
