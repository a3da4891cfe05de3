/**
 * The permission and suggestion decisions of the task endpoints. Before
 * a task is created or updated the handler weighs the caller's role, the
 * household's hierarchy, Solo Mode and the suggestion switch; this module
 * states those guard chains as functions whose result says whether the
 * request is refused, and if not, what request reaches the task service.
 */
module TaskHandlers {
  import opened Wrappers
  import opened Dates
  import opened Types
  import opened Households
  import opened Tasks
  import opened SoloMode

  // ---------------------------------------------------------------------
  // Solo Mode's one allowed update

  /** The task has no schedule yet: a one-time task without a recurrence value. */
  predicate Unscheduled(task: Task)
  {
    task.recurrenceType == OneTime && task.recurrenceValue.None?
  }

  /** The request touches no field but the recurrence type and value. */
  predicate OnlyRecurrence(req: UpdateTaskRequest)
  {
    req.title.None? && req.description.None? && req.assignedUserId.None?
    && req.targetCount.None? && req.timePeriod.None? && req.allowExceedTarget.None?
    && req.requiresReview.None? && req.pointsReward.None? && req.pointsPenalty.None?
    && req.dueTime.None? && req.habitType.None? && req.categoryId.None?
    && req.archived.None? && req.paused.None?
  }

  /**
   * is_solo_mode_set_date_request: the task is unscheduled and the request
   * gives it custom dates and changes nothing else.
   */
  predicate IsSoloModeSetDateRequest(req: UpdateTaskRequest, task: Task)
  {
    Unscheduled(task)
    && req.recurrenceType == Some(Custom)
    && req.recurrenceValue.Some? && req.recurrenceValue.value.CustomDatesValue?
    && OnlyRecurrence(req)
  }

  /**
   * What a set-date request does to the task: it becomes a custom-dated
   * task and keeps everything else. So it can be applied once only.
   */
  lemma SetDateOnlySchedules(req: UpdateTaskRequest, task: Task, now: Instant)
    requires IsSoloModeSetDateRequest(req, task)
    ensures MergeUpdate(task, req, now)
      == task.(recurrenceType := Custom, recurrenceValue := req.recurrenceValue, updatedAt := now)
    ensures !IsSoloModeSetDateRequest(req, MergeUpdate(task, req, now))
  {
  }

  /** A request changing any other field, or a task that already has a schedule, is not a set-date request. */
  lemma SetDateRequestRules(req: UpdateTaskRequest, task: Task)
    ensures !Unscheduled(task) ==> !IsSoloModeSetDateRequest(req, task)
    ensures req.title.Some? || req.pointsReward.Some? || req.assignedUserId.Some? || req.paused.Some?
      ==> !IsSoloModeSetDateRequest(req, task)
    ensures req.recurrenceType != Some(Custom) ==> !IsSoloModeSetDateRequest(req, task)
    ensures Unscheduled(task) && OnlyRecurrence(req) && req.recurrenceType == Some(Custom) ==>
      (IsSoloModeSetDateRequest(req, task) <==> req.recurrenceValue.Some? && req.recurrenceValue.value.CustomDatesValue?)
  {
  }

  // ---------------------------------------------------------------------
  // Creating a task

  datatype Refusal =
    | NoPermission        // 403: may not create or update tasks
    | SuggestionsDisabled // 403: suggestions are switched off
    | SoloSetDateOnly     // 403: Solo Mode allows only setting a date
    | TaskNotFound        // 404
    | EmptyTitle          // 400
    | AssigneeNotMember   // 400: in Hierarchy mode only Members are assigned
    | UpdateFailed        // 500: the service failed, for instance on an unknown task id

  /** The outcome of a create request: refused, or the request and suggester handed to the service. */
  datatype CreateOutcome =
    | CreateRefused(refusal: Refusal)
    | CreateAccepted(request: CreateTaskRequest, suggestedBy: Option<Uuid>, autoApprove: bool)

  /** Whether the caller (with role role, None for a non-member) may manage tasks. */
  predicate CallerCanManage(role: Option<Role>, settings: Settings)
  {
    role.Some? && CanManageInContext(role.value, settings)
  }

  /** In Hierarchy mode an assignee must be a Member; other modes accept anybody. */
  predicate AssigneeAllowed(settings: Settings, assigneeRole: Option<Role>)
  {
    settings.hierarchyType != Hierarchy
    || (assigneeRole.Some? && settings.hierarchyType.CanBeAssigned(assigneeRole.value))
  }

  /**
   * The guard chain of create_task. members gives both the caller's role
   * and the role of a requested assignee.
   */
  function CreatePlan(settings: Settings, members: seq<Membership>, householdId: Uuid, userId: Uuid,
                      req: CreateTaskRequest): (r: CreateOutcome)
    ensures var canManage := CallerCanManage(GetMemberRole(members, householdId, userId), settings);
      var isSuggestion := req.isSuggestion.UnwrapOr(false);
      && (r == CreateRefused(NoPermission) <==> !settings.soloMode && !canManage && !isSuggestion)
      && (r == CreateRefused(SuggestionsDisabled) <==>
            !settings.soloMode && !canManage && isSuggestion && !settings.allowTaskSuggestions)
      && (r.CreateAccepted? ==> req.title != [])
      && (r.CreateAccepted? ==> (r.suggestedBy.Some? <==> settings.soloMode || (isSuggestion && !canManage)))
      && (r.CreateAccepted? && r.suggestedBy.Some? ==> r.suggestedBy.value == userId)
      && (r.CreateAccepted? ==> (r.autoApprove <==> settings.soloMode))
    ensures r.CreateAccepted? && settings.soloMode ==>
      r.request == req.(pointsReward := settings.defaultPointsReward, pointsPenalty := settings.defaultPointsPenalty)
    ensures r.CreateAccepted? && !settings.soloMode ==> r.request == req
    ensures r.CreateAccepted? && req.assignedUserId.Some? ==>
      AssigneeAllowed(settings, GetMemberRole(members, householdId, req.assignedUserId.value))
  {
    var canManage := CallerCanManage(GetMemberRole(members, householdId, userId), settings);
    var isSuggestion := req.isSuggestion.UnwrapOr(false);
    var request :=
      if settings.soloMode
      then req.(pointsReward := settings.defaultPointsReward, pointsPenalty := settings.defaultPointsPenalty)
      else req;
    if !canManage && !isSuggestion && !settings.soloMode then CreateRefused(NoPermission)
    else if !canManage && isSuggestion && !settings.allowTaskSuggestions && !settings.soloMode
    then CreateRefused(SuggestionsDisabled)
    else if request.title == [] then CreateRefused(EmptyTitle)
    else if request.assignedUserId.Some?
      && !AssigneeAllowed(settings, GetMemberRole(members, householdId, request.assignedUserId.value))
    then CreateRefused(AssigneeNotMember)
    else
      var suggestedBy := if settings.soloMode || (isSuggestion && !canManage) then Some(userId) else None;
      CreateAccepted(request, suggestedBy, settings.soloMode)
  }

  /**
   * A manager outside Solo Mode creates a normal task whatever the
   * suggestion flag says; in Solo Mode everybody, member or not, creates
   * an auto-approved suggestion.
   */
  lemma CreateByWho(settings: Settings, members: seq<Membership>, householdId: Uuid, userId: Uuid,
                    req: CreateTaskRequest)
    requires req.title != [] && req.assignedUserId.None?
    ensures var r := CreatePlan(settings, members, householdId, userId, req);
      var role := GetMemberRole(members, householdId, userId);
      && (!settings.soloMode && CallerCanManage(role, settings) ==> r == CreateAccepted(req, None, false))
      && (settings.soloMode ==> r.CreateAccepted? && r.suggestedBy == Some(userId) && r.autoApprove)
      && (!settings.soloMode && !CallerCanManage(role, settings) ==>
            (r.CreateAccepted? <==> req.isSuggestion == Some(true) && settings.allowTaskSuggestions))
  {
  }

  // ---------------------------------------------------------------------
  // Updating a task

  datatype UpdateOutcome =
    | UpdateRefused(refusal: Refusal)
    | UpdateAccepted

  /** Whether the request moves the task to a different assignee (is_changing). */
  predicate AssignmentChanges(req: UpdateTaskRequest, oldTask: Option<Task>)
    requires req.assignedUserId.Some?
  {
    oldTask.None? || oldTask.value.assignedUserId.None?
    || oldTask.value.assignedUserId.value != req.assignedUserId.value
  }

  /**
   * The guard chain of update_task. oldTask is the stored task, None when
   * the id is unknown; the service then reports the missing task itself.
   */
  function UpdatePlan(settings: Settings, members: seq<Membership>, householdId: Uuid, userId: Uuid,
                      req: UpdateTaskRequest, oldTask: Option<Task>): (r: UpdateOutcome)
    ensures var canManage := CallerCanManage(GetMemberRole(members, householdId, userId), settings);
      && (settings.soloMode ==> !canManage)
      && (settings.soloMode && oldTask.None? ==> r == UpdateRefused(TaskNotFound))
      && (settings.soloMode && oldTask.Some? && !IsSoloModeSetDateRequest(req, oldTask.value) ==>
            r == UpdateRefused(SoloSetDateOnly))
      && (!settings.soloMode && !canManage ==> r == UpdateRefused(NoPermission))
      && (r.UpdateAccepted? ==> canManage || (oldTask.Some? && IsSoloModeSetDateRequest(req, oldTask.value)))
    ensures r.UpdateAccepted? && req.assignedUserId.Some? && AssignmentChanges(req, oldTask) ==>
      AssigneeAllowed(settings, GetMemberRole(members, householdId, req.assignedUserId.value))
  {
    var canManage := CallerCanManage(GetMemberRole(members, householdId, userId), settings);
    if settings.soloMode && !canManage && oldTask.None? then UpdateRefused(TaskNotFound)
    else if settings.soloMode && !canManage && !IsSoloModeSetDateRequest(req, oldTask.value)
    then UpdateRefused(SoloSetDateOnly)
    else if !settings.soloMode && !canManage then UpdateRefused(NoPermission)
    else if req.assignedUserId.Some? && AssignmentChanges(req, oldTask)
      && !AssigneeAllowed(settings, GetMemberRole(members, householdId, req.assignedUserId.value))
    then UpdateRefused(AssigneeNotMember)
    else UpdateAccepted
  }

  /**
   * Re-sending a task's current assignee never runs the Hierarchy check:
   * a request that keeps the assignment is judged as if it named none.
   */
  lemma UnchangedAssigneeNotChecked(settings: Settings, members: seq<Membership>, householdId: Uuid,
                                    userId: Uuid, req: UpdateTaskRequest, task: Task)
    requires req.assignedUserId.Some? && task.assignedUserId == req.assignedUserId
    ensures UpdatePlan(settings, members, householdId, userId, req, Some(task))
      != UpdateRefused(AssigneeNotMember)
  {
  }

  /**
   * update_task end to end: the guard chain, then the service. In Solo
   * Mode an accepted update only ever schedules an unscheduled task.
   */
  method HandleUpdateTask(store: TaskService, settings: Settings, members: seq<Membership>, householdId: Uuid,
                          userId: Uuid, taskId: Uuid, req: UpdateTaskRequest, now: Instant)
    returns (res: Result<Task, Refusal>)
    requires store.Valid()
    modifies store
    ensures store.Valid() && store.completions == old(store.completions)
    ensures var oldTask := if taskId in old(store.tasks) then Some(old(store.tasks)[taskId]) else None;
      match UpdatePlan(settings, members, householdId, userId, req, oldTask)
      case UpdateRefused(refusal) => res == Err(refusal) && store.tasks == old(store.tasks)
      case UpdateAccepted =>
        (taskId !in old(store.tasks) ==> res == Err(UpdateFailed) && store.tasks == old(store.tasks))
        && (taskId in old(store.tasks) ==>
              res == Ok(MergeUpdate(old(store.tasks)[taskId], req, now))
              && store.tasks == old(store.tasks)[taskId := res.value])
    ensures settings.soloMode && res.Ok? ==>
      res.value == old(store.tasks)[taskId].(recurrenceType := Custom, recurrenceValue := req.recurrenceValue,
                                             updatedAt := now)
  {
    var oldTask := if taskId in store.tasks then Some(store.tasks[taskId]) else None;
    var plan := UpdatePlan(settings, members, householdId, userId, req, oldTask);
    if plan.UpdateRefused? {
      return Err(plan.refusal);
    }
    var updated := store.UpdateTask(taskId, req, now);
    if updated.Err? {
      return Err(UpdateFailed);
    }
    if settings.soloMode {
      SetDateOnlySchedules(req, oldTask.value, now);
    }
    res := Ok(updated.value);
  }
}
