# Haushalt, modelled in Dafny

Haushalt is a household task manager. Members of a household share
tasks, and each task has a recurrence: one-time, daily, weekly, monthly,
on chosen weekdays, or on a list of custom dates. Members complete tasks
within periods and collect points, rewards and punishments. A background
job penalises missed tasks, and a solo mode lets one person run the
household alone for a while. Around this engine are notes, a journal,
announcements, task categories, user settings and a household chat,
served over HTTP and a WebSocket. The web client groups tasks by due
date, shows period results as a habit tracker and keeps a WebSocket
connection that reconnects with backoff.

The model works at the level of the services the program calls.

- Database tables are fields of a class: a `seq` of rows, or a `map` keyed
  by the row key. Each service function is a `method` of that class, with
  a `modifies` clause and an `ensures` giving the whole new table as a
  function of the old one.
- Only the classes whose table has an invariant also have a `Valid()`
  predicate, and every method keeps it:
  - unique ids: `AnnouncementStore`, `ChatStore`, `JournalStore` and
    `NoteStore`;
  - unique ids and names: `CategoryStore`;
  - unique row ids and one row per (user, item, household):
    `PunishmentStore` and `RewardStore`;
  - unique (task, period) keys: `PeriodResultTable`;
  - rows keyed by their own id, unique completion ids and valid due dates:
    `TaskService`;
  - rows keyed by their user and with a supported language:
    `UserSettingsStore`;
  - rooms that hold exactly the sessions of their household: `WsManager`.
- `HouseholdStore`, `InvitationStore`, `SettingsStore`, `LinkTable` and
  `RateLimiter` have no `Valid()`. Neither do the web client's `Picker`,
  `RecurrenceFields` and `Client`.
- Queries and decisions are functions. Their contracts are stated
  together with lemmas that relate them to each other: round trips,
  agreement between two definitions, and invariants kept.
- The current date, the current instant, freshly generated ids and the
  random pick are parameters of the operations that use them.

One module per source file:

| module | source |
|---|---|
| `Dates`, `Text`, `Query`, `Wrappers` | the calendar, string helpers, filtering, sorting and counting the other modules share (chrono, `str`, SQL `WHERE`/`ORDER BY`) |
| `Types` | shared/src/types.rs |
| `Scheduler` | backend/src/services/scheduler.rs |
| `Statistics` | backend/src/services/statistics.rs |
| `PeriodResults` | backend/src/services/period_results.rs |
| `Tasks` | backend/src/services/tasks.rs |
| `BackgroundJobs` | backend/src/services/background_jobs.rs |
| `Points` | backend/src/services/points.rs |
| `Assignments` | the user_rewards and user_punishments rows shared by rewards.rs, punishments.rs and task_consequences.rs |
| `Rewards` | backend/src/services/rewards.rs |
| `Punishments` | backend/src/services/punishments.rs |
| `TaskConsequences` | backend/src/services/task_consequences.rs |
| `Invitations` | backend/src/services/invitations.rs |
| `Households` | backend/src/services/households.rs |
| `HouseholdHandlers` | the guards of backend/src/handlers/households.rs |
| `TaskHandlers` | the guards of backend/src/handlers/tasks.rs |
| `SoloMode` | backend/src/services/solo_mode.rs and the settings row of backend/src/services/household_settings.rs |
| `Chat`, `Notes`, `Journal`, `Announcements`, `TaskCategories`, `UserSettings` | the services of the same names |
| `RateLimit` | backend/src/middleware/rate_limit.rs |
| `WebSocket` | backend/src/services/websocket.rs |
| `Config` | backend/src/config.rs |
| `TaskCard`, `PeriodTracker`, `CalendarPicker`, `TaskFields` | the frontend components of the same names |
| `WsClient` | frontend/src/api/websocket.rs |

Some behaviours of the code are modelled as written even where a reader
might expect otherwise:

- `update_settings` calls `get_or_create_settings` before it validates
  the language. An invalid language is therefore refused only after the
  default row has been written, not before anything is written
  (`UserSettings.UserSettingsStore.UpdateSettings`).
- `unassign_reward` and `unassign_punishment` look only at the amount
  and not at the redeemed, completed or pending counters
  (`Assignments.UnassignIgnoresDone`).
- `remove_punishment_option` counts option rows, so a RandomChoice
  punishment that lists one id twice can be cut down to a single option
  (`Punishments.RemoveDuplicateOptionLeavesOne`).
- Creating a RandomChoice punishment stores the punishment and the
  options accepted so far before it reports OptionNotFound, because
  nothing runs in a transaction.
- `get_period_bounds` puts both Weekly and Weekdays tasks into
  Monday-to-Sunday weeks.
- `disconnect` on the web client is followed by the socket's close
  event. With the counter at its maximum, that event ends the client in
  Error rather than Disconnected (`WsClient.DisconnectStopsReconnect`).

## Model

| member | source | states |
|---|---|---|
| Types.ParseRole | shared/src/types.rs:269-280 | a text parses to a role exactly when its lower-case form is that role's name |
| Types.RoleRoundTrip | shared/src/types.rs:239-280 | parsing a role's name gives the role back |
| Types.RolePermissions | shared/src/types.rs:248-266 | Owner and Admin manage members, tasks and rewards and Member does not; only Owner manages roles and deletes the household |
| Types.ParseHierarchy | shared/src/types.rs:117-128 | a text parses to a hierarchy type exactly when its lower-case form is that type's name |
| Types.HierarchyRoundTrip | shared/src/types.rs:89-128 | parsing a hierarchy type's name gives it back |
| Types.HierarchyRules | shared/src/types.rs:99-114 | under Equals every role manages; otherwise only Owner and Admin do; only Hierarchy restricts assignment, to Member |
| Types.ParseRecurrence | shared/src/types.rs:382-396 | a text parses to a recurrence type exactly when its lower-case form is that type's name, and "none" also gives OneTime |
| Types.RecurrenceRoundTrip | shared/src/types.rs:369-396 | parsing a recurrence type's name gives it back |
| Types.RecurrenceCaseInsensitive | shared/src/types.rs:385-396 | parsing ignores letter case |
| Types.ParseTimePeriod | shared/src/types.rs:434-446 | a text parses to a time period exactly when its lower-case form is that period's name |
| Types.TimePeriodRoundTrip | shared/src/types.rs:422-446 | parsing a period's name gives it back |
| Types.ParseHabit | shared/src/types.rs:474-485 | a text parses to a habit type exactly when its lower-case form is that type's name |
| Types.HabitRoundTrip | shared/src/types.rs:460-485 | parsing a habit type's name gives it back |
| Types.HabitCaseInsensitive | shared/src/types.rs:477-485 | parsing ignores letter case |
| Types.ParsePeriodStatus | shared/src/types.rs:1185-1196 | a text parses to a period status exactly when its lower-case form is that status's name |
| Types.PeriodStatusRoundTrip | shared/src/types.rs:1175-1196 | parsing a status's name gives it back |
| Types.PeriodStatusCaseInsensitive | shared/src/types.rs:1188-1196 | parsing ignores letter case |
| Types.Remaining | shared/src/types.rs:686-688 | never negative; zero exactly when the completions reach the target; otherwise completions plus remaining equal the target |
| Types.TargetRules | shared/src/types.rs:681-696 | a zero target is never met; a positive one is met iff nothing remains; an unassigned user cannot complete; an assigned user can while the target is not met, and afterwards only when exceeding is allowed |
| Types.KelvinWeekly | shared/src/types.rs:386 | the Kelvin sign lower-cases to k as in Rust, so "WEE\u{212A}LY" parses as Weekly |
| Types.KelvinWeek | shared/src/types.rs:438 | "WEE\u{212A}" parses as Week |
| Types.KelvinSkipped | shared/src/types.rs:1185-1196 | "S\u{212A}IPPED" parses as Skipped |
| Scheduler.WeekdayU8RoundTrip | backend/src/services/scheduler.rs:265-288 | weekday_from_u8 and weekday_to_u8 are inverse on 0..6, every other number maps to Monday, and the number of a weekday is its distance from Sunday |
| Scheduler.LastDayOfMonth | backend/src/services/scheduler.rs:290-301 | the last day lies in 28..31 and is the month's length: that day is a date of the month and the next one is not |
| Scheduler.LastDayExamples | backend/src/services/scheduler.rs:486-495 | February 2024 ends on the 29th, February 2023 on the 28th, December on the 31st |
| Scheduler.DueRules | backend/src/services/scheduler.rs:6-52 | OneTime and Daily are due every day; Weekly on its weekday (Monday for a number outside 0..6, every day without a weekday value); Monthly exactly on min(target day, month length); Weekdays iff the date's Sunday-based number is listed, Monday to Friday by default; Custom iff the date is listed, never without a list |
| Scheduler.MonthlyClipExamples | backend/src/services/scheduler.rs:24-34 | a day-31 Monthly task is due on 2024-02-29 and 2024-04-30 but not on 2024-02-28 or 2024-05-30 |
| Scheduler.LatestBefore | backend/src/services/scheduler.rs:104-116 | the result is a listed date before the given one and no listed date lies between them; None exactly when no listed date is earlier |
| Scheduler.EarliestFrom | backend/src/services/scheduler.rs:198-210 | the result is a listed date on or after the given one and no listed date lies between them; None exactly when every listed date is earlier |
| Scheduler.PreviousWeekdaysDate | backend/src/services/scheduler.rs:87-103 | the result lies 1..7 days back; when it is on a listed weekday no nearer day is; otherwise it is the day before and the list names no weekday |
| Scheduler.NextWeekdaysDate | backend/src/services/scheduler.rs:180-197 | the result lies 0..6 days ahead; when it is on a listed weekday no earlier day is; otherwise it is the start date and the list names no weekday |
| Scheduler.PreviousMonthly | backend/src/services/scheduler.rs:67-86 | a date in the previous month on min(target day, month length), the 1st without a target day |
| Scheduler.PreviousDueDate | backend/src/services/scheduler.rs:56-118 | always strictly earlier; d-1 for OneTime and Daily; d-7 on the same weekday for Weekly; the previous month's target day for Monthly; for Weekdays the nearest earlier listed weekday within 7 days, else d-1; for Custom the greatest listed date before d, else d-1 |
| Scheduler.NextWeekly | backend/src/services/scheduler.rs:131-151 | a date on the task's target weekday, as many days ahead (0 to 6) as the target's Sunday-based number lies after the start's, counted around the week |
| Scheduler.NextWeeklyFirst | backend/src/services/scheduler.rs:131-151 | the Weekly result is the first day on or after the start on which the task is due |
| Scheduler.NextMonthly | backend/src/services/scheduler.rs:152-179 | None exactly when there is no target day; otherwise a date on or after the start |
| Scheduler.NextMonthlyThisMonth | backend/src/services/scheduler.rs:152-167 | when this month's target day has not passed it is the first due day from the start |
| Scheduler.NextMonthlyNextMonth | backend/src/services/scheduler.rs:168-179 | when this month's target day has passed, next month's target day is the first due day from the start |
| Scheduler.NextMonthlyFirst | backend/src/services/scheduler.rs:152-179 | the Monthly result is the first due day on or after the start |
| Scheduler.CustomFirst | backend/src/services/scheduler.rs:198-210 | the least listed date on or after the start is the first due day from it |
| Scheduler.NextDueDate | backend/src/services/scheduler.rs:122-212 | None for OneTime; the start itself for Daily; for Weekly a day 0..6 ahead on the target weekday; for Monthly None iff no target day; for Custom None iff every listed date is past; whenever a date is returned (apart from Weekdays without a weekday) it is the first due day from the start |
| Scheduler.EffectivePeriod | backend/src/services/scheduler.rs:216-223 | the task's own period if set; otherwise Day for Daily, Week for Weekly and Weekdays alike, Month for Monthly, the whole time span for Custom and OneTime |
| Scheduler.PeriodBoundsProperties | backend/src/services/scheduler.rs:216-263 | start <= date <= end; Day gives (d, d); Week a Monday and the Sunday six days later around d; Month the 1st and last day of d's month; Year January 1st to December 31st; no period 1970-01-01 to 2100-12-31 |
| Scheduler.ParseHourMinute | backend/src/services/scheduler.rs:314-318 | a parsed "HH:MM" time has hour 0..23 and minute 0..59 |
| Scheduler.ParseFormatHourMinute | backend/src/services/scheduler.rs:314-318 | parsing a zero-padded "HH:MM" gives that time back |
| Scheduler.ParseDueTime | backend/src/services/scheduler.rs:314-318 | a missing or unreadable due time is 23:59 |
| Scheduler.OverdueRule | backend/src/services/scheduler.rs:324-343 | overdue iff the due date is before today, or it is today and the time of day is past the due time (23:59 when none is set); never before the due date |
| Scheduler.PreviousDue | backend/src/services/scheduler.rs:56-118 | the previous due date is always a valid date strictly before the given one |
| Scheduler.PreviousWeekly | backend/src/services/scheduler.rs:65 | the Weekly previous due date is exactly seven days back, on the same weekday |
| Scheduler.PreviousCustom | backend/src/services/scheduler.rs:104-116 | the greatest listed date before the given one when there is one, otherwise the day before |
| Statistics.TruncRem | backend/src/services/statistics.rs:25 | Rust's remainder: it agrees with the mathematical one on non-negative operands, lies strictly between -b and b, and takes the sign of the dividend |
| Statistics.WeekStart | backend/src/services/statistics.rs:21-27 | the date lies the truncated remainder of (weekday - start day + 7) by 7 days before the given one |
| Statistics.WeekStartProperties | backend/src/services/statistics.rs:21-27 | for a start day 0..6 the result is at most the date, fewer than 7 days earlier, and falls on that Monday-based weekday |
| Statistics.WeekStartOnStartDay | backend/src/services/statistics.rs:21-27 | a date on the start day is its own week start |
| Statistics.WeekEnd | backend/src/services/statistics.rs:30-32 | six days after the week start |
| Statistics.WeekContainsDate | backend/src/services/statistics.rs:21-32 | the date lies between its week's start and end |
| Statistics.MonthStart | backend/src/services/statistics.rs:35-37 | the 1st of the same month, day - 1 days earlier |
| Statistics.MonthEnd | backend/src/services/statistics.rs:40-47 | the last day of the same month |
| Statistics.BoundsExamples | backend/src/services/statistics.rs:35-47 | January and December end on the 31st, February 2024 on the 29th; January 15th's month starts on the 1st; the week of 2024-01-08 ends on the 14th |
| Statistics.Successful | backend/src/services/statistics.rs:131-136 | for a bad habit expected minus completed, for a good habit completed, always within 0..expected |
| Statistics.CompletedAtMostExpected | backend/src/services/statistics.rs:103-130 | a task's completed periods never outnumber its finalized periods |
| Statistics.TotalsBounded | backend/src/services/statistics.rs:138-139 | a member's total successful count lies within 0..total expected |
| Statistics.BreakdownLines | backend/src/services/statistics.rs:141-148 | every breakdown line comes from one of the member's tasks, has expected > 0 and completed within 0..expected |
| Statistics.BreakdownSums | backend/src/services/statistics.rs:138-148 | the breakdown's expected and completed columns sum to the member's totals |
| Statistics.AllStatsRows | backend/src/services/statistics.rs:84-93 | every statistics row belongs to a member with at least one assigned task, and its totals are bounded |
| Statistics.MemberWithTaskHasRow | backend/src/services/statistics.rs:84-93 | a member with an assigned task gets a row |
| Statistics.MemberTotals | backend/src/services/statistics.rs:95-149 | the per-task loop yields the sums of expected and successful counts and the breakdown of tasks with expected > 0 |
| Statistics.CalculateStatistics | backend/src/services/statistics.rs:84-150 | one row per member with assigned tasks, in member order, exactly the rows AllStats defines and AllStatsRows bounds |
| Statistics.CalculateWeeklyStatistics | backend/src/services/statistics.rs:50-225 | the statistics over the week from its start to six days later |
| Statistics.CalculateMonthlyStatistics | backend/src/services/statistics.rs:228-402 | the statistics over the month from its 1st to its last day |
| PeriodResults.Find | backend/src/services/period_results.rs:35-43 | the position of a row with the (task, period start) key; None exactly when no row has it |
| PeriodResults.FindUnique | backend/src/services/period_results.rs:35-43 | with unique keys the lookup finds the one row that has the key |
| PeriodResults.GetPeriodResult | backend/src/services/period_results.rs:110-125 | a stored row with the key; None exactly when no row has it |
| PeriodResults.IsPeriodFinalized | backend/src/services/period_results.rs:248-262 | true exactly when some row has (task, period start) |
| PeriodResults.FinalizedIffStored | backend/src/services/period_results.rs:248-262 | finalized exactly when the lookup finds a row |
| PeriodResults.ResultsForTask | backend/src/services/period_results.rs:128-148 | exactly the task's rows whose period start lies in the inclusive range, with every one of them counted, newest period first |
| PeriodResults.CountPeriodResults | backend/src/services/period_results.rs:160-201 | the numbers of Completed, Failed and Skipped rows of the task in the inclusive range |
| PeriodResults.CountsPartition | backend/src/services/period_results.rs:160-201 | the three counts add up to the number of rows in range |
| PeriodResults.Refinalized | backend/src/services/period_results.rs:45-63 | the update of an existing row keeps its id, task and period and takes the new status, counts, finalizer, notes and instant |
| PeriodResults.WithNewStatus | backend/src/services/period_results.rs:205-234 | the status update keeps id, task, period and counts and changes only status, finalized_at, finalized_by and notes |
| PeriodResults.PeriodResultTable.FinalizePeriod | backend/src/services/period_results.rs:21-105 | afterwards the key has exactly one row with the given values; an existing row is updated in place, otherwise one row with the fresh id is appended; other keys keep their rows |
| PeriodResults.PeriodResultTable.UpdatePeriodStatus | backend/src/services/period_results.rs:205-234 | NotFound with no change when no row exists; otherwise that row is restatused and other keys keep their rows |
| PeriodResults.RefinalizeExample | backend/src/services/period_results.rs:353-404 | finalizing a period twice leaves one row, carrying the second call's status |
| Tasks.NewTask | backend/src/services/tasks.rs:24-83 | the inserted task carries the request's fields, an empty description when none is given, a good habit, neither archived nor paused, created and updated now |
| Tasks.CreateDefaults | backend/src/services/tasks.rs:31-33 | a missing target count is 1, a missing exceed flag allows exceeding, a missing review flag needs no review; given values are taken as they are |
| Tasks.Pick | backend/src/services/tasks.rs:169-212 | a present request value replaces the stored one, a missing one keeps it |
| Tasks.MergeRules | backend/src/services/tasks.rs:169-212 | the merge keeps id, household, creation instant and the fields the update cannot touch, takes each present field, keeps each missing one, and an empty update only moves updated_at |
| Tasks.MergeIdempotent | backend/src/services/tasks.rs:169-212 | applying the same update twice is applying it once |
| Tasks.CompletionGate | backend/src/services/tasks.rs:284-334 | an accepted completion is Pending exactly when the task requires review; a refusal is AlreadyCompleted or NotDueToday |
| Tasks.GateRules | backend/src/services/tasks.rs:284-324 | OneTime is refused (AlreadyCompleted) exactly when the target is positive, exceeding is off and the user's all-time count reaches it; other tasks are refused NotDueToday exactly when not due, and AlreadyCompleted exactly when due, exceeding is off and the user's count in the current period reaches the target; with exceeding on a due task is always accepted |
| Tasks.Latest | backend/src/services/tasks.rs:383-393 | the position of a matching completion with the greatest completed_at; None exactly when none matches |
| Tasks.FindCompletion | backend/src/services/tasks.rs:519-531 | the position of the completion with the id; None exactly when there is none |
| Tasks.UserCompletions | backend/src/services/tasks.rs:671-678 | the user's completions of the task, every one of them |
| Tasks.TaskService.CreateTask | backend/src/services/tasks.rs:24-83 | the new task is stored under the fresh id; nothing else changes |
| Tasks.TaskService.UpdateTask | backend/src/services/tasks.rs:169-240 | NotFound with no change for an unknown task; otherwise the merged task is stored and returned |
| Tasks.TaskService.CompleteTask | backend/src/services/tasks.rs:273-370 | NotFound for an unknown task; a gate refusal changes nothing; otherwise one completion dated today with the gate's status is appended and returned |
| Tasks.TaskService.UncompleteTask | backend/src/services/tasks.rs:372-407 | NotCompleted with no change when the user has no completion in the current period; otherwise exactly the latest of those (by completed_at) is deleted |
| Tasks.TaskService.ApproveCompletion | backend/src/services/tasks.rs:533-552 | only a Pending completion becomes Approved; anything else is NotFound with no change |
| Tasks.TaskService.RejectCompletion | backend/src/services/tasks.rs:554-597 | only a Pending completion is deleted; anything else is NotFound with no change |
| Tasks.CalculateStreak | backend/src/services/tasks.rs:652-702 | exactly Streak of the ledger: 0 for a free-form OneTime task; the completion count for a OneTime task with a target; otherwise the walk over the user's completions; never more than the completions; a positive streak starts today or yesterday and runs over strictly older due dates |
| Tasks.EarlierDueDate | backend/src/services/tasks.rs:694 | the previous due date used by the walk is a date strictly before the current one |
| Tasks.StreakWalk | backend/src/services/tasks.rs:684-700 | the loop computes exactly StreakFrom of the list; the count is at most the list length, positive only when the newest completion is due today or yesterday, and covers completions with strictly decreasing due dates |
| Tasks.Run | backend/src/services/tasks.rs:687-696 | the completions counted after the first never run past the end of the list |
| Tasks.StreakFrom | backend/src/services/tasks.rs:684-700 | the streak never exceeds the number of completions |
| Tasks.PreviousDuesEarlier | backend/src/services/tasks.rs:694 | every previous due date the walk moves to is strictly before the completion it came from |
| Tasks.StreakOrder | backend/src/services/tasks.rs:684-700 | a positive streak starts with a completion due today or yesterday, and the counted completions have strictly decreasing due dates |
| Tasks.RunOlder | backend/src/services/tasks.rs:687-696 | each completion a run counts is due strictly before the one counted ahead of it |
| Tasks.DescendingIsOlder | backend/src/services/tasks.rs:671-678 | due dates that fall from each completion to the next fall across every pair |
| Tasks.DailyStreak | backend/src/services/tasks.rs:684-700 | a Daily task completed on each of n consecutive days up to today, or up to yesterday, newest first, has a streak of exactly n |
| Tasks.DailyChained | backend/src/services/scheduler.rs:63 | consecutive days back from today are each the previous Daily due date of the one before |
| Tasks.ChainRun | backend/src/services/tasks.rs:687-696 | a chain of due dates, each the previous due date of the one before, is counted in full |
| Tasks.DailyStep | backend/src/services/scheduler.rs:63 | the previous due date of a Daily completion n days back is the day n+1 days back |
| Tasks.AwardPoints | backend/src/services/tasks.rs:352-354 | award_task_completion_points moves the member's balance exactly as Awarded says, whatever it reports |
| Tasks.AwardCompletion | backend/src/services/tasks.rs:351-359 | after the completion is stored the balances are Awarded at the streak over the ledger, and the reward rows are the linked rewards assigned in turn |
| Tasks.CompleteTaskAndAward | backend/src/services/tasks.rs:273-370 | the same refusals as CompleteTask, changing nothing; on success the completion is appended, the member's balance is Awarded at the streak over the new ledger and the linked rewards are assigned; the tasks and households stay as they were |
| Tasks.RejectCompletionAndReverse | backend/src/services/tasks.rs:554-597 | only a Pending completion is deleted, anything else is NotFound changing nothing; on success the reward and TaskComplete base is taken off the completing user's balance when it is not zero |
| Tasks.AwardedByTotal | backend/src/services/tasks.rs:352-354 | a zero total leaves the balances, any other one is added to the member's row |
| BackgroundJobs.NextCheck | backend/src/services/background_jobs.rs:60-72 | a next check exists exactly for a valid hour and minute; it is strictly after now, at most one day away, and at the configured time of day |
| BackgroundJobs.NextCheckIsFirst | backend/src/services/background_jobs.rs:60-72 | no instant between now and the next check is at the configured time of day |
| BackgroundJobs.SleepReachesCheck | backend/src/services/background_jobs.rs:73-76 | the sleep is positive, at most a day, and ends exactly at the next check |
| BackgroundJobs.DefaultRunsAtTwo | backend/src/services/background_jobs.rs:40-47 | the default configuration schedules its check at 02:00 |
| BackgroundJobs.MissedAtMostChecked | backend/src/services/background_jobs.rs:223-252 | the missed tasks never outnumber the checked ones |
| BackgroundJobs.UserIdsOf | backend/src/services/background_jobs.rs:301-316 | one user id per membership, in order |
| BackgroundJobs.UsersToPenalize | backend/src/services/background_jobs.rs:254-258 | the assignee alone for an assigned task, otherwise exactly the household's members |
| BackgroundJobs.Abs | backend/src/services/background_jobs.rs:277 | the absolute value of the deduction |
| BackgroundJobs.PenalizeUsers | backend/src/services/background_jobs.rs:268-288 | every user loses the missed points in turn and receives each linked punishment; the totals are the user count times the absolute deduction and times the linked punishments; it fails exactly when some deduction lands on a non-member, and no other member row changes |
| BackgroundJobs.PenalizeUser | backend/src/services/background_jobs.rs:269-287 | the new balances are the deduction for that user, the new assignment rows that user's linked punishments, the results their absolute points and row count; it fails exactly when a non-zero deduction lands on a non-member; no other member row changes |
| BackgroundJobs.ProcessMissedTasksForDate | backend/src/services/background_jobs.rs:207-297 | tasks_checked counts the tasks, OneTime excluded, due on the date; missed_tasks those of them without a completion due that day; points_deducted and punishments_assigned are exactly the two totals over the missed tasks; the membership keys stay as they were |
| BackgroundJobs.ProcessMissedTasks | backend/src/services/background_jobs.rs:107-204 | the same report, with the same exact totals, for the day before today |
| BackgroundJobs.PenalizeTask | backend/src/services/background_jobs.rs:254-288 | the users to penalize of a missed task lose its points, with the streak counted as broken exactly when the task has any completion, and receive its punishments; the results are that task's two totals; it fails exactly when a deduction lands on a non-member |
| BackgroundJobs.Deducted | backend/src/services/background_jobs.rs:269-276 | one user's deduction keeps the set of membership keys |
| BackgroundJobs.DeductedEach | backend/src/services/background_jobs.rs:268-288 | the deductions for all users keep the set of membership keys |
| BackgroundJobs.DeductedEachOthers | backend/src/services/background_jobs.rs:268-288 | the deductions leave every household and user pair outside the penalized users as it was |
| BackgroundJobs.ZeroDeductsNothing | backend/src/services/background_jobs.rs:268-288 | missed points of zero change no balance |
| BackgroundJobs.Punished | backend/src/services/background_jobs.rs:279-286 | one user's punishments keep the assignment rows well formed |
| BackgroundJobs.PunishedEach | backend/src/services/background_jobs.rs:268-288 | all users' punishments keep the assignment rows well formed |
| BackgroundJobs.PunishedEachHolds | backend/src/services/background_jobs.rs:268-288 | afterwards each penalized user holds each punishment linked to the task |
| BackgroundJobs.NoMissedNoTotals | backend/src/services/background_jobs.rs:207-297 | a date without missed tasks reports zero points and zero punishments |
| BackgroundJobs.TotalsStable | backend/src/services/background_jobs.rs:254-258 | what a missed task adds to the totals depends only on which members exist, not on their balances |
| Points.StreakDueAsWritten | backend/src/services/points.rs:190-193 | the streak test as written fails (panics) exactly when a zero threshold is reached |
| Points.ZeroThresholdPanics | backend/src/services/points.rs:193 | with a zero threshold every non-negative streak makes the remainder panic |
| Points.StreakDue | backend/src/services/points.rs:190-193 | a zero threshold is never due; a streak below its threshold is never due |
| Points.StreakDueMultiples | backend/src/services/points.rs:193 | a positive threshold is due exactly at its positive whole multiples |
| Points.StreakDueAgrees | backend/src/services/points.rs:193 | wherever the written test does not panic, it agrees with the corrected one |
| Points.AwardIsBasePlusBonus | backend/src/services/points.rs:170-207 | the completion award of the conditions is their base part plus their streak bonuses |
| Points.OtherTasksIgnored | backend/src/services/points.rs:174-175 | conditions that name another task add nothing on completion, on reversal or on a miss |
| Points.NoStreakNoBonus | backend/src/services/points.rs:188-204 | without streak conditions the completion award equals the reversed amount |
| Points.BrokenAddsStreakBroken | backend/src/services/points.rs:307-315 | with non-positive streak-broken values, a broken streak never deducts less |
| Points.AwardTotal | backend/src/services/points.rs:155-207 | the loop's total is the task's own reward plus every applicable completion and due streak condition |
| Points.BaseTotal | backend/src/services/points.rs:228-262 | the loop's total is the task's own reward plus every applicable completion condition |
| Points.MissedTotal | backend/src/services/points.rs:280-320 | the loop's total is minus the task's penalty plus every applicable missed and, when broken, streak-broken condition |
| Points.AwardTaskCompletionPoints | backend/src/services/points.rs:146-217 | returns the completion total; a zero total changes nothing; otherwise the member's balance grows by it, and the call fails exactly when the user is not a member |
| Points.ReverseTaskCompletionPoints | backend/src/services/points.rs:220-269 | returns the base total and takes it off the member's balance when it is not zero; fails exactly when needed and the user is not a member |
| Points.DeductMissedTaskPoints | backend/src/services/points.rs:272-326 | returns the (usually negative) missed total and adds it to the balance when it is not zero; fails exactly when needed and the user is not a member |
| Rewards.PriceOf | backend/src/services/rewards.rs:157-163 | a price exists exactly for a known reward that is for sale and has a cost; an unknown reward is NotFound, anything else NotPurchasable |
| Rewards.RewardStore.AssignReward | backend/src/services/rewards.rs:186-239 | an unknown reward is NotFound; otherwise the upsert of one unit (Assign); every row stays balanced |
| Rewards.RewardStore.UnassignReward | backend/src/services/rewards.rs:242-284 | UserRewardNotFound when there is no row, otherwise the decrement or removal of one unit (Unassign) |
| Rewards.PurchaseCheck | backend/src/services/rewards.rs:157-177 | the price errors (NotFound, NotPurchasable) come first, then RowMissing for a missing membership, then InsufficientPoints when the balance is below the price; it passes exactly when the balance covers the price, and then gives minus the price, which leaves the balance non-negative |
| Rewards.RewardStore.PurchaseReward | backend/src/services/rewards.rs:151-183 | an error from PurchaseCheck is returned and changes nothing; otherwise the change PurchaseCheck gives (minus the price) is added to the buyer's balance and one unit is assigned; the other memberships, the rewards and the balance invariant are kept |
| Rewards.RewardStore.RedeemReward | backend/src/services/rewards.rs:384-434 | UserRewardNotFound, NotFound, NothingToRedeem with nothing available; otherwise one unit is redeemed or made pending as the reward requires, and the result says which |
| Rewards.RewardStore.ApproveRedemption | backend/src/services/rewards.rs:528-557 | NothingPending without a pending unit; otherwise one pending unit becomes redeemed |
| Rewards.RewardStore.RejectRedemption | backend/src/services/rewards.rs:560-588 | NothingPending without a pending unit; otherwise one pending unit is returned to the available amount |
| Assignments.AssignRow | backend/src/services/rewards.rs:195-201 | one more assigned unit, the row and its other counters unchanged; a balanced row stays balanced |
| Assignments.UnassignRow | backend/src/services/rewards.rs:271-276 | one unit fewer, at least one left, the other counters unchanged; balance is kept only when a unit was available |
| Assignments.UnassignIgnoresDone | backend/src/services/rewards.rs:262-276 | a fully redeemed row loses a unit all the same and is no longer balanced |
| Assignments.UseRow | backend/src/services/rewards.rs:399-433 | one available unit fewer: into pending when confirmation is required, else into redeemed; balance is kept |
| Assignments.ApproveRow | backend/src/services/rewards.rs:538-551 | one pending unit becomes redeemed; availability and balance are kept |
| Assignments.RejectRow | backend/src/services/rewards.rs:570-582 | one pending unit fewer, so one more available; balance is kept |
| Assignments.UseThenReject | backend/src/services/rewards.rs:559-588 | rejecting a fresh pending use restores the row but for its update instant |
| Assignments.UseThenApprove | backend/src/services/rewards.rs:528-557 | approving a pending use ends where a use without confirmation ends |
| Assignments.FindId | backend/src/services/rewards.rs:390-393 | the row with this id, and None exactly when there is none |
| Assignments.FindTriple | backend/src/services/rewards.rs:195-201 | the row of this user, item and household, and None exactly when there is none |
| Assignments.Assign | backend/src/services/rewards.rs:195-238 | the upsert: an existing row of the triple gets one more unit, else a new one-unit row with the fresh id is appended; ids and triples stay unique, other rows stay as they were, balance is kept |
| Assignments.AssignEach | backend/src/services/task_consequences.rs:175-182 | one assignment per item in turn; ids and triples stay unique and no unrelated id appears |
| Assignments.AssignEachRows | backend/src/services/task_consequences.rs:175-182 | the k-th returned row is the row of the k-th item |
| Assignments.AssignEachHolds | backend/src/services/task_consequences.rs:175-182 | afterwards every item has a row for the user |
| Assignments.AssignEachBalanced | backend/src/services/task_consequences.rs:175-182 | balanced rows stay balanced |
| Assignments.Unassign | backend/src/services/rewards.rs:242-284 | None exactly when the triple has no row; the row goes when its amount is at most one, else it loses a unit; every other row is kept |
| Assignments.AssignKeepsTriples | backend/src/services/rewards.rs:195-238 | a triple that has a row still has one after an assignment |
| Assignments.AssignEachKeepsTriples | backend/src/services/task_consequences.rs:175-182 | a triple that has a row still has one after each item is assigned |
| Assignments.AssignEachHoldsLast | backend/src/services/task_consequences.rs:175-182 | the last item assigned has its row for the user |
| Assignments.GetTriple | backend/src/services/rewards.rs:195-201 | the row found belongs to the triple, and None exactly when no row does |
| Punishments.OptionRows | backend/src/services/punishments.rs:70-80 | one option link per id, in order, all under the new parent |
| Punishments.AcceptedPrefix | backend/src/services/punishments.rs:71-79 | the loop links ids while they name a punishment of the same household and stops at the first that does not |
| Punishments.LinkOptions | backend/src/services/punishments.rs:70-81 | links exactly the accepted prefix; succeeds exactly when every id is a punishment of the household |
| Punishments.OptionIdsOf | backend/src/services/punishments.rs:663-681 | the options of a parent: only linked, existing punishments, and every linked existing one |
| Punishments.CountAfterUnlink | backend/src/services/punishments.rs:708-713 | deleting a link removes from the parent's count exactly the rows of that link |
| Punishments.RemoveOptionKeepsTwo | backend/src/services/punishments.rs:693-713 | with links free of duplicates and more than two options, at least two remain after a removal |
| Punishments.RemoveDuplicateOptionLeavesOne | backend/src/services/punishments.rs:693-713 | with a duplicated link the count guard passes while the removal leaves a single option |
| Punishments.PickAsWritten | backend/src/services/punishments.rs:757-778 | as written: assign the picked punishment, then consume the original from the amount read before the assignment |
| Punishments.ConsumeAsWritten | backend/src/services/punishments.rs:763-778 | the row goes when the earlier amount was at most one, else it loses a unit |
| Punishments.SelfPickIsLost | backend/src/services/punishments.rs:757-778 | a one-unit random-choice row that picks itself is deleted although the pick was just added to it: the returned row says two units, the table has none |
| Punishments.PickAgreesUnlessSelf | backend/src/services/punishments.rs:757-778 | whenever the picked punishment is not the row's own, the code as written and the corrected pick agree |
| Punishments.PickAgreesExisting | backend/src/services/punishments.rs:757-778 | the same when the user already holds the picked punishment |
| Punishments.PickAgreesNew | backend/src/services/punishments.rs:757-778 | the same when the picked punishment is new to the user |
| Punishments.Pick | backend/src/services/punishments.rs:757-778 | corrected pick: triples stay unique, the user holds the picked punishment and the result is its row; the original loses a unit or goes; balance is kept |
| Punishments.ConsumeKeeps | backend/src/services/punishments.rs:763-778 | consuming keeps ids and triples unique, adds no id, deletes a last unit and decrements otherwise, and keeps balance |
| Punishments.PunishmentStore.CreatePunishment | backend/src/services/punishments.rs:32-92 | a random choice with fewer than two ids is InsufficientOptions and changes nothing; otherwise the punishment is stored and the accepted prefix linked, with OptionNotFound after a rejected id |
| Punishments.PunishmentStore.UpdatePunishment | backend/src/services/punishments.rs:121-195 | NotFound for an unknown id; merges the fields; an explicit null clears the options; a new option list replaces the old links, with the same two-option and household checks |
| Punishments.PunishmentStore.AssignPunishment | backend/src/services/punishments.rs:226-281 | NotFound for an unknown punishment, otherwise the upsert of one unit |
| Punishments.PunishmentStore.UnassignPunishment | backend/src/services/punishments.rs:284-326 | UserPunishmentNotFound without a row, otherwise one unit fewer or the row removed |
| Punishments.PunishmentStore.CompletePunishment | backend/src/services/punishments.rs:426-477 | UserPunishmentNotFound, NotFound, NothingToComplete with nothing available; otherwise one unit is completed or made pending as the punishment requires |
| Punishments.PunishmentStore.ApproveCompletion | backend/src/services/punishments.rs:568-598 | NothingPending without a pending unit, otherwise one pending unit becomes completed |
| Punishments.PunishmentStore.RejectCompletion | backend/src/services/punishments.rs:601-630 | NothingPending without a pending unit, otherwise one pending unit returns to available |
| Punishments.PunishmentStore.RemovePunishmentOption | backend/src/services/punishments.rs:685-717 | NotFound for an unknown parent; a random choice with at most two options is InsufficientOptions; otherwise the link rows go |
| Punishments.PunishmentStore.PickRandomOption | backend/src/services/punishments.rs:720-784 | UserPunishmentNotFound for an unknown or foreign row, NotFound, NotRandomChoice, NoOptions in that order; otherwise the chosen option is assigned (corrected pick) and returned with its new row |
| TaskConsequences.LinkedIff | backend/src/services/task_consequences.rs:75-85 | the existence test holds exactly when the link row is present |
| TaskConsequences.LinkTable.AddLink | backend/src/services/task_consequences.rs:70-95 | AlreadyExists for an existing link and nothing changes; otherwise the link is appended; afterwards it is present and links stay free of duplicates |
| TaskConsequences.LinkTable.RemoveLink | backend/src/services/task_consequences.rs:98-114 | AssociationNotFound when no row was deleted; otherwise every row of the link goes; afterwards it is absent |
| TaskConsequences.RemoveUnlinks | backend/src/services/task_consequences.rs:103-110 | after the delete the link is absent; the table shrinks exactly when the link was there |
| TaskConsequences.AddThenRemove | backend/src/services/task_consequences.rs:70-114 | removing a link just added restores the table |
| TaskConsequences.RemoveKeepsOthers | backend/src/services/task_consequences.rs:103-107 | other links survive a delete |
| TaskConsequences.LinkedIds | backend/src/services/task_consequences.rs:30-47 | the join: exactly the linked items that exist, one per link row, ordered by name |
| TaskConsequences.AssignTaskCompletionRewards | backend/src/services/task_consequences.rs:165-183 | one reward assignment per linked reward, in name order, with fresh ids; the rewards are unchanged |
| TaskConsequences.AssignMissedTaskPunishments | backend/src/services/task_consequences.rs:186-209 | one punishment assignment per linked punishment, in name order, with fresh ids; punishments and options are unchanged |
| TaskConsequences.GivenRows | backend/src/services/task_consequences.rs:175-182 | as many rows given as linked items; the k-th is the user's row of the k-th linked item |
| Invitations.ExpireAll | backend/src/services/invitations.rs:303-313 | every pending invitation past its expiry becomes Expired; every other invitation is untouched; no invitation is added or removed |
| Invitations.ExpireAllSettles | backend/src/services/invitations.rs:303-313 | afterwards nothing is overdue, so expiring twice is expiring once |
| Invitations.InvitationStore.CreateInvitation | backend/src/services/invitations.rs:30-102 | AlreadyMember when a user with the email is a member, then AlreadyExists for a pending invitation of the household and email; otherwise a Pending invitation expiring seven days later is stored (also line 9) |
| Invitations.InvitationStore.AcceptInvitation | backend/src/services/invitations.rs:175-251 | NotFound, NotForUser unless the emails agree once both are lower-cased by Text.ToLower, NotFound unless pending, Expired (and marked so) after the expiry, AlreadyMember; otherwise Accepted with the response instant and a membership with the invitation's role and no points |
| Invitations.InvitationStore.DeclineInvitation | backend/src/services/invitations.rs:254-281 | the same email and status checks, then Declined with the response instant |
| Invitations.InvitationStore.CancelInvitation | backend/src/services/invitations.rs:284-300 | deletes a pending invitation; anything else is NotFound and nothing changes |
| Invitations.InvitationStore.ExpireOldInvitations | backend/src/services/invitations.rs:303-313 | the table becomes ExpireAll of the old one, and every status moves only along the life cycle |
| Invitations.AcceptIgnoresCase | backend/src/services/invitations.rs:183 | the email check does not depend on the case of the letters Text.ToLower folds, on either side |
| Households.IsMember | backend/src/services/households.rs:182-192 | true exactly when a membership row of the household and user exists |
| Households.FindMember | backend/src/services/households.rs:194-204 | the first row of the household and user, None exactly when the user is not a member |
| Households.GetMember | backend/src/services/households.rs:194-204 | a row of the household and user from the table, None exactly for a non-member |
| Households.RoleOf | backend/src/services/households.rs:205 | the role the stored text names, Member when it names none |
| Households.GetMemberRole | backend/src/services/households.rs:194-206 | None exactly for a non-member, else the parsed role of the member's row |
| Households.SetRole | backend/src/services/households.rs:242-264 | only the rows of the household and user get the new role; the length is kept |
| Households.AddPoints | backend/src/services/households.rs:308-330 | only the rows of the household and user gain delta points; the length is kept |
| Households.SetRoleEffect | backend/src/services/households.rs:242-264 | after a role change only that member's role differs, and only when it was a member |
| Households.AddPointsEffect | backend/src/services/households.rs:308-330 | after a points change only that member's balance differs, by delta; membership and roles are kept |
| Households.RemoveKeepsOthers | backend/src/services/households.rs:232-240 | removing a membership leaves every other member's row as it was |
| Households.ListMembers | backend/src/services/households.rs:208-230 | exactly the household's memberships, ordered by points descending, then by join instant ascending |
| Households.HouseholdStore.CreateHousehold | backend/src/services/households.rs:20-67 | the household is stored and its creator becomes its Owner with no points |
| Households.HouseholdStore.AddMember | backend/src/services/households.rs:20-67 | a membership row with the role and no points is appended |
| Households.HouseholdStore.RemoveMember | backend/src/services/households.rs:232-240 | the member's rows go; every other member is unchanged |
| Households.HouseholdStore.UpdateMemberRole | backend/src/services/households.rs:242-264 | the member's role is replaced; the re-read fails (RowMissing) exactly for a non-member; other roles are unchanged |
| Households.HouseholdStore.TransferOwnership | backend/src/services/households.rs:268-306 | the old owner becomes Admin, then the new one Owner; fails exactly when the new owner is no member; no other role changes |
| Households.HouseholdStore.UpdateMemberPoints | backend/src/services/households.rs:308-330 | the member's balance grows by delta and the new balance is returned; fails exactly for a non-member, changing nothing; no other member changes |
| Households.HouseholdStore.GetLeaderboard | backend/src/services/households.rs:332-361 | one entry per member of the household, in list_members order (points descending, then join instant ascending), each entry carrying that member's id and balance, ranked 1, 2, …, with the member's completion count of the household's tasks and a zero streak |
| Households.BuildEntries | backend/src/services/households.rs:337-358 | the loop makes the k-th entry from the k-th member with rank k + 1 |
| Households.LeaderboardOrder | backend/src/services/households.rs:332-361 | ranks are consecutive and the points never rise down the board |
| Households.LeaderboardMembers | backend/src/services/households.rs:332-361 | every entry is a member of the household |
| Households.LeaderboardCovers | backend/src/services/households.rs:332-361 | every member of the household has an entry |
| HouseholdHandlers.InvitePlan | backend/src/handlers/households.rs:315-341 | passes exactly for an owner or admin caller who does not ask for Owner, and asks for Admin only as Owner; the role defaults to Member and is never Owner; Forbidden for a non-manager, InvalidRole for Owner |
| HouseholdHandlers.RemovePlan | backend/src/handlers/households.rs:556-577 | the Owner can never be removed, by anyone; otherwise self-removal or a managing caller passes; the only errors are CannotRemoveOwner and Forbidden |
| HouseholdHandlers.RoleChangePlan | backend/src/handlers/households.rs:643-668 | passes exactly for an Owner caller who neither grants Owner nor changes the Owner; Forbidden for other callers, InvalidRole otherwise |
| HouseholdHandlers.AdjustPointsPlan | backend/src/handlers/households.rs:781-796 | passes exactly for a managing caller and a member target; Forbidden, then InvalidUser |
| HouseholdHandlers.SettingsPlan | backend/src/handlers/households.rs:900-907 | passes exactly for the Owner; otherwise Forbidden |
| HouseholdHandlers.CancelPlan | backend/src/handlers/households.rs:463-499 | passes exactly for a managing caller and an invitation of this household; an invitation of another household is NotFound |
| HouseholdHandlers.RoleChangeKeepsOwners | backend/src/handlers/households.rs:643-670 | an allowed role change neither makes nor unmakes an Owner anywhere |
| HouseholdHandlers.HandleRemoveMember | backend/src/handlers/households.rs:519-603 | the outcome is RemovePlan's; on success the target's membership goes, otherwise nothing changes; the Owner's row always stays |
| HouseholdHandlers.HandleUpdateRole | backend/src/handlers/households.rs:605-695 | RoleChangePlan's error changes nothing; otherwise the table becomes SetRole on the target, and a member target's row after that update is what is returned; a target that is not a member gives Internal; the set of owners never changes |
| HouseholdHandlers.HandleAdjustPoints | backend/src/handlers/households.rs:743-825 | AdjustPointsPlan's error changes nothing; otherwise the target's balance grows by the amount and the new balance is returned |
| HouseholdHandlers.AdjustMember | backend/src/handlers/households.rs:800-815 | the member's balance grows by the amount and the new balance is returned |
| HouseholdHandlers.HandleCancelInvitation | backend/src/handlers/households.rs:430-517 | CancelPlan's error changes nothing; a pending invitation is deleted, any other is NotFound; an invitation of another household is never touched |
| HouseholdHandlers.HandleInvite | backend/src/handlers/households.rs:289-380 | InvitePlan's error changes nothing, then AlreadyMember and AlreadyInvited from the service; the request succeeds exactly when the plan passes, the e-mail is no member's and no invitation for it is pending; the stored and returned invitation is pending, under the fresh id, for that e-mail, with the requested role (Member by default), never Owner, and sent by the caller |
| TaskHandlers.SetDateOnlySchedules | backend/src/handlers/tasks.rs:31-66 | a set-date request only turns the task into a Custom one with the requested dates, after which the task no longer qualifies |
| TaskHandlers.SetDateRequestRules | backend/src/handlers/tasks.rs:31-66 | only an unscheduled task qualifies; any other field in the request, or a recurrence other than Custom, disqualifies it; otherwise it qualifies exactly when custom dates are given |
| TaskHandlers.CreatePlan | backend/src/handlers/tasks.rs:190-252 | refused NoPermission exactly for a non-manager's non-suggestion outside solo mode, and SuggestionsDisabled exactly for a non-manager's suggestion when suggestions are off; an accepted task has a title, is suggested by the caller exactly in solo mode or for a non-manager's suggestion, is auto-approved exactly in solo mode, takes the household's default points in solo mode, and its assignee may be assigned |
| TaskHandlers.CreateByWho | backend/src/handlers/tasks.rs:198-252 | a manager outside solo mode creates a plain task; in solo mode every task is the caller's auto-approved suggestion; a non-manager succeeds exactly with a suggestion while suggestions are on |
| TaskHandlers.UpdatePlan | backend/src/handlers/tasks.rs:505-559 | solo mode makes nobody a manager; there an unknown task is TaskNotFound and anything but a set-date request SoloSetDateOnly; outside it a non-manager is NoPermission; a changed assignee must be assignable |
| TaskHandlers.UnchangedAssigneeNotChecked | backend/src/handlers/tasks.rs:542-559 | an assignee equal to the current one is never refused as a non-member |
| TaskHandlers.HandleUpdateTask | backend/src/handlers/tasks.rs:457-603 | a refused plan changes nothing; an accepted one merges the request into the stored task; in solo mode a success only sets the custom dates |
| SoloMode.DefaultSettings | shared/src/types.rs:155-175 | a fresh settings row: the default hierarchy, solo mode off, suggestions allowed, no exit request, no saved hierarchy, no default points |
| SoloMode.WithSettings | backend/src/services/household_settings.rs:16-56 | get-or-create: an existing row is kept, a missing household gets the defaults, and no other row changes |
| SoloMode.CanManageInContextRules | backend/src/services/solo_mode.rs:40-45 | in solo mode nobody manages; otherwise the hierarchy decides, so everybody under Equals and all but Members under Organized |
| SoloMode.Activated | backend/src/services/solo_mode.rs:50-84 | AlreadyActive exactly when solo mode is on; otherwise solo mode is on, no exit is pending and the current hierarchy is saved, the other settings kept |
| SoloMode.ExitRequested | backend/src/services/solo_mode.rs:87-122 | NotActive outside solo mode, ExitAlreadyPending with a pending request; otherwise only the request instant is set |
| SoloMode.ExitCancelled | backend/src/services/solo_mode.rs:125-159 | NotActive outside solo mode, NoExitPending without a request; otherwise only the request is cleared |
| SoloMode.Restored | backend/src/services/solo_mode.rs:162-201 | solo mode off, request and saved hierarchy cleared, the saved hierarchy restored or Organized when none was saved; the rest kept |
| SoloMode.Deactivated | backend/src/services/solo_mode.rs:162-201 | NotActive outside solo mode, otherwise the restored settings |
| SoloMode.ActivateThenDeactivate | backend/src/services/solo_mode.rs:50-201 | activating and then deactivating gives back the hierarchy and the suggestion setting that were there before |
| SoloMode.RequestThenCancel | backend/src/services/solo_mode.rs:87-159 | requesting an exit and cancelling it restores the settings but for the update instant |
| SoloMode.ExpiredAt | backend/src/services/solo_mode.rs:206-222 | exactly the households in solo mode whose exit was requested at least 48 hours ago (also line 18) |
| SoloMode.RestoredAll | backend/src/services/solo_mode.rs:229-244 | the expired households are restored and every other row is kept |
| SoloMode.SweepSettles | backend/src/services/solo_mode.rs:206-247 | after a sweep no household is left expired |
| SoloMode.SettingsStore.GetOrCreateSettings | backend/src/services/household_settings.rs:16-56 | the table becomes WithSettings of the old one and the household's row is returned |
| SoloMode.SettingsStore.Activate | backend/src/services/solo_mode.rs:50-84 | the result is Activated of the household's (created) row, stored on success |
| SoloMode.SettingsStore.RequestExit | backend/src/services/solo_mode.rs:87-122 | the result is ExitRequested of the household's row, stored on success |
| SoloMode.SettingsStore.CancelExit | backend/src/services/solo_mode.rs:125-159 | the result is ExitCancelled of the household's row, stored on success |
| SoloMode.SettingsStore.Deactivate | backend/src/services/solo_mode.rs:162-201 | the result is Deactivated of the household's row, stored on success |
| SoloMode.SettingsStore.CheckAndDeactivateExpired | backend/src/services/solo_mode.rs:206-247 | every expired household is restored and reported once, and no other row changes |
| Chat.FindMessage | backend/src/services/chat.rs:63-94 | the position of the message with this id, None exactly when there is none |
| Chat.ListMessages | backend/src/services/chat.rs:123-183 | at most limit messages when the limit is not negative, all of the household, not deleted and older than a known cursor, newest first; an unknown cursor gives none; without a cursor as many as the limit allows; every visible message newer than the last one returned is returned |
| Chat.ShortPageIsComplete | backend/src/services/chat.rs:123-183 | a page shorter than the limit holds every visible message older than the cursor |
| Chat.Page | backend/src/services/chat.rs:140-180 | the query once the cursor is resolved: the visible messages, newest first, as many as the limit allows (all of them for a negative limit), and never skipping a newer one |
| Chat.NewestKept | backend/src/services/chat.rs:149-150 | a prefix of the newest-first rows holds every row newer than its last one |
| Chat.NegativeLimitPassesCap | backend/src/handlers/chat.rs:56 | with limit=-1 in the query, a household with more than 100 visible messages gets more than 100 of them in one page |
| Chat.CappedPageLimit | backend/src/handlers/chat.rs:56 | the page size clamped into 1..100, equal to the handler's value whenever that is positive |
| Chat.CappedPageIsBounded | backend/src/handlers/chat.rs:56 | with the clamped page size no page holds more than 100 messages |
| Chat.ChatStore.CreateMessage | backend/src/services/chat.rs:22-60 | EmptyContent for blank content, changing nothing; otherwise a new message with the trimmed content, not deleted, is appended |
| Chat.ChatStore.UpdateMessage | backend/src/services/chat.rs:186-225 | EmptyContent, NotFound, NotAuthorized for another author, NotFound for a deleted message, in that order, each changing nothing; otherwise only content and update instant change |
| Chat.ChatStore.DeleteMessage | backend/src/services/chat.rs:228-253 | NotFound, NotAuthorized for another author; an already deleted message stays as it is; otherwise it is marked deleted now |
| Notes.CanViewNoteRules | backend/src/services/notes.rs:139-141 | the author always sees a note; a private note only its author; a shared note everybody |
| Notes.FindNote | backend/src/services/notes.rs:58-65 | the position of the note with this id, None exactly when there is none |
| Notes.NewNote | backend/src/services/notes.rs:19-56 | the inserted note carries the request's fields, the empty text for a missing content and now as both instants |
| Notes.MergeNote | backend/src/services/notes.rs:143-188 | each field present in the request replaces the stored one; identity and creation are kept; updated now |
| Notes.MergeNoteIdempotent | backend/src/services/notes.rs:143-188 | merging the same request twice is merging once; an empty request only touches the update instant |
| Notes.ListNotes | backend/src/services/notes.rs:70-136 | exactly the household's notes the user may view, most recently updated first |
| Notes.PrivateNotesStayPrivate | backend/src/services/notes.rs:70-141 | another user's private note is never listed |
| Notes.NoteStore.CreateNote | backend/src/services/notes.rs:19-56 | NewNote is appended |
| Notes.NoteStore.UpdateNote | backend/src/services/notes.rs:143-188 | NotFound, then PermissionDenied for anyone but the author, changing nothing; otherwise the merge replaces the note |
| Notes.NoteStore.DeleteNote | backend/src/services/notes.rs:190-212 | NotFound, then PermissionDenied for anyone but the author; otherwise the note goes and its id is no longer found |
| Journal.AppendKeepsUnique | backend/src/services/journal.rs:19-59 | appending an entry with a fresh id keeps ids unique |
| Journal.FindEntry | backend/src/services/journal.rs:61-68 | the position of the entry with this id, None exactly when there is none |
| Journal.NewEntry | backend/src/services/journal.rs:19-59 | the inserted entry: an empty title when none is given, today's date when no entry date is given, otherwise the request's fields |
| Journal.MergeEntry | backend/src/services/journal.rs:148-197 | each field present in the request replaces the stored one; identity and creation are kept; updated now |
| Journal.MergeEntryIdempotent | backend/src/services/journal.rs:148-197 | merging the same request twice is merging once |
| Journal.NewestFirstKey | backend/src/services/journal.rs:110 | the sort key orders by entry date descending, then creation descending |
| Journal.ListEntries | backend/src/services/journal.rs:73-146 | exactly the household's entries the user may view, by entry date and then creation, newest first |
| Journal.JournalStore.CreateEntry | backend/src/services/journal.rs:19-59 | NewEntry is appended and ids stay unique |
| Journal.JournalStore.UpdateEntry | backend/src/services/journal.rs:148-197 | NotFound, then PermissionDenied for anyone but the author; otherwise the merge replaces the entry |
| Journal.JournalStore.DeleteEntry | backend/src/services/journal.rs:199-221 | NotFound, then PermissionDenied for anyone but the author; otherwise the entry goes |
| Announcements.ActiveWindow | backend/src/services/announcements.rs:100-106 | active without bounds; with both bounds exactly from the start (inclusive) to the end (exclusive); never before a start or from an end on; never for an empty window |
| Announcements.FindAnnouncement | backend/src/services/announcements.rs:58-69 | the position of the announcement with this id, None exactly when there is none |
| Announcements.NewAnnouncement | backend/src/services/announcements.rs:17-56 | the inserted announcement: the empty text for a missing content, otherwise the request's fields, created now |
| Announcements.MergeAnnouncement | backend/src/services/announcements.rs:118-163 | title and content replaced when given; each bound kept when absent, cleared by an explicit null, set when given |
| Announcements.MergeAnnouncementRules | backend/src/services/announcements.rs:118-163 | merging twice is merging once; clearing both bounds makes it always active; leaving both keeps its activity |
| Announcements.ListAnnouncements | backend/src/services/announcements.rs:72-88 | exactly the household's announcements, newest first |
| Announcements.ListActiveAnnouncements | backend/src/services/announcements.rs:94-116 | exactly the household's announcements active now, newest first |
| Announcements.ActiveAmongAll | backend/src/services/announcements.rs:72-116 | the active list is part of the full list and never longer |
| Announcements.AnnouncementStore.CreateAnnouncement | backend/src/services/announcements.rs:17-56 | NewAnnouncement is appended |
| Announcements.AnnouncementStore.UpdateAnnouncement | backend/src/services/announcements.rs:118-163 | NotFound, otherwise the merge replaces the announcement |
| Announcements.AnnouncementStore.DeleteAnnouncement | backend/src/services/announcements.rs:165-179 | NotFound, otherwise the announcement goes |
| TaskCategories.FindCategory | backend/src/services/task_categories.rs:59-70 | the position of the category with this id, None exactly when there is none |
| TaskCategories.NewCategory | backend/src/services/task_categories.rs:19-57 | the inserted category: sort order 0 when none is given, otherwise the request's fields |
| TaskCategories.MergeCategory | backend/src/services/task_categories.rs:86-129 | name, color and sort order replaced when given, a color is never cleared; identity is kept |
| TaskCategories.MergeCategoryIdempotent | backend/src/services/task_categories.rs:86-129 | merging twice is merging once; an empty request changes nothing |
| TaskCategories.BySortOrderKey | backend/src/services/task_categories.rs:77 | the sort key orders by sort order, then by name |
| TaskCategories.ListCategories | backend/src/services/task_categories.rs:72-84 | exactly the household's categories, by sort order ascending and then name |
| TaskCategories.CategoryStore.CreateCategory | backend/src/services/task_categories.rs:19-57 | DuplicateName when the household already has the name, changing nothing; otherwise NewCategory is appended |
| TaskCategories.CategoryStore.UpdateCategory | backend/src/services/task_categories.rs:86-129 | NotFound; DuplicateName when the merged name clashes with another category of the household; otherwise the merge replaces the category |
| TaskCategories.CategoryStore.DeleteCategory | backend/src/services/task_categories.rs:131-145 | NotFound, otherwise the category goes |
| UserSettings.ValidLanguageCases | backend/src/services/user_settings.rs:18-23 | exactly "en" and "de" are supported; the default is supported |
| UserSettings.DefaultSettings | backend/src/services/user_settings.rs:26-62 | a fresh row speaks English |
| UserSettings.Applied | backend/src/services/user_settings.rs:73-80 | fails exactly for an unsupported language; otherwise the language is replaced when given and a supported language stays supported |
| UserSettings.UserSettingsStore.GetOrCreateSettings | backend/src/services/user_settings.rs:26-62 | an existing row is returned unchanged; otherwise the default row is inserted and returned |
| UserSettings.UserSettingsStore.UpdateSettings | backend/src/services/user_settings.rs:65-98 | the row is created first, so even an InvalidLanguage leaves the default row behind; otherwise the applied settings are stored |
| RateLimit.Since | backend/src/middleware/rate_limit.rs:37 | the elapsed time, saturating at zero for an instant after now |
| RateLimit.Pruned | backend/src/middleware/rate_limit.rs:37-51 | exactly the attempts younger than the window are kept |
| RateLimit.RemainingAgreesWithCheck | backend/src/middleware/rate_limit.rs:67-80 | attempts remain exactly when a check would allow, and never more than the maximum (also lines 30-42) |
| RateLimit.CheckIsStable | backend/src/middleware/rate_limit.rs:30-42 | a check's pruning changes neither the next check nor the remaining count |
| RateLimit.RecordUsesOneAttempt | backend/src/middleware/rate_limit.rs:45-56 | recording takes exactly one remaining attempt, down to zero |
| RateLimit.KeysAreIndependent | backend/src/middleware/rate_limit.rs:30-63 | recording, checking or clearing one key never changes another key's verdict or count |
| RateLimit.ClearResets | backend/src/middleware/rate_limit.rs:60-63 | after a clear every attempt is available again |
| RateLimit.RecordAllKeeps | backend/src/middleware/rate_limit.rs:45-56 | attempts recorded in order within one window are all kept |
| RateLimit.BlockedAfterMaxAttempts | backend/src/middleware/rate_limit.rs:100-106 | the maximum number of attempts within the window blocks the key |
| RateLimit.RecordAllFrom | backend/src/middleware/rate_limit.rs:45-56 | a key's entry holds only recorded instants |
| RateLimit.AllowedAfterWindow | backend/src/middleware/rate_limit.rs:109-120 | once the window has passed since the last attempt the key is allowed again |
| RateLimit.NothingInWindow | backend/src/middleware/rate_limit.rs:37 | when every attempt is older than the window, pruning leaves none |
| RateLimit.RateLimiter.Check | backend/src/middleware/rate_limit.rs:30-42 | allows exactly below the maximum of attempts in the window and prunes the key's entry |
| RateLimit.RateLimiter.Record | backend/src/middleware/rate_limit.rs:45-56 | prunes the key's entry and appends now |
| RateLimit.RateLimiter.Clear | backend/src/middleware/rate_limit.rs:60-63 | the key's entry goes |
| RateLimit.RateLimiter.GetRemaining | backend/src/middleware/rate_limit.rs:67-80 | the maximum less the attempts in the window, saturating at zero; positive exactly when a check would allow |
| WebSocket.RoomIsMembers | backend/src/services/websocket.rs:86-159 | under the manager's invariant a room is exactly the set of sessions whose household it is |
| WebSocket.RegisterKeepsInv | backend/src/services/websocket.rs:38-47 | registering a session outside any room keeps the invariant |
| WebSocket.LeaveKeepsInv | backend/src/services/websocket.rs:125-149 | leaving keeps the invariant, clears the session's household and removes it from every room |
| WebSocket.LeaveFromRoom | backend/src/services/websocket.rs:125-149 | the same for a session that was in a room |
| WebSocket.JoinKeepsInv | backend/src/services/websocket.rs:86-122 | joining after leaving keeps the invariant and puts the session in exactly one room |
| WebSocket.DisconnectKeepsInv | backend/src/services/websocket.rs:152-159 | disconnecting keeps the invariant and leaves the session in no room |
| WebSocket.WsManager.Register | backend/src/services/websocket.rs:38-47 | a new unauthenticated session without a household is stored; rooms unchanged |
| WebSocket.WsManager.Authenticate | backend/src/services/websocket.rs:50-66 | succeeds exactly for a known session and records its user; rooms unchanged |
| WebSocket.WsManager.GetSessionUser | backend/src/services/websocket.rs:69-77 | the session's user and name exactly when it is authenticated |
| WebSocket.WsManager.GetSessionHousehold | backend/src/services/websocket.rs:80-83 | the session's household, whose room then holds it |
| WebSocket.WsManager.LeaveRoom | backend/src/services/websocket.rs:125-149 | the session leaves its room and is in none afterwards |
| WebSocket.WsManager.JoinRoom | backend/src/services/websocket.rs:86-122 | succeeds exactly for an authenticated session, which leaves its old room first and is then in exactly the new one; only its household changes, its user and name are kept, and every other session and room is as after leaving |
| WebSocket.WsManager.Disconnect | backend/src/services/websocket.rs:152-159 | the session leaves its room and is forgotten |
| WebSocket.WsManager.RoomSize | backend/src/services/websocket.rs:214-217 | the number of sessions in the household's room |
| WebSocket.WsManager.BroadcastRecipients | backend/src/services/websocket.rs:170-180 | exactly the room's sessions, all of them authenticated |
| Config.VarOr | backend/src/config.rs:19 | the variable's value when set, else the default |
| Config.VarOpt | backend/src/config.rs:38-43 | the variable's value exactly when set |
| Config.CleanOrigins | backend/src/config.rs:38-41 | trims each part and drops the empty ones |
| Config.CleanOriginsFromParts | backend/src/config.rs:38-41 | every kept origin is the trim of some part |
| Config.CleanOriginsKeepsParts | backend/src/config.rs:38-41 | every part that is not blank is kept, trimmed |
| Config.CorsOrigins | backend/src/config.rs:36-42 | the origins are trimmed, non-empty and free of commas |
| Config.TrimInside | backend/src/config.rs:39 | trimming only takes characters out of the text |
| Config.SplitJoined | backend/src/config.rs:38 | splitting comma-joined comma-free parts gives the parts back |
| Config.CorsOriginsOfJoin | backend/src/config.rs:36-42 | the origins of a comma-joined list are its cleaned parts |
| Config.CleanOriginsOfClean | backend/src/config.rs:38-41 | cleaning clean origins changes nothing |
| Config.CorsOriginsRoundTrip | backend/src/config.rs:36-42 | clean, comma-free origins joined with commas are read back unchanged |
| Config.DefaultCorsOriginsValue | backend/src/config.rs:37 | the default origins are http://localhost and http://127.0.0.1 |
| Config.FromEnv | backend/src/config.rs:17-45 | fails (the source panics) on a PORT that is no number and on a missing JWT_SECRET; succeeds exactly when the secret is set and the three numbers parse; then every field is its variable or its default |
| Config.NumericDefaults | backend/src/config.rs:21-34 | the default port is 8080, tokens last 15 minutes and refresh tokens 30 days |
| Config.DefaultsWithSecretOnly | backend/src/config.rs:69-87 | with only the secret set, every field takes its default |
| TaskCard.WeekdayNameInjective | frontend/src/components/task_card.rs:19-27 | the weekday names used as labels are pairwise different |
| TaskCard.MonthDayInjective | frontend/src/components/task_card.rs:31-34 | the "%b %d" label tells apart any two dates of the same year |
| TaskCard.FormatNextDueDateCases | frontend/src/components/task_card.rs:11-35 | "Today" exactly for today's date, "Tomorrow" exactly one day ahead, the weekday name from 2 to 6 days ahead, and the month and day for overdue dates and dates a week or more away |
| TaskCard.FromDate | frontend/src/components/task_card.rs:190-215 | a task without a due date, and only such a task, goes to NoSchedule; a weekday group is always 2 to 6 days ahead |
| TaskCard.FromDateCases | frontend/src/components/task_card.rs:190-215 | the group is Today exactly for today's date, a weekday group exactly from 2 to 6 days ahead, and a dated group exactly for overdue dates and dates a week or more away |
| TaskCard.TitleIsDueLabel | frontend/src/components/task_card.rs:217-227 | a group's heading is the due-date label its tasks' cards show |
| TaskCard.GroupLessIrreflexive | frontend/src/components/task_card.rs:180-187 | the derived order on groups is irreflexive |
| TaskCard.GroupLessTransitive | frontend/src/components/task_card.rs:180-187 | the derived order on groups is transitive |
| TaskCard.GroupLessTotal | frontend/src/components/task_card.rs:180-187 | any two different groups are ordered one way or the other |
| TaskCard.IntsOfStringInjective | frontend/src/components/task_card.rs:180-187 | comparing weekday names by their characters' codes loses no information |
| TaskCard.FromDateMonotone | frontend/src/components/task_card.rs:180-215 | from today on, a later due date never lands under an earlier heading |
| TaskCard.InWeekNamesDistinct | frontend/src/components/task_card.rs:190-215 | two different dates within the coming week never share a weekday heading |
| TaskCard.OverdueAfterWeek | frontend/src/components/task_card.rs:180-215 | an overdue task's heading comes after every heading of the coming week |
| TaskCard.Push | frontend/src/components/task_card.rs:246 | entry(group).or_default().push(task) keeps the map's keys ascending, adds the group as a key, and appends the task to that group's list only |
| TaskCard.PushFront | frontend/src/components/task_card.rs:246 | inserting a group smaller than every key puts it in front with the one task |
| TaskCard.PushHere | frontend/src/components/task_card.rs:246 | pushing onto the first key keeps the keys ascending and the key set |
| TaskCard.LookupAbsent | frontend/src/components/task_card.rs:246 | a group below the first key has no tasks in the map |
| TaskCard.PushLater | frontend/src/components/task_card.rs:246 | pushing past the first key keeps that entry in front and appends only to the group's list |
| TaskCard.PushLaterAscending | frontend/src/components/task_card.rs:246 | pushing past the first key keeps the keys ascending |
| TaskCard.PushLaterKeys | frontend/src/components/task_card.rs:246 | pushing past the first key adds exactly the group to the key set |
| TaskCard.GroupTasks | frontend/src/components/task_card.rs:241-248 | the grouping loop yields the groups in ascending heading order, each with exactly the tasks whose due date falls in it in their original order, and a group appears exactly when some task falls in it |
| TaskCard.CardClass | frontend/src/components/task_card.rs:80-84 | the card is marked completed exactly when the target is met |
| TaskCard.ButtonRules | frontend/src/components/task_card.rs:58-78 | plus does nothing while debouncing, for a user who is not assigned, or once the target is met without allowing more; otherwise an assigned user's plus acts; minus acts whenever the target is met |
| PeriodTracker.TodayHasEntry | frontend/src/components/period_tracker.rs:6-9 | true exactly when some period starts today |
| PeriodTracker.PeriodCell | frontend/src/components/period_tracker.rs:37-53 | skipped periods show "-" in grey; completed ones a tick and failed ones a cross, whatever the habit |
| PeriodTracker.PeriodCellColours | frontend/src/components/period_tracker.rs:37-53 | for a bad habit the colours of completed and failed are swapped and the icons stay, and a non-skipped cell's colour always differs between good and bad habits |
| PeriodTracker.Cells | frontend/src/components/period_tracker.rs:35-60 | one cell per period, in order |
| PeriodTracker.Row | frontend/src/components/period_tracker.rs:25-68 | one cell per period, followed by the in-progress cell exactly when it is asked for and today has no entry |
| PeriodTracker.EmptyRow | frontend/src/components/period_tracker.rs:27-31 | nothing is shown exactly when there are no periods and no in-progress cell is asked for |
| PeriodTracker.TodayRecordedHidesInProgress | frontend/src/components/period_tracker.rs:27 | once today has an entry, the in-progress cell is never shown |
| CalendarPicker.ParseIsoDate | frontend/src/components/calendar_picker.rs:18 | a parsed date is a valid calendar date with a four-digit year, read from exactly ten characters |
| CalendarPicker.DigitsBound | frontend/src/components/calendar_picker.rs:18 | n digits read as a number stay below 10^n |
| CalendarPicker.FormatIsoDate | frontend/src/components/calendar_picker.rs:69 | "%Y-%m-%d" of a four-digit-year date is ten characters |
| CalendarPicker.ParseFormat | frontend/src/components/calendar_picker.rs:131-136 | parsing what the list shows gives back the same date (also lines 18, 69) |
| CalendarPicker.ParseRefuses | frontend/src/components/calendar_picker.rs:117-129 | the empty text, "invalid-date" and "15/06/2024" are refused (also lines 175-180) |
| CalendarPicker.SortedDistinctAscending | frontend/src/components/calendar_picker.rs:139-161 | a sorted list without duplicates is strictly ascending (also lines 20-25) |
| CalendarPicker.AscendingSortedDistinct | frontend/src/components/calendar_picker.rs:139-161 | a strictly ascending list is sorted and has no duplicates (also lines 20-25) |
| CalendarPicker.Added | frontend/src/components/calendar_picker.rs:151-161 | a date already selected leaves the list as it is; a new one is added once and the list is sorted; no duplicate ever appears (also lines 20-25) |
| CalendarPicker.PushedDistinct | frontend/src/components/calendar_picker.rs:21-23 | pushing a new date and sorting keeps the list free of duplicates and strictly ascending |
| CalendarPicker.Removed | frontend/src/components/calendar_picker.rs:163-173 | retain drops the date and keeps exactly every other date (also lines 78-82) |
| CalendarPicker.RemovedKeepsAscending | frontend/src/components/calendar_picker.rs:163-173 | removing keeps the list strictly ascending, and removing a date that is not there changes nothing (also lines 78-82) |
| CalendarPicker.AddKeepsAscending | frontend/src/components/calendar_picker.rs:20-25 | adding to a strictly ascending list keeps it strictly ascending and holds the date afterwards |
| CalendarPicker.Picker.SetInput | frontend/src/components/calendar_picker.rs:8 | typing changes only the input text |
| CalendarPicker.Picker.AddDate | frontend/src/components/calendar_picker.rs:11-33 | empty input gives the "select a date" error and a malformed one the format error, both leaving the list and the input; a valid date is added, the input cleared and the error removed |
| CalendarPicker.Picker.RemoveDate | frontend/src/components/calendar_picker.rs:78-82 | the Remove button removes that date and touches nothing else |
| TaskFields.ChosenWeekday | frontend/src/components/task_fields.rs:449-453 | a value that parses as u8 becomes the weekday; anything else keeps the current one |
| TaskFields.ClampedMonthDay | frontend/src/components/task_fields.rs:493-497 | a value that parses as u8 is clamped to 1..31; anything else keeps the current day |
| TaskFields.Clamp | frontend/src/components/task_fields.rs:495 | u8::clamp: inside the bounds the value stays, below it becomes the lower bound, above it the upper |
| TaskFields.FlooredInterval | frontend/src/components/task_fields.rs:589-593 | a value that parses as i32 is raised to at least 1 and otherwise kept; anything else keeps the current interval |
| TaskFields.WeekdayOptions | frontend/src/components/task_fields.rs:449-460 | choosing an option 0 to 6 sets exactly that weekday |
| TaskFields.MonthDayTyped | frontend/src/components/task_fields.rs:493-497 | typing a day from 1 to 31 sets exactly that day |
| TaskFields.MonthDayEdges | frontend/src/components/task_fields.rs:493-497 | "0" becomes 1 and "40" becomes 31; "300", "-5", the empty text and "abc" do not parse as u8 and change nothing |
| TaskFields.IntervalEdges | frontend/src/components/task_fields.rs:589-593 | "0" and "-3" become 1; text that is not a number changes nothing |
| TaskFields.AscendingIsSortedDistinct | frontend/src/components/task_fields.rs:544-551 | a strictly ascending list of days is one that is sorted and free of duplicates |
| TaskFields.Toggled | frontend/src/components/task_fields.rs:541-552 | checking a day makes it present, added once and sorted if it was missing; unchecking removes every copy; no other day changes |
| TaskFields.SameOthers | frontend/src/components/task_fields.rs:545-547 | adding one day leaves the presence of every other day as it was |
| TaskFields.RemovedCount | frontend/src/components/task_fields.rs:550 | retain drops exactly the copies of the day |
| TaskFields.ToggledKeepsAscending | frontend/src/components/task_fields.rs:541-552 | toggling keeps a strictly ascending list strictly ascending |
| TaskFields.CheckUncheck | frontend/src/components/task_fields.rs:541-552 | checking and then unchecking a day that was missing gives back the same list |
| TaskFields.FilterMultiset | frontend/src/components/task_fields.rs:550 | retain keeps the multiplicity of every other day and drops that day altogether |
| TaskFields.AscendingUnique | frontend/src/components/task_fields.rs:546-547 | two strictly ascending lists with the same elements are equal, so sorting has one outcome |
| TaskFields.HeadIsLeast | frontend/src/components/task_fields.rs:547 | the first day of an ascending list is its least |
| TaskFields.TailMultiset | frontend/src/components/task_fields.rs:547 | dropping the head removes exactly one copy of it |
| TaskFields.AscendingTail | frontend/src/components/task_fields.rs:547 | the rest of an ascending list is ascending |
| TaskFields.RecurrenceFields.OnWeekdayChange | frontend/src/components/task_fields.rs:449-453 | the weekday changes as ChosenWeekday says; nothing else changes |
| TaskFields.RecurrenceFields.OnMonthDayInput | frontend/src/components/task_fields.rs:493-497 | the day changes as ClampedMonthDay says and stays within 1..31; nothing else changes |
| TaskFields.RecurrenceFields.OnWeekdayToggle | frontend/src/components/task_fields.rs:541-552 | the days change as Toggled says and stay strictly ascending; nothing else changes |
| TaskFields.RecurrenceFields.OnIntervalInput | frontend/src/components/task_fields.rs:589-593 | the interval changes as FlooredInterval says and stays at least 1; nothing else changes |
| WsClient.Initial | frontend/src/api/websocket.rs:40-48 | a new client is disconnected with no socket, no attempts, no timer and nothing sent |
| WsClient.Pow2 | frontend/src/api/websocket.rs:186 | 1 << attempts is at least 1 |
| WsClient.Backoff | frontend/src/api/websocket.rs:185-186 | the first wait is at least a second, and each later one is twice the one before |
| WsClient.BackoffSchedule | frontend/src/api/websocket.rs:185-186 | the waits are 1, 2, 4, 8 and 16 seconds |
| WsClient.AfterConnect | frontend/src/api/websocket.rs:61-90 | connect does nothing unless disconnected or in error; otherwise it is Connecting with a stored socket, or Error when the socket cannot be made; the counter, room, timer and sent messages stay (also line 171) |
| WsClient.ConnectGuard | frontend/src/api/websocket.rs:62-73 | connect is refused in the five busy states and from Disconnected or Error ends in Connecting or Error |
| WsClient.AfterOpen | frontend/src/api/websocket.rs:104-115 | opening makes the client Connected with the counter reset, and sends Authenticate with the stored token if there is one |
| WsClient.AfterMessage | frontend/src/api/websocket.rs:122-145 | an unreadable message changes nothing; Authenticated, JoinedRoom and LeftRoom set the state and the room as the handler does; every other message leaves them; a readable message becomes the last message |
| WsClient.AfterError | frontend/src/api/websocket.rs:152-154 | an error event only sets Error |
| WsClient.AfterSchedule | frontend/src/api/websocket.rs:175-194 | at five attempts the client goes to Error; below that it is Reconnecting with the counter one up and a timer of the backoff delay |
| WsClient.AfterClose | frontend/src/api/websocket.rs:160-167 | closing drops the socket and the room, then reconnects while fewer than five attempts were made and ends in Error otherwise |
| WsClient.AfterSend | frontend/src/api/websocket.rs:197-203 | a message is sent exactly when a socket is stored |
| WsClient.AfterDisconnect | frontend/src/api/websocket.rs:231-242 | disconnect cancels the timer, maxes out the counter, drops the socket and the room, and is Disconnected |
| WsClient.DisconnectStopsReconnect | frontend/src/api/websocket.rs:231-242 | the close event that follows a disconnect does not schedule a reconnect and ends in Error (also lines 175-180) |
| WsClient.OpenRestoresRetries | frontend/src/api/websocket.rs:175-183 | after a successful open a dropped connection starts again from the first reconnect attempt (also lines 104-106) |
| WsClient.ReadyRules | frontend/src/api/websocket.rs:245-247 | ready after joining a room, not after leaving it, closing, disconnecting or an error; a server error message does not change it |
| WsClient.StepsKeepBounded | frontend/src/api/websocket.rs:175-194 | no event takes the counter above five (also line 46) |
| WsClient.AfterTimerAsWritten | frontend/src/api/websocket.rs:62-71 | as written, the reconnect timer's connect sees Reconnecting and does nothing but drop the fired timer (also lines 189-191) |
| WsClient.NeverReconnects | frontend/src/api/websocket.rs:160-194 | as written, after a drop the client stays Reconnecting with no socket and no timer, and connect keeps refusing |
| WsClient.NeverReconnectsExample | frontend/src/api/websocket.rs:160-194 | a connection that opened and then dropped is left Reconnecting without a socket |
| WsClient.AfterTimer | frontend/src/api/websocket.rs:189-191 | the intended timer callback connects from Reconnecting, reaching Connecting with a socket or Error |
| WsClient.ReconnectsAfterClose | frontend/src/api/websocket.rs:160-194 | with the intended callback a dropped connection gets a new socket on attempt n + 1 |
| WsClient.RetriesThenGivesUp | frontend/src/api/websocket.rs:175-194 | with the intended callback a server that stays away is retried with doubling waits until five attempts, then the client ends in Error |
| WsClient.Client.Connect | frontend/src/api/websocket.rs:61-172 | the client's state becomes AfterConnect of the old state |
| WsClient.Client.OnOpen | frontend/src/api/websocket.rs:104-115 | the client's state becomes AfterOpen of the old state |
| WsClient.Client.OnMessage | frontend/src/api/websocket.rs:122-145 | the client's state becomes AfterMessage of the old state |
| WsClient.Client.OnError | frontend/src/api/websocket.rs:152-154 | the client's state becomes AfterError of the old state |
| WsClient.Client.OnClose | frontend/src/api/websocket.rs:160-167 | the client's state becomes AfterClose of the old state |
| WsClient.Client.ScheduleReconnect | frontend/src/api/websocket.rs:175-194 | the client's state becomes AfterSchedule of the old state |
| WsClient.Client.OnReconnectTimer | frontend/src/api/websocket.rs:189-191 | the client's state becomes the intended AfterTimer of the old state |
| WsClient.Client.Send | frontend/src/api/websocket.rs:197-228 | the client's state becomes AfterSend of the old state |
| WsClient.Client.Disconnect | frontend/src/api/websocket.rs:231-242 | the client's state becomes AfterDisconnect of the old state |
| WsClient.Client.IsReady | frontend/src/api/websocket.rs:245-247 | true exactly when the client is in a room |

## Left out

- HTTP, JSON and SQL. Request parsing, responses, SQL text and database errors are not modelled. A table becomes a sequence or map field, and a failing query is not a case of the model.
- Handlers other than the guard decisions of backend/src/handlers/tasks.rs and backend/src/handlers/households.rs. They repeat the membership and permission checks that are modelled.
- Clocks and time zones. `Utc::now()`, the household's local date and time and the time-zone conversions are parameters of the operations that need them.
- Timestamps are whole seconds. Sub-second precision is not modelled.
- Fresh UUIDs are parameters. The caller guarantees they are not yet in use (`FindX(...).None?` preconditions), as `Uuid::new_v4` does in the source.
- Randomness. The choice `options.choose` makes in `pick_random_option` is a parameter: the index of the picked option.
- Concurrency and async. The locks of the rate limiter and the WebSocket manager are not modelled, nor is the `mpsc` channel a broadcast writes to; `BroadcastRecipients` gives the set of recipients instead. The tokio sleep loop of the background scheduler is reduced to the next-run computation. On the web client, browser callbacks and timers are steps applied one at a time.
- Floating point. The multiplier of point conditions and the completion-rate percentages of the statistics are not modelled.
- Points.AwardTotal: does not include the multiplier of Streak conditions, because it is a floating-point scaling. The total is the one with every multiplier absent.
- Points.BaseTotal: does not include the multiplier of TaskComplete conditions, for the same reason.
- Cryptography and tokens. Authentication, JWTs and password hashing are not part of this model.
- Frontend rendering. Leptos views, i18n texts, the HTTP client and LocalStorage are not modelled. The WebSocket client's stored token is a parameter of the open event, and JSON encoding of messages is left out: an unreadable message is `None`.
- Scheduler.ParseDueTime: parses one or two digits for each of hour and minute separated by a colon. It does not reproduce every leniency of chrono's `%H:%M` parser.
- CalendarPicker.ParseIsoDate: accepts exactly four year digits, two month digits and two day digits. chrono's `%Y-%m-%d` parser also takes shorter month and day fields and signed or longer years.
- CalendarPicker.FormatIsoDate: covers years 0 to 9999, the range the date picker produces.
- WebSocket.WsManager.Register: requires that the session id is not in a room. Session ids are fresh in the WebSocket handler, and re-registering a session that is in a room would leave a stale room entry behind.
- Tasks.TaskService.UncompleteTask: returns the deleted completion, where the source returns `()`; the table change is the same.
- `WebSocket::new` failing leaves the web client in Error, with the socket flag unchanged; there is no way to cause that failure in the model other than the `socketOk` parameter.
- Enum constructors renamed because of Dafny name clashes: SuggestionStatus::Approved is `Accepted`, TimePeriod::None is `AllTime`, RecurrenceValue::None is `NoValue`.
- backend/src/services/household_settings.rs builds a settings row that omits some fields declared in shared/src/types.rs. The model fills those fields with the defaults of shared/src/types.rs.
- The expiry sweep of solo mode continues past a database error on one household; such errors are not modelled.
- Listing and maintenance operations outside the modelled core are not modelled: `list_user_households`, `update_household`, `delete_household`, `get_household_invitations` and `get_user_invitations`.
- Serialization failures of enum round trips are not modelled beyond the parse errors of `FromStr`.
- Text.ToLower: folds A-Z and the Kelvin sign U+212A, the only characters whose Rust lower case is ASCII. That is exact wherever the lowered text is compared with an ASCII name, as every `FromStr` of shared/src/types.rs does. Other upper-case letters are kept as they are.
- Invitations.InvitationStore.AcceptInvitation: compares the e-mail addresses under Text.ToLower. Two addresses that differ only in the case of another non-ASCII letter (É and é) count as different, while Rust's `to_lowercase` makes them equal.
- Invitations.InvitationStore.DeclineInvitation: the same e-mail comparison as AcceptInvitation, with the same limit.
- Invitations.AcceptIgnoresCase: states case independence for the letters Text.ToLower folds, not for every Unicode letter.
- Tasks.RejectCompletionAndReverse: does not model `reverse_task_completion_rewards`. Its source is not part of this model, so the reward rows after a rejection are not stated. The source reverses the points before it deletes the completion; the two touch different tables, and the end state is the same.
- Tasks.CompleteTaskAndAward: when the streak query fails, the source returns the error after the completion is stored. Database errors are not modelled, so this path is not a case of the model.

## Findings

| source | as written | input that shows it | evidently intended | confidence | as-written member | corrected member |
|---|---|---|---|---|---|---|
| frontend/src/api/websocket.rs:61-73 | `schedule_reconnect` sets the state to Reconnecting before its timer calls `connect`, and `connect` returns at once in the Reconnecting state | a connection that opens and then closes: after the timer the client stays Reconnecting, with no socket and no timer | the timer's `connect` opens a new socket, retrying with doubling waits until five attempts | not executed | WsClient.AfterTimerAsWritten, WsClient.NeverReconnects, WsClient.NeverReconnectsExample | WsClient.AfterTimer, WsClient.ReconnectsAfterClose, WsClient.RetriesThenGivesUp |
| backend/src/services/punishments.rs:757-778 | a RandomChoice punishment that lists itself as an option can pick itself; the pick adds a unit to the user's row and then decrements or deletes that same row | a row of amount 1 whose punishment picks itself: the row is deleted while the result reports amount 2 | the original assignment is consumed and the picked punishment assigned, so the user keeps one unit | not executed | Punishments.PickAsWritten, Punishments.SelfPickIsLost | Punishments.Pick, Punishments.PickAgreesUnlessSelf |
| backend/src/services/points.rs:193 | `current_streak % threshold` for a Streak condition with threshold 0 | threshold 0 and a streak of 0 or more: the remainder panics | a zero threshold never gives a bonus | not executed | Points.StreakDueAsWritten, Points.ZeroThresholdPanics | Points.StreakDue, Points.StreakDueAgrees |
| backend/src/handlers/chat.rs:56 | `query.limit.unwrap_or(50).min(100)` caps the page size from above only, and SQLite reads a negative LIMIT as no limit | `limit=-1` for a household with more than 100 visible messages: every one of them comes back in one page | a page of 1 to 100 messages | not executed | Chat.NegativeLimitPassesCap | Chat.CappedPageLimit, Chat.CappedPageIsBounded |
