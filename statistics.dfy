/**
 * Weekly and monthly statistics: the bounds of a statistics week (which
 * starts on the household's chosen weekday) and of a calendar month, and
 * the per-member aggregation of finalised period results into expected and
 * successful counts, with a per-task breakdown.
 */
module Statistics {
  import opened Wrappers
  import opened Dates
  import opened Types
  import opened Query
  import opened PeriodResults

  // ---------------------------------------------------------------------
  // Week and month bounds

  /** Rust's % on integers: the remainder takes the sign of the dividend. */
  function TruncRem(a: int, b: int): (r: int)
    requires b > 0
    ensures a >= 0 ==> r == a % b
    ensures -b < r < b
    ensures a >= 0 ==> r >= 0
    ensures a < 0 ==> r <= 0
  {
    if a >= 0 then a % b else -((-a) % b)
  }

  /**
   * get_week_start: step back from date to the most recent day whose
   * Monday-based weekday number is weekStartDay (0 = Monday … 6 = Sunday).
   */
  function WeekStart(date: Date, weekStartDay: int): (r: Date)
    requires Valid(date)
    ensures Valid(r)
    ensures Ord(r) == Ord(date) - TruncRem(DaysFromMonday(date) - weekStartDay + 7, 7)
  {
    SubDays(date, TruncRem(DaysFromMonday(date) - weekStartDay + 7, 7))
  }

  /** For a start day 0..6, the week start is on that weekday, at most six days back. */
  lemma WeekStartProperties(date: Date, k: int)
    requires Valid(date) && 0 <= k <= 6
    ensures 0 <= Ord(date) - Ord(WeekStart(date, k)) < 7
    ensures DaysFromMonday(WeekStart(date, k)) == k
    ensures !LexLess(date, WeekStart(date, k))
  {
    var s := WeekStart(date, k);
    var n := Ord(date) - Ord(s);
    var c := DaysFromMonday(date);
    DaysForward(c, k);
    assert n == if c >= k then c - k else c - k + 7;
    WeekdayAfter(date, s, -n);
    LexIsOrd(date, s);
  }

  /** A date that already is the start day is its own week start. */
  lemma WeekStartOnStartDay(date: Date)
    requires Valid(date)
    ensures WeekStart(date, DaysFromMonday(date)) == date
  {
    OrdInjective(WeekStart(date, DaysFromMonday(date)), date);
  }

  /** get_week_end: six days after the week start. */
  function WeekEnd(weekStart: Date): (r: Date)
    requires Valid(weekStart)
    ensures Valid(r) && Ord(r) == Ord(weekStart) + 6
  {
    AddDays(weekStart, 6)
  }

  /** The week [WeekStart, WeekEnd] contains the date it was computed from. */
  lemma WeekContainsDate(date: Date, k: int)
    requires Valid(date) && 0 <= k <= 6
    ensures !LexLess(date, WeekStart(date, k)) && !LexLess(WeekEnd(WeekStart(date, k)), date)
  {
    WeekStartProperties(date, k);
    LexIsOrd(WeekEnd(WeekStart(date, k)), date);
  }

  /** get_month_start: the 1st of the date's month. */
  function MonthStart(date: Date): (r: Date)
    requires Valid(date)
    ensures Valid(r) && r.year == date.year && r.month == date.month && r.day == 1
    ensures Ord(date) - Ord(r) == date.day - 1
  {
    Date(date.year, date.month, 1)
  }

  /** get_month_end: the day before the 1st of the next month. */
  function MonthEnd(date: Date): (r: Date)
    requires Valid(date)
    ensures Valid(r)
    ensures r == Date(date.year, date.month, DaysInMonth(date.year, date.month))
  {
    var r := SubDays(NextMonthStart(date), 1);
    OrdInjective(r, Date(date.year, date.month, DaysInMonth(date.year, date.month)));
    r
  }

  lemma BoundsExamples()
    ensures MonthEnd(Date(2024, 1, 15)) == Date(2024, 1, 31)
    ensures MonthEnd(Date(2024, 2, 15)) == Date(2024, 2, 29)
    ensures MonthEnd(Date(2024, 12, 15)) == Date(2024, 12, 31)
    ensures MonthStart(Date(2024, 1, 15)) == Date(2024, 1, 1)
    ensures WeekEnd(Date(2024, 1, 8)) == Date(2024, 1, 14)
  {
    assert IsLeap(2024);
    AddDaysInMonth(Date(2024, 1, 8), 6);
  }

  // ---------------------------------------------------------------------
  // Aggregation

  /** One line of the per-task breakdown. */
  datatype TaskStatistics = TaskStatistics(taskId: Uuid, title: string, expected: int, completed: int)

  /** The statistics row of one member for one week or month. */
  datatype MemberStatistics = MemberStatistics(
    userId: Uuid,
    totalExpected: int,
    totalCompleted: int,
    tasks: seq<TaskStatistics>)

  /** The tasks query: not archived and assigned to the member. */
  predicate AssignedTo(t: Task, userId: Uuid)
  {
    !t.archived && t.assignedUserId == Some(userId)
  }

  function AssignedToOf(userId: Uuid): Task -> bool
  {
    (t: Task) => AssignedTo(t, userId)
  }

  /** Periods of the task finalised with a start inside [s, e]. */
  function Expected(t: Task, rows: seq<PeriodResult>, s: Date, e: Date): nat
  {
    Count(rows, InRangeOf(t.id, s, e))
  }

  /** Of those, the ones finalised as completed. */
  function CompletedCount(t: Task, rows: seq<PeriodResult>, s: Date, e: Date): nat
  {
    CountPeriodResults(rows, t.id, s, e).completed
  }

  /**
   * Successful periods: completed ones for a good habit; for a bad habit
   * (success means not doing it) the periods that were not completed.
   */
  function Successful(t: Task, rows: seq<PeriodResult>, s: Date, e: Date): (n: int)
    ensures 0 <= n <= Expected(t, rows, s, e)
    ensures t.habitType == Bad ==> n == Expected(t, rows, s, e) - CompletedCount(t, rows, s, e)
    ensures t.habitType == Good ==> n == CompletedCount(t, rows, s, e)
  {
    CompletedAtMostExpected(t, rows, s, e);
    if t.habitType == Bad then Expected(t, rows, s, e) - CompletedCount(t, rows, s, e)
    else CompletedCount(t, rows, s, e)
  }

  lemma CompletedAtMostExpected(t: Task, rows: seq<PeriodResult>, s: Date, e: Date)
    ensures CompletedCount(t, rows, s, e) <= Expected(t, rows, s, e)
  {
    CountMonotone(rows, InRangeWithOf(t.id, s, e, Completed), InRangeOf(t.id, s, e));
  }

  function SumExpected(ts: seq<Task>, rows: seq<PeriodResult>, s: Date, e: Date): int
  {
    if ts == [] then 0 else SumExpected(ts[..|ts| - 1], rows, s, e) + Expected(ts[|ts| - 1], rows, s, e)
  }

  function SumSuccessful(ts: seq<Task>, rows: seq<PeriodResult>, s: Date, e: Date): int
  {
    if ts == [] then 0 else SumSuccessful(ts[..|ts| - 1], rows, s, e) + Successful(ts[|ts| - 1], rows, s, e)
  }

  /** The breakdown lists, in task order, the tasks with at least one period. */
  function Breakdown(ts: seq<Task>, rows: seq<PeriodResult>, s: Date, e: Date): seq<TaskStatistics>
  {
    if ts == [] then []
    else
      var t := ts[|ts| - 1];
      Breakdown(ts[..|ts| - 1], rows, s, e)
      + (if Expected(t, rows, s, e) > 0
         then [TaskStatistics(t.id, t.title, Expected(t, rows, s, e), Successful(t, rows, s, e))]
         else [])
  }

  /** The statistics of one member; a member without assigned tasks gets none. */
  function MemberStats(userId: Uuid, tasks: seq<Task>, rows: seq<PeriodResult>, s: Date, e: Date): Option<MemberStatistics>
  {
    var mine := Filter(tasks, AssignedToOf(userId));
    if mine == [] then None
    else Some(MemberStatistics(userId, SumExpected(mine, rows, s, e), SumSuccessful(mine, rows, s, e),
                               Breakdown(mine, rows, s, e)))
  }

  /** The rows written for all members, in member order. */
  function AllStats(members: seq<Uuid>, tasks: seq<Task>, rows: seq<PeriodResult>, s: Date, e: Date): seq<MemberStatistics>
  {
    if members == [] then []
    else
      var m := members[|members| - 1];
      AllStats(members[..|members| - 1], tasks, rows, s, e)
      + (match MemberStats(m, tasks, rows, s, e) case Some(st) => [st] case None => [])
  }

  /** Successful never exceeds expected, in total either. */
  lemma {:induction false} TotalsBounded(ts: seq<Task>, rows: seq<PeriodResult>, s: Date, e: Date)
    ensures 0 <= SumSuccessful(ts, rows, s, e) <= SumExpected(ts, rows, s, e)
  {
    if ts != [] {
      TotalsBounded(ts[..|ts| - 1], rows, s, e);
    }
  }

  /** Every breakdown line has expected > 0 and comes from one of the tasks. */
  lemma {:induction false} BreakdownLines(ts: seq<Task>, rows: seq<PeriodResult>, s: Date, e: Date)
    ensures forall i :: 0 <= i < |Breakdown(ts, rows, s, e)| ==>
      var b := Breakdown(ts, rows, s, e)[i];
      0 < b.expected && 0 <= b.completed <= b.expected
      && exists j :: 0 <= j < |ts| && ts[j].id == b.taskId && ts[j].title == b.title
  {
    if ts != [] {
      var init := ts[..|ts| - 1];
      BreakdownLines(init, rows, s, e);
      var b := Breakdown(ts, rows, s, e);
      forall i | 0 <= i < |b|
        ensures 0 < b[i].expected && 0 <= b[i].completed <= b[i].expected
        ensures exists j :: 0 <= j < |ts| && ts[j].id == b[i].taskId && ts[j].title == b[i].title
      {
        if i < |Breakdown(init, rows, s, e)| {
          var j :| 0 <= j < |init| && init[j].id == b[i].taskId && init[j].title == b[i].title;
          assert ts[j] == init[j];
        } else {
          assert ts[|ts| - 1].id == b[i].taskId;
        }
      }
    }
  }

  /** The breakdown's counts add up to the totals (tasks without periods add nothing). */
  lemma {:induction false} BreakdownSums(ts: seq<Task>, rows: seq<PeriodResult>, s: Date, e: Date)
    ensures SumOfExpected(Breakdown(ts, rows, s, e)) == SumExpected(ts, rows, s, e)
    ensures SumOfCompleted(Breakdown(ts, rows, s, e)) == SumSuccessful(ts, rows, s, e)
  {
    if ts != [] {
      var init := ts[..|ts| - 1];
      BreakdownSums(init, rows, s, e);
      var t := ts[|ts| - 1];
      var tail := if Expected(t, rows, s, e) > 0
         then [TaskStatistics(t.id, t.title, Expected(t, rows, s, e), Successful(t, rows, s, e))]
         else [];
      SumsAppend(Breakdown(init, rows, s, e), tail);
    }
  }

  function SumOfExpected(b: seq<TaskStatistics>): int
  {
    if b == [] then 0 else SumOfExpected(b[..|b| - 1]) + b[|b| - 1].expected
  }

  function SumOfCompleted(b: seq<TaskStatistics>): int
  {
    if b == [] then 0 else SumOfCompleted(b[..|b| - 1]) + b[|b| - 1].completed
  }

  lemma SumsAppend(a: seq<TaskStatistics>, t: seq<TaskStatistics>)
    requires |t| <= 1
    ensures SumOfExpected(a + t) == SumOfExpected(a) + SumOfExpected(t)
    ensures SumOfCompleted(a + t) == SumOfCompleted(a) + SumOfCompleted(t)
  {
    if |t| == 1 {
      assert (a + t)[..|a + t| - 1] == a;
    } else {
      assert a + t == a;
    }
  }

  /** Only members with assigned tasks get a row, and each row's totals are bounded. */
  lemma {:induction false} AllStatsRows(members: seq<Uuid>, tasks: seq<Task>, rows: seq<PeriodResult>, s: Date, e: Date)
    ensures forall i :: 0 <= i < |AllStats(members, tasks, rows, s, e)| ==>
      var st := AllStats(members, tasks, rows, s, e)[i];
      st.userId in members
      && (exists j :: 0 <= j < |tasks| && AssignedTo(tasks[j], st.userId))
      && 0 <= st.totalCompleted <= st.totalExpected
  {
    if members != [] {
      var init := members[..|members| - 1];
      AllStatsRows(init, tasks, rows, s, e);
      var m := members[|members| - 1];
      var out := AllStats(members, tasks, rows, s, e);
      forall i | 0 <= i < |out|
        ensures out[i].userId in members
        ensures exists j :: 0 <= j < |tasks| && AssignedTo(tasks[j], out[i].userId)
        ensures 0 <= out[i].totalCompleted <= out[i].totalExpected
      {
        if i >= |AllStats(init, tasks, rows, s, e)| {
          var mine := Filter(tasks, AssignedToOf(m));
          assert mine != [] && mine[0] in tasks && AssignedTo(mine[0], m);
          TotalsBounded(mine, rows, s, e);
        }
      }
    }
  }

  /** A member with an assigned task gets a row. */
  lemma MemberWithTaskHasRow(userId: Uuid, tasks: seq<Task>, rows: seq<PeriodResult>, s: Date, e: Date, j: nat)
    requires j < |tasks| && AssignedTo(tasks[j], userId)
    ensures MemberStats(userId, tasks, rows, s, e).Some?
  {
    assert tasks[j] in Filter(tasks, AssignedToOf(userId));
  }

  lemma TaskStep(ts: seq<Task>, k: nat, rows: seq<PeriodResult>, s: Date, e: Date)
    requires k < |ts|
    ensures SumExpected(ts[..k + 1], rows, s, e) == SumExpected(ts[..k], rows, s, e) + Expected(ts[k], rows, s, e)
    ensures SumSuccessful(ts[..k + 1], rows, s, e) == SumSuccessful(ts[..k], rows, s, e) + Successful(ts[k], rows, s, e)
    ensures Breakdown(ts[..k + 1], rows, s, e) == Breakdown(ts[..k], rows, s, e)
      + (if Expected(ts[k], rows, s, e) > 0
         then [TaskStatistics(ts[k].id, ts[k].title, Expected(ts[k], rows, s, e), Successful(ts[k], rows, s, e))]
         else [])
  {
    assert ts[..k + 1][..k] == ts[..k];
  }

  lemma MemberStep(ms: seq<Uuid>, i: nat, tasks: seq<Task>, rows: seq<PeriodResult>, s: Date, e: Date)
    requires i < |ms|
    ensures AllStats(ms[..i + 1], tasks, rows, s, e) == AllStats(ms[..i], tasks, rows, s, e)
      + (match MemberStats(ms[i], tasks, rows, s, e) case Some(st) => [st] case None => [])
  {
    assert ms[..i + 1][..i] == ms[..i];
  }

  /**
   * The inner loop of calculate_weekly_statistics and
   * calculate_monthly_statistics over one member's tasks: add up expected
   * and successful periods and collect the breakdown lines.
   */
  method MemberTotals(mine: seq<Task>, rows: seq<PeriodResult>, s: Date, e: Date)
    returns (totalExpected: int, totalCompleted: int, taskStats: seq<TaskStatistics>)
    ensures totalExpected == SumExpected(mine, rows, s, e)
    ensures totalCompleted == SumSuccessful(mine, rows, s, e)
    ensures taskStats == Breakdown(mine, rows, s, e)
  {
    totalExpected := 0;
    totalCompleted := 0;
    taskStats := [];
    var k := 0;
    while k < |mine|
      invariant 0 <= k <= |mine|
      invariant totalExpected == SumExpected(mine[..k], rows, s, e)
      invariant totalCompleted == SumSuccessful(mine[..k], rows, s, e)
      invariant taskStats == Breakdown(mine[..k], rows, s, e)
    {
      var t := mine[k];
      var expected: int := Expected(t, rows, s, e);
      var completed: int := CompletedCount(t, rows, s, e);
      var successful: int := if t.habitType == Bad then expected - completed else completed;
      assert successful == Successful(t, rows, s, e);
      TaskStep(mine, k, rows, s, e);
      totalExpected := totalExpected + expected;
      totalCompleted := totalCompleted + successful;
      if expected > 0 {
        taskStats := taskStats + [TaskStatistics(t.id, t.title, expected, successful)];
      }
      k := k + 1;
    }
    assert mine[..k] == mine;
  }

  /**
   * The outer loop of calculate_weekly_statistics and
   * calculate_monthly_statistics: members without assigned tasks are
   * skipped; every other member gets one statistics row, in member order.
   */
  method CalculateStatistics(members: seq<Uuid>, tasks: seq<Task>, rows: seq<PeriodResult>, s: Date, e: Date)
    returns (out: seq<MemberStatistics>)
    ensures out == AllStats(members, tasks, rows, s, e)
  {
    out := [];
    var i := 0;
    while i < |members|
      invariant 0 <= i <= |members|
      invariant out == AllStats(members[..i], tasks, rows, s, e)
    {
      var userId := members[i];
      var mine := Filter(tasks, AssignedToOf(userId));
      if mine != [] {
        var totalExpected, totalCompleted, taskStats := MemberTotals(mine, rows, s, e);
        out := out + [MemberStatistics(userId, totalExpected, totalCompleted, taskStats)];
      }
      MemberStep(members, i, tasks, rows, s, e);
      i := i + 1;
    }
    assert members[..i] == members;
  }

  /** calculate_weekly_statistics: the week from weekStart to WeekEnd(weekStart). */
  method CalculateWeeklyStatistics(members: seq<Uuid>, tasks: seq<Task>, rows: seq<PeriodResult>, weekStart: Date)
    returns (out: seq<MemberStatistics>)
    requires Valid(weekStart)
    ensures out == AllStats(members, tasks, rows, weekStart, WeekEnd(weekStart))
  {
    out := CalculateStatistics(members, tasks, rows, weekStart, WeekEnd(weekStart));
  }

  /** calculate_monthly_statistics: the calendar month of the given date. */
  method CalculateMonthlyStatistics(members: seq<Uuid>, tasks: seq<Task>, rows: seq<PeriodResult>, month: Date)
    returns (out: seq<MemberStatistics>)
    requires Valid(month)
    ensures out == AllStats(members, tasks, rows, MonthStart(month), MonthEnd(month))
  {
    out := CalculateStatistics(members, tasks, rows, MonthStart(month), MonthEnd(month));
  }
}
