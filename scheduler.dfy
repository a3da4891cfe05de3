/**
 * The recurrence engine: whether a task is due on a date, its previous and
 * next due dates, the period over which its completions are counted, and
 * whether it is overdue. Local dates and times are parameters; converting
 * instants into a household's time zone is not part of this model.
 */
module Scheduler {
  import opened Wrappers
  import opened Dates
  import opened Text
  import opened Types

  // ---------------------------------------------------------------------
  // Weekday numbering (Sunday = 0 … Saturday = 6)

  /** weekday_from_u8: any byte outside 0..6 falls back to Monday. */
  function WeekdayFromU8(day: int): Weekday
  {
    match day
    case 0 => Sun case 1 => Mon case 2 => Tue case 3 => Wed case 4 => Thu case 5 => Fri case 6 => Sat
    case _ => Mon
  }

  function WeekdayToU8(w: Weekday): int
  {
    match w
    case Sun => 0 case Mon => 1 case Tue => 2 case Wed => 3 case Thu => 4 case Fri => 5 case Sat => 6
  }

  /** The two conversions are inverse on 0..6, and weekday_to_u8 is num_days_from_sunday. */
  lemma WeekdayU8RoundTrip(n: int, w: Weekday)
    ensures 0 <= n <= 6 ==> WeekdayToU8(WeekdayFromU8(n)) == n
    ensures !(0 <= n <= 6) ==> WeekdayFromU8(n) == Mon
    ensures WeekdayFromU8(WeekdayToU8(w)) == w
    ensures WeekdayToU8(w) == w.NumDaysFromSunday()
  {
  }

  /** get_last_day_of_month: the day before the first of the following month. */
  function LastDayOfMonth(d: Date): (n: int)
    requires Valid(d)
    ensures 28 <= n <= 31 && n == DaysInMonth(d.year, d.month)
    ensures Valid(Date(d.year, d.month, n)) && !Valid(Date(d.year, d.month, n + 1))
  {
    var next := if d.month == 12 then Date(d.year + 1, 1, 1) else Date(d.year, d.month + 1, 1);
    Pred(next).day
  }

  lemma LastDayExamples()
    ensures LastDayOfMonth(Date(2024, 2, 1)) == 29
    ensures LastDayOfMonth(Date(2023, 2, 1)) == 28
    ensures LastDayOfMonth(Date(2024, 12, 15)) == 31
  {
    assert IsLeap(2024) && !IsLeap(2023);
  }

  function Min(a: int, b: int): int
  {
    if a <= b then a else b
  }

  // ---------------------------------------------------------------------
  // Recurrence parameters with their defaults

  /** The weekday list of a Weekdays task; Monday to Friday when none is set. */
  function WeekdaysOf(task: Task): seq<int>
  {
    match task.recurrenceValue
    case Some(WeekdaysValue(ds)) => ds
    case _ => [1, 2, 3, 4, 5]
  }

  /** The day of month of a Monthly task; the creation day when none is set. */
  function MonthlyTargetDay(task: Task): int
  {
    match task.recurrenceValue
    case Some(MonthDayValue(d)) => d
    case _ => DateOfInstant(task.createdAt).day
  }

  /** The weekday of a Weekly task; the date's own weekday when none is set. */
  function WeeklyTarget(task: Task, date: Date): Weekday
    requires Valid(date)
  {
    match task.recurrenceValue
    case Some(WeekDayValue(d)) => WeekdayFromU8(d)
    case _ => WeekdayOf(date)
  }

  predicate OnWeekdays(d: Date, ds: seq<int>)
    requires Valid(d)
  {
    WeekdayToU8(WeekdayOf(d)) in ds
  }

  /** Some entry of the list names a real weekday. */
  predicate HasWeekday(ds: seq<int>)
  {
    exists i :: 0 <= i < |ds| && 0 <= ds[i] <= 6
  }

  // ---------------------------------------------------------------------
  // Due dates

  /** is_task_due_on_date. */
  predicate IsTaskDueOnDate(task: Task, date: Date)
    requires Valid(date)
  {
    match task.recurrenceType
    case OneTime => true
    case Daily => true
    case Weekly => WeekdayOf(date) == WeeklyTarget(task, date)
    case Monthly => date.day == Min(MonthlyTargetDay(task), LastDayOfMonth(date))
    case Weekdays => OnWeekdays(date, WeekdaysOf(task))
    case Custom =>
      (match task.recurrenceValue
       case Some(CustomDatesValue(ds)) => date in ds
       case _ => false)
  }

  /**
   * The due rules: OneTime and Daily tasks are always due; a Weekly task on
   * its weekday; a Monthly task on its day, clipped to the month's last day;
   * a Weekdays task on the listed Sunday-based weekday numbers; a Custom task
   * exactly on its listed dates and never without a list.
   */
  lemma DueRules(task: Task, date: Date)
    requires Valid(date)
    ensures task.recurrenceType in {OneTime, Daily} ==> IsTaskDueOnDate(task, date)
    ensures task.recurrenceType == Weekly && task.recurrenceValue.Some? && task.recurrenceValue.value.WeekDayValue? ==>
      var n := task.recurrenceValue.value.weekday;
      (IsTaskDueOnDate(task, date) <==> DaysFromSunday(date) == (if 0 <= n <= 6 then n else 1))
    ensures task.recurrenceType == Weekly && !(task.recurrenceValue.Some? && task.recurrenceValue.value.WeekDayValue?) ==>
      IsTaskDueOnDate(task, date)
    ensures task.recurrenceType == Monthly ==>
      (IsTaskDueOnDate(task, date) <==> date.day == Min(MonthlyTargetDay(task), DaysInMonth(date.year, date.month)))
    ensures task.recurrenceType == Weekdays ==>
      (IsTaskDueOnDate(task, date) <==> DaysFromSunday(date) in WeekdaysOf(task))
    ensures task.recurrenceType == Weekdays && task.recurrenceValue.None? ==>
      (IsTaskDueOnDate(task, date) <==> 1 <= DaysFromSunday(date) <= 5)
    ensures task.recurrenceType == Custom ==>
      (IsTaskDueOnDate(task, date) <==>
        task.recurrenceValue.Some? && task.recurrenceValue.value.CustomDatesValue? && date in task.recurrenceValue.value.dates)
  {
    var w := WeekdayOf(date);
    WeekdayU8RoundTrip(if task.recurrenceValue.Some? && task.recurrenceValue.value.WeekDayValue? then task.recurrenceValue.value.weekday else 0, w);
    if task.recurrenceType == Weekly && task.recurrenceValue.Some? && task.recurrenceValue.value.WeekDayValue? {
      var n := task.recurrenceValue.value.weekday;
      var t := WeekdayFromU8(n);
      WeekdayU8RoundTrip(n, t);
      assert WeekdayOf(date) == t <==> w.NumDaysFromSunday() == t.NumDaysFromSunday();
    }
  }

  /** 2024-01-15 is a Monday. */
  lemma WeekdayExample()
    ensures WeekdayOf(Date(2024, 1, 15)) == Mon
  {
    DaysBeforeYearClosed(2024);
    assert LeapsThrough(2023) == 490 && LeapsThrough(1969) == 477;
    assert Ord(Date(2024, 1, 15)) == 19737;
    WeekIndexMod(19737);
  }

  /** A day-31 Monthly task falls on 2024-02-29 but not 2024-02-28, and on April 30 but not May 30. */
  lemma MonthlyClipExamples(task: Task)
    requires task.recurrenceType == Monthly && task.recurrenceValue == Some(MonthDayValue(31))
    ensures IsTaskDueOnDate(task, Date(2024, 2, 29))
    ensures !IsTaskDueOnDate(task, Date(2024, 2, 28))
    ensures IsTaskDueOnDate(task, Date(2024, 4, 30)) && !IsTaskDueOnDate(task, Date(2024, 5, 30))
  {
    assert IsLeap(2024);
  }

  // ---------------------------------------------------------------------
  // Custom date lists

  /** The greatest listed date strictly before c (iter().filter(< c).max()). */
  function LatestBefore(ds: seq<Date>, c: Date): (r: Option<Date>)
    ensures r.Some? ==> r.value in ds && LexLess(r.value, c)
    ensures r.Some? ==> forall d :: d in ds && LexLess(d, c) ==> d == r.value || LexLess(d, r.value)
    ensures r.None? ==> forall d :: d in ds ==> !LexLess(d, c)
  {
    if ds == [] then None
    else
      var rest := LatestBefore(ds[1..], c);
      assert forall d :: d in ds ==> d == ds[0] || d in ds[1..];
      if !LexLess(ds[0], c) then rest
      else if rest.None? then Some(ds[0])
      else
        LexTotal(rest.value, ds[0]);
        if LexLess(rest.value, ds[0]) then
          assert forall d :: d in ds[1..] && LexLess(d, c) && d != rest.value ==> LexLess(d, ds[0]) by {
            forall d | d in ds[1..] && LexLess(d, c) && d != rest.value ensures LexLess(d, ds[0]) {
              LexTransitive(d, rest.value, ds[0]);
            }
          }
          Some(ds[0])
        else rest
  }

  /** The least listed date on or after f (iter().filter(>= f).min()). */
  function EarliestFrom(ds: seq<Date>, f: Date): (r: Option<Date>)
    ensures r.Some? ==> r.value in ds && !LexLess(r.value, f)
    ensures r.Some? ==> forall d :: d in ds && !LexLess(d, f) ==> d == r.value || LexLess(r.value, d)
    ensures r.None? ==> forall d :: d in ds ==> LexLess(d, f)
  {
    if ds == [] then None
    else
      var rest := EarliestFrom(ds[1..], f);
      assert forall d :: d in ds ==> d == ds[0] || d in ds[1..];
      if LexLess(ds[0], f) then rest
      else if rest.None? then Some(ds[0])
      else
        LexTotal(rest.value, ds[0]);
        if LexLess(ds[0], rest.value) then
          assert forall d :: d in ds[1..] && !LexLess(d, f) && d != rest.value ==> LexLess(ds[0], d) by {
            forall d | d in ds[1..] && !LexLess(d, f) && d != rest.value ensures LexLess(ds[0], d) {
              LexTransitive(ds[0], rest.value, d);
            }
          }
          Some(ds[0])
        else rest
  }

  // ---------------------------------------------------------------------
  // Weekday scans (the two loops of the source)

  /** Among 7 consecutive days every weekday occurs: the one k days back is w. */
  lemma WeekCoversBack(c: Date, w: int) returns (k: int)
    requires Valid(c) && 0 <= w <= 6
    ensures 1 <= k <= 7 && DaysFromSunday(SubDays(c, k)) == w
  {
    var x := DaysFromSunday(c);
    k := if x > w then x - w else x - w + 7;
    WeekdayAfter(c, SubDays(c, k), -k);
  }

  lemma WeekCoversForward(f: Date, w: int) returns (k: int)
    requires Valid(f) && 0 <= w <= 6
    ensures 0 <= k <= 6 && DaysFromSunday(AddDays(f, k)) == w
  {
    var x := DaysFromSunday(f);
    k := if w >= x then w - x else w - x + 7;
    WeekdayAfter(f, AddDays(f, k), k);
  }

  /** A list that names a weekday has a day on it among the 7 days before c. */
  lemma WeekdayBack(c: Date, ds: seq<int>)
    requires Valid(c)
    ensures HasWeekday(ds) ==> exists k :: 1 <= k <= 7 && OnWeekdays(SubDays(c, k), ds)
  {
    if HasWeekday(ds) {
      var i :| 0 <= i < |ds| && 0 <= ds[i] <= 6;
      var k := WeekCoversBack(c, ds[i]);
      WeekdayU8RoundTrip(0, WeekdayOf(SubDays(c, k)));
      assert OnWeekdays(SubDays(c, k), ds);
    }
  }

  /** A list that names a weekday has a day on it among f and the 6 days after it. */
  lemma WeekdayForward(f: Date, ds: seq<int>)
    requires Valid(f)
    ensures HasWeekday(ds) ==> exists k :: 0 <= k < 7 && OnWeekdays(AddDays(f, k), ds)
  {
    if HasWeekday(ds) {
      var i :| 0 <= i < |ds| && 0 <= ds[i] <= 6;
      var k := WeekCoversForward(f, ds[i]);
      WeekdayU8RoundTrip(0, WeekdayOf(AddDays(f, k)));
      assert OnWeekdays(AddDays(f, k), ds);
    }
  }

  /** One more day of the backward scan found nothing. */
  lemma BackStep(current: Date, ds: seq<int>, i: int, check: Date)
    requires Valid(current) && Valid(check) && Ord(check) == Ord(current) - (i + 1)
    requires !OnWeekdays(check, ds)
    requires forall k :: 1 <= k <= i ==> !OnWeekdays(SubDays(current, k), ds)
    ensures forall k :: 1 <= k <= i + 1 ==> !OnWeekdays(SubDays(current, k), ds)
  {
    forall k | 1 <= k <= i + 1 ensures !OnWeekdays(SubDays(current, k), ds) {
      if k == i + 1 {
        OrdInjective(check, SubDays(current, k));
      }
    }
  }

  /**
   * The scan of the Weekdays branch of get_previous_due_date from k days
   * back: the first of the days k to 7 back that is on a listed weekday,
   * or the day before current when none is.
   */
  function PreviousWeekdayFrom(current: Date, ds: seq<int>, k: nat): (r: Date)
    requires Valid(current) && 1 <= k <= 8
    ensures Valid(r) && Ord(r) < Ord(current)
    decreases 8 - k
  {
    if k == 8 then SubDays(current, 1)
    else if OnWeekdays(SubDays(current, k), ds) then SubDays(current, k)
    else PreviousWeekdayFrom(current, ds, k + 1)
  }

  /** The Weekdays branch of get_previous_due_date: scan the 7 days before current. */
  method PreviousWeekdaysDate(current: Date, ds: seq<int>) returns (r: Date)
    requires Valid(current)
    ensures r == PreviousWeekdayFrom(current, ds, 1)
    ensures Valid(r) && 1 <= Ord(current) - Ord(r) <= 7
    ensures OnWeekdays(r, ds) ==>
      forall k :: 1 <= k < Ord(current) - Ord(r) ==> !OnWeekdays(SubDays(current, k), ds)
    ensures !OnWeekdays(r, ds) ==> Ord(r) == Ord(current) - 1 && !HasWeekday(ds)
  {
    var check := SubDays(current, 1);
    for i := 0 to 7
      invariant Valid(check) && Ord(check) == Ord(current) - (i + 1)
      invariant check == SubDays(current, i + 1)
      invariant forall k :: 1 <= k <= i ==> !OnWeekdays(SubDays(current, k), ds)
      invariant PreviousWeekdayFrom(current, ds, 1) == PreviousWeekdayFrom(current, ds, i + 1)
    {
      if WeekdayToU8(WeekdayOf(check)) in ds {
        return check;
      }
      BackStep(current, ds, i, check);
      OrdInjective(SubDays(check, 1), SubDays(current, i + 2));
      check := SubDays(check, 1);
    }
    WeekdayBack(current, ds);
    r := SubDays(current, 1);
    assert Ord(current) - Ord(r) == 1;
  }

  /** One more day of the forward scan found nothing. */
  lemma ForwardStep(from: Date, ds: seq<int>, i: int)
    requires Valid(from) && !OnWeekdays(AddDays(from, i), ds)
    requires forall k :: 0 <= k < i ==> !OnWeekdays(AddDays(from, k), ds)
    ensures forall k :: 0 <= k < i + 1 ==> !OnWeekdays(AddDays(from, k), ds)
  {
    forall k | 0 <= k < i + 1 ensures !OnWeekdays(AddDays(from, k), ds) {
      if k == i {
        assert AddDays(from, k) == AddDays(from, i);
      }
    }
  }

  /** The Weekdays branch of get_next_due_date: scan from_date and the 6 days after it. */
  method NextWeekdaysDate(from: Date, ds: seq<int>) returns (r: Date)
    requires Valid(from)
    ensures Valid(r) && 0 <= Ord(r) - Ord(from) <= 6
    ensures OnWeekdays(r, ds) ==>
      forall k :: 0 <= k < Ord(r) - Ord(from) ==> !OnWeekdays(AddDays(from, k), ds)
    ensures !OnWeekdays(r, ds) ==> r == from && !HasWeekday(ds)
  {
    for i := 0 to 7
      invariant forall k :: 0 <= k < i ==> !OnWeekdays(AddDays(from, k), ds)
    {
      var check := AddDays(from, i);
      if WeekdayToU8(WeekdayOf(check)) in ds {
        return check;
      }
      ForwardStep(from, ds, i);
    }
    r := from;
    WeekdayForward(from, ds);
    assert !OnWeekdays(AddDays(from, 0), ds);
  }

  // ---------------------------------------------------------------------
  // Previous due date

  /** The Monthly branch of get_previous_due_date: the target day in the previous month. */
  function PreviousMonthly(task: Task, current: Date): (r: Date)
    requires Valid(current)
    ensures Valid(r) && r.year == PrevMonthStart(current).year && r.month == PrevMonthStart(current).month
    ensures MonthlyTargetDay(task) >= 1 ==> r.day == Min(MonthlyTargetDay(task), DaysInMonth(r.year, r.month))
    ensures MonthlyTargetDay(task) < 1 ==> r.day == 1
  {
    var prev := PrevMonthStart(current);
    var effective := Min(MonthlyTargetDay(task), LastDayOfMonth(prev));
    match FromYmd(prev.year, prev.month, effective)
    case Some(d) => d
    case None => prev
  }

  /** get_previous_due_date, as a function of the task and the date. */
  function PreviousDue(task: Task, current: Date): (r: Date)
    requires Valid(current) && TaskValid(task)
    ensures Valid(r) && Ord(r) < Ord(current)
  {
    match task.recurrenceType
    case OneTime => AddDays(current, -1)
    case Daily => AddDays(current, -1)
    case Weekly => AddDays(current, -7)
    case Monthly => PreviousMonthly(task, current)
    case Weekdays => PreviousWeekdayFrom(current, WeekdaysOf(task), 1)
    case Custom =>
      match task.recurrenceValue
      case Some(CustomDatesValue(ds)) =>
        (match LatestBefore(ds, current)
         case Some(d) =>
           LexIsOrd(d, current);
           d
         case None => AddDays(current, -1))
      case _ => AddDays(current, -1)
  }

  /** get_previous_due_date. */
  method PreviousDueDate(task: Task, current: Date) returns (r: Date)
    requires Valid(current) && TaskValid(task)
    ensures r == PreviousDue(task, current)
    ensures Valid(r) && Ord(r) < Ord(current)
    ensures task.recurrenceType in {OneTime, Daily} ==> Ord(r) == Ord(current) - 1
    ensures task.recurrenceType == Weekly ==> Ord(r) == Ord(current) - 7 && WeekdayOf(r) == WeekdayOf(current)
    ensures task.recurrenceType == Monthly ==> r == PreviousMonthly(task, current)
    ensures task.recurrenceType == Monthly && MonthlyTargetDay(task) >= 1 ==> IsTaskDueOnDate(task, r)
    ensures task.recurrenceType == Weekdays ==> 1 <= Ord(current) - Ord(r) <= 7
    ensures task.recurrenceType == Weekdays && HasWeekday(WeekdaysOf(task)) ==>
      IsTaskDueOnDate(task, r) &&
      forall k :: 1 <= k < Ord(current) - Ord(r) ==> !IsTaskDueOnDate(task, SubDays(current, k))
    ensures task.recurrenceType == Weekdays && !HasWeekday(WeekdaysOf(task)) ==> Ord(r) == Ord(current) - 1
    ensures task.recurrenceType == Custom ==>
      match task.recurrenceValue
      case Some(CustomDatesValue(ds)) =>
        (exists d :: d in ds && LexLess(d, current)) ==>
          r in ds && LexLess(r, current) && forall d :: d in ds && LexLess(d, current) ==> !LexLess(r, d)
      case _ => true
    ensures task.recurrenceType == Custom && !(exists d :: CustomDates(task, d) && LexLess(d, current)) ==>
      Ord(r) == Ord(current) - 1
  {
    match task.recurrenceType
    case OneTime =>
      r := AddDays(current, -1);
    case Daily =>
      r := AddDays(current, -1);
    case Weekly =>
      r := PreviousWeekly(task, current);
    case Monthly =>
      r := PreviousMonthly(task, current);
      LexIsOrd(r, current);
    case Weekdays =>
      r := PreviousWeekdaysDate(current, WeekdaysOf(task));
    case Custom =>
      r := PreviousCustom(task, current);
  }

  /** The Weekly case of get_previous_due_date: a week back, on the same weekday. */
  method PreviousWeekly(task: Task, current: Date) returns (r: Date)
    requires Valid(current) && TaskValid(task) && task.recurrenceType == Weekly
    ensures r == PreviousDue(task, current)
    ensures Valid(r) && Ord(r) == Ord(current) - 7 && WeekdayOf(r) == WeekdayOf(current)
  {
    WeekdayAfter(current, AddDays(current, -7), -7);
    r := AddDays(current, -7);
    WeekdayNumberInjective(WeekdayOf(r), WeekdayOf(current));
  }

  /** The Custom case of get_previous_due_date: the latest listed date before current, else the day before. */
  method PreviousCustom(task: Task, current: Date) returns (r: Date)
    requires Valid(current) && TaskValid(task) && task.recurrenceType == Custom
    ensures r == PreviousDue(task, current)
    ensures Valid(r) && Ord(r) < Ord(current)
    ensures match task.recurrenceValue
      case Some(CustomDatesValue(ds)) =>
        (exists d :: d in ds && LexLess(d, current)) ==>
          r in ds && LexLess(r, current) && forall d :: d in ds && LexLess(d, current) ==> !LexLess(r, d)
      case _ => true
    ensures !(exists d :: CustomDates(task, d) && LexLess(d, current)) ==> Ord(r) == Ord(current) - 1
  {
    match task.recurrenceValue {
      case Some(CustomDatesValue(ds)) =>
        var latest := LatestBefore(ds, current);
        if latest.Some? {
          r := latest.value;
          forall d | d in ds && LexLess(d, current) ensures !LexLess(r, d) {
            LexTotal(r, d);
          }
          LexIsOrd(r, current);
        } else {
          r := AddDays(current, -1);
        }
      case _ =>
        r := AddDays(current, -1);
    }
  }

  /** d is one of the task's custom dates. */
  predicate CustomDates(task: Task, d: Date)
  {
    task.recurrenceValue.Some? && task.recurrenceValue.value.CustomDatesValue? && d in task.recurrenceValue.value.dates
  }

  // ---------------------------------------------------------------------
  // Next due date

  /** r is the first date on or after from on which the task is due. */
  predicate FirstDueFrom(task: Task, from: Date, r: Date)
    requires Valid(from)
  {
    Valid(r) && Ord(from) <= Ord(r) && IsTaskDueOnDate(task, r)
    && forall k :: 0 <= k < Ord(r) - Ord(from) ==> !IsTaskDueOnDate(task, AddDays(from, k))
  }

  /** The Weekly branch of get_next_due_date. */
  function NextWeekly(task: Task, from: Date): (r: Date)
    requires Valid(from)
    ensures Valid(r) && 0 <= Ord(r) - Ord(from) <= 6
    ensures WeekdayOf(r) == WeeklyTarget(task, from)
    ensures Ord(r) - Ord(from) ==
      if WeeklyTarget(task, from).NumDaysFromSunday() >= WeekdayOf(from).NumDaysFromSunday()
      then WeeklyTarget(task, from).NumDaysFromSunday() - WeekdayOf(from).NumDaysFromSunday()
      else WeeklyTarget(task, from).NumDaysFromSunday() - WeekdayOf(from).NumDaysFromSunday() + 7
  {
    var target := WeeklyTarget(task, from);
    var t, c := target.NumDaysFromSunday(), WeekdayOf(from).NumDaysFromSunday();
    DaysForward(t, c);
    var daysUntil := (t - c + 7) % 7;
    WeekdayAfter(from, AddDays(from, daysUntil), daysUntil);
    WeekdayNumberInjective(WeekdayOf(AddDays(from, daysUntil)), target);
    WeekdayNumberInjective(WeekdayOf(from), target);
    if daysUntil == 0 then from else AddDays(from, daysUntil)
  }

  lemma {:induction false} NextWeeklyFirst(task: Task, from: Date)
    requires Valid(from) && task.recurrenceType == Weekly
    ensures FirstDueFrom(task, from, NextWeekly(task, from))
  {
    var r := NextWeekly(task, from);
    var target := WeeklyTarget(task, from);
    if task.recurrenceValue.Some? && task.recurrenceValue.value.WeekDayValue? {
      var t, c := target.NumDaysFromSunday(), WeekdayOf(from).NumDaysFromSunday();
      var n := Ord(r) - Ord(from);
      forall k | 0 <= k < n ensures !IsTaskDueOnDate(task, AddDays(from, k)) {
        WeekdayAfter(from, AddDays(from, k), k);
        var d := AddDays(from, k);
        assert DaysFromSunday(d) != t;
        assert WeeklyTarget(task, d) == target;
      }
      assert WeeklyTarget(task, r) == target;
    } else {
      assert r == from;
    }
  }

  /** The Monthly branch of get_next_due_date: this month's target day if not passed, else next month's. */
  function NextMonthly(task: Task, from: Date): (r: Option<Date>)
    requires Valid(from)
    ensures r.None? <==> MonthlyTargetDay(task) < 1
    ensures r.Some? ==> Valid(r.value) && Ord(from) <= Ord(r.value)
  {
    var target := MonthlyTargetDay(task);
    var effectiveThis := Min(target, LastDayOfMonth(from));
    if from.day <= effectiveThis then
      LexIsOrd(from, Date(from.year, from.month, effectiveThis));
      FromYmd(from.year, from.month, effectiveThis)
    else
      var next := NextMonthStart(from);
      var effectiveNext := Min(target, LastDayOfMonth(next));
      var r := FromYmd(next.year, next.month, effectiveNext);
      if r.Some? then
        AddDaysIntoNextMonth(from, DaysInMonth(from.year, from.month) - from.day + effectiveNext);
        r
      else r
  }

  /** The target day of from's own month has not passed: it is the first due day. */
  lemma NextMonthlyThisMonth(task: Task, from: Date)
    requires Valid(from) && task.recurrenceType == Monthly && MonthlyTargetDay(task) >= 1
    requires from.day <= Min(MonthlyTargetDay(task), DaysInMonth(from.year, from.month))
    ensures FirstDueFrom(task, from, NextMonthly(task, from).value)
  {
    var r := NextMonthly(task, from).value;
    var effectiveThis := Min(MonthlyTargetDay(task), DaysInMonth(from.year, from.month));
    AddDaysInMonth(from, effectiveThis - from.day);
    forall k | 0 <= k < Ord(r) - Ord(from) ensures !IsTaskDueOnDate(task, AddDays(from, k)) {
      AddDaysInMonth(from, k);
    }
  }

  /** The target day of from's month has passed: next month's target day is the first due day. */
  lemma NextMonthlyNextMonth(task: Task, from: Date)
    requires Valid(from) && task.recurrenceType == Monthly && MonthlyTargetDay(task) >= 1
    requires from.day > Min(MonthlyTargetDay(task), DaysInMonth(from.year, from.month))
    ensures FirstDueFrom(task, from, NextMonthly(task, from).value)
  {
    var r := NextMonthly(task, from).value;
    var target := MonthlyTargetDay(task);
    var last := DaysInMonth(from.year, from.month);
    var next := NextMonthStart(from);
    var effectiveNext := Min(target, DaysInMonth(next.year, next.month));
    assert r == Date(next.year, next.month, effectiveNext);
    AddDaysIntoNextMonth(from, last - from.day + effectiveNext);
    assert Ord(r) - Ord(from) == last - from.day + effectiveNext;
    forall k | 0 <= k < Ord(r) - Ord(from) ensures !IsTaskDueOnDate(task, AddDays(from, k)) {
      var d := AddDays(from, k);
      if k <= last - from.day {
        AddDaysInMonth(from, k);
        assert d == Date(from.year, from.month, from.day + k);
        assert d.day != Min(target, LastDayOfMonth(d));
      } else {
        AddDaysIntoNextMonth(from, k);
        assert d == Date(next.year, next.month, k - (last - from.day));
        assert d.day != Min(target, LastDayOfMonth(d));
      }
    }
  }

  lemma NextMonthlyFirst(task: Task, from: Date)
    requires Valid(from) && task.recurrenceType == Monthly && MonthlyTargetDay(task) >= 1
    ensures FirstDueFrom(task, from, NextMonthly(task, from).value)
  {
    if from.day <= Min(MonthlyTargetDay(task), DaysInMonth(from.year, from.month)) {
      NextMonthlyThisMonth(task, from);
    } else {
      NextMonthlyNextMonth(task, from);
    }
  }

  lemma CustomFirst(task: Task, from: Date, r: Date)
    requires Valid(from) && task.recurrenceType == Custom && task.recurrenceValue.Some?
    requires task.recurrenceValue.value.CustomDatesValue?
    requires RecurrenceValueValid(task.recurrenceValue.value)
    requires EarliestFrom(task.recurrenceValue.value.dates, from) == Some(r)
    ensures FirstDueFrom(task, from, r)
  {
    var ds := task.recurrenceValue.value.dates;
    var i :| 0 <= i < |ds| && ds[i] == r;
    LexIsOrd(r, from);
    forall k | 0 <= k < Ord(r) - Ord(from) ensures !IsTaskDueOnDate(task, AddDays(from, k)) {
      var d := AddDays(from, k);
      LexIsOrd(d, from);
      LexIsOrd(r, d);
    }
  }

  /** get_next_due_date. */
  method NextDueDate(task: Task, from: Date) returns (r: Option<Date>)
    requires Valid(from) && TaskValid(task)
    ensures task.recurrenceType == OneTime ==> r.None?
    ensures task.recurrenceType == Daily ==> r == Some(from)
    ensures task.recurrenceType == Weekly ==>
      r.Some? && Valid(r.value) && Ord(r.value) - Ord(from) <= 6 && WeekdayOf(r.value) == WeeklyTarget(task, from)
    ensures task.recurrenceType == Monthly ==> (r.None? <==> MonthlyTargetDay(task) < 1)
    ensures task.recurrenceType == Weekdays ==> r.Some? && Valid(r.value) && Ord(r.value) - Ord(from) <= 6
    ensures task.recurrenceType == Weekdays && !HasWeekday(WeekdaysOf(task)) ==> r == Some(from)
    ensures task.recurrenceType == Custom ==>
      (r.None? <==> forall d :: CustomDates(task, d) ==> LexLess(d, from))
    ensures r.Some? && task.recurrenceType != OneTime
      && !(task.recurrenceType == Weekdays && !HasWeekday(WeekdaysOf(task)))
      ==> FirstDueFrom(task, from, r.value)
  {
    match task.recurrenceType
    case OneTime =>
      r := None;
    case Daily =>
      r := Some(from);
    case Weekly =>
      NextWeeklyFirst(task, from);
      r := Some(NextWeekly(task, from));
    case Monthly =>
      r := NextMonthly(task, from);
      if r.Some? {
        NextMonthlyFirst(task, from);
      }
    case Weekdays =>
      var d := NextWeekdaysDate(from, WeekdaysOf(task));
      r := Some(d);
      if HasWeekday(WeekdaysOf(task)) {
        assert OnWeekdays(d, WeekdaysOf(task));
      }
    case Custom =>
      match task.recurrenceValue {
        case Some(CustomDatesValue(ds)) =>
          r := EarliestFrom(ds, from);
          if r.Some? {
            CustomFirst(task, from, r.value);
          }
        case _ =>
          r := None;
      }
  }

  // ---------------------------------------------------------------------
  // Period bounds

  /** The counting period: the task's own, or the one its recurrence implies. */
  function EffectivePeriod(task: Task): (p: TimePeriod)
    ensures task.timePeriod.Some? ==> p == task.timePeriod.value
    ensures task.timePeriod.None? ==>
      (p == Day <==> task.recurrenceType == Daily) &&
      (p == Week <==> task.recurrenceType in {Weekly, Weekdays}) &&
      (p == Month <==> task.recurrenceType == Monthly) &&
      (p == AllTime <==> task.recurrenceType in {Custom, OneTime})
  {
    match task.timePeriod
    case Some(p) => p
    case None =>
      match task.recurrenceType
      case Daily => Day
      case Weekly | Weekdays => Week
      case Monthly => Month
      case Custom | OneTime => AllTime
  }

  const AllTimeStart: Date := Date(1970, 1, 1)
  const AllTimeEnd: Date := Date(2100, 12, 31)

  /** get_period_bounds: the (start, end) dates, both inclusive, of the period containing date. */
  function PeriodBounds(task: Task, date: Date): (b: (Date, Date))
    requires Valid(date)
    ensures Valid(b.0) && Valid(b.1)
  {
    match EffectivePeriod(task)
    case Day => (date, date)
    case Week =>
      var start := AddDays(date, -DaysFromMonday(date));
      (start, AddDays(start, 6))
    case Month =>
      var first := FromYmd(date.year, date.month, 1).UnwrapOr(date);
      var last := FromYmd(date.year, date.month, LastDayOfMonth(date)).UnwrapOr(date);
      (first, last)
    case Year =>
      (FromYmd(date.year, 1, 1).UnwrapOr(date), FromYmd(date.year, 12, 31).UnwrapOr(date))
    case AllTime => (AllTimeStart, AllTimeEnd)
  }

  /**
   * The period contains its date (for the all-time period, any date up to
   * 2100-12-31 from 1970 on), and has the shape its kind promises: one day,
   * the Monday-to-Sunday week, the calendar month, the calendar year.
   */
  lemma PeriodBoundsProperties(task: Task, date: Date)
    requires Valid(date)
    ensures var b := PeriodBounds(task, date);
      (EffectivePeriod(task) != AllTime || (!LexLess(date, AllTimeStart) && !LexLess(AllTimeEnd, date)))
      ==> Ord(b.0) <= Ord(date) <= Ord(b.1)
    ensures var b := PeriodBounds(task, date);
      EffectivePeriod(task) == Day ==> b == (date, date)
    ensures var b := PeriodBounds(task, date);
      EffectivePeriod(task) == Week ==>
        DaysFromMonday(b.0) == 0 && Ord(b.1) == Ord(b.0) + 6 && Ord(b.0) <= Ord(date) < Ord(b.0) + 7
    ensures var b := PeriodBounds(task, date);
      EffectivePeriod(task) == Month ==>
        b == (Date(date.year, date.month, 1), Date(date.year, date.month, DaysInMonth(date.year, date.month)))
    ensures var b := PeriodBounds(task, date);
      EffectivePeriod(task) == Year ==> b == (Date(date.year, 1, 1), Date(date.year, 12, 31))
    ensures var b := PeriodBounds(task, date);
      EffectivePeriod(task) == AllTime ==> b == (AllTimeStart, AllTimeEnd)
  {
    var b := PeriodBounds(task, date);
    match EffectivePeriod(task)
    case Day =>
    case Week =>
      WeekdayAfter(date, AddDays(date, -DaysFromMonday(date)), -DaysFromMonday(date));
    case Month =>
      LexIsOrd(b.0, date);
      LexIsOrd(date, b.1);
    case Year =>
      LexIsOrd(b.0, date);
      LexIsOrd(date, b.1);
    case AllTime =>
      LexIsOrd(AllTimeStart, date);
      LexIsOrd(date, AllTimeEnd);
  }

  // ---------------------------------------------------------------------
  // Due time and overdue status

  /** One or two decimal digits. */
  function TimeField(s: string): (r: Option<int>)
    ensures r.Some? ==> 0 <= r.value <= 99
  {
    if 1 <= |s| <= 2 && AllDigits(s) then
      var p := s[..|s| - 1];
      assert DigitsValue(p) <= 9 by {
        if |p| == 1 {
          assert p[..0] == [];
        }
      }
      Some(DigitsValue(s))
    else None
  }

  /** NaiveTime::parse_from_str(s, "%H:%M"): hour 0..23, a colon, minute 0..59. */
  function ParseHourMinute(s: string): (r: Option<TimeOfDay>)
    ensures r.Some? ==> exists h, m :: 0 <= h < 24 && 0 <= m < 60 && r.value == HmsToTime(h, m, 0)
  {
    var parts := Split(s, ':');
    if |parts| != 2 then None
    else
      match (TimeField(parts[0]), TimeField(parts[1]))
      case (Some(h), Some(m)) =>
        if h < 24 && m < 60 then Some(HmsToTime(h, m, 0)) else None
      case _ => None
  }

  /** Two-digit, zero-padded decimal text of 0..99. */
  function TwoDigits(n: int): (s: string)
    requires 0 <= n <= 99
    ensures |s| == 2 && AllDigits(s) && DigitsValue(s) == n
  {
    var s := [('0' as int + n / 10) as char, ('0' as int + n % 10) as char];
    assert s[..1] == [s[0]] && [s[0]][..0] == [];
    assert DigitsValue(s[..1]) == n / 10;
    s
  }

  /** The "HH:MM" text of a time. */
  function FormatHourMinute(h: int, m: int): string
    requires 0 <= h < 24 && 0 <= m < 60
  {
    TwoDigits(h) + ":" + TwoDigits(m)
  }

  /** Parsing a formatted "HH:MM" gives back that time. */
  lemma ParseFormatHourMinute(h: int, m: int)
    requires 0 <= h < 24 && 0 <= m < 60
    ensures ParseHourMinute(FormatHourMinute(h, m)) == Some(HmsToTime(h, m, 0))
  {
    var a, b := TwoDigits(h), TwoDigits(m);
    assert FormatHourMinute(h, m) == a + [':'] + b;
    SplitAtSeparator(a, b, ':');
    SplitNoSeparator(b, ':');
  }

  /** parse_due_time: a missing or unreadable due time means 23:59. */
  function ParseDueTime(dueTime: Option<string>): (t: TimeOfDay)
    ensures dueTime.None? ==> t == HmsToTime(23, 59, 0)
    ensures dueTime.Some? && ParseHourMinute(dueTime.value).None? ==> t == HmsToTime(23, 59, 0)
  {
    match dueTime
    case Some(s) => ParseHourMinute(s).UnwrapOr(HmsToTime(23, 59, 0))
    case None => HmsToTime(23, 59, 0)
  }

  /** is_task_overdue, given the household-local date and time of now. */
  predicate IsTaskOverdue(task: Task, dueDate: Date, todayLocal: Date, currentTime: TimeOfDay)
  {
    var dueTime := ParseDueTime(task.dueTime);
    if LexLess(dueDate, todayLocal) then true
    else if dueDate == todayLocal && currentTime > dueTime then true
    else false
  }

  /**
   * A task is overdue exactly when its due date is in the past, or is today
   * and the due time has passed; with no due time set, that is after 23:59.
   */
  lemma OverdueRule(task: Task, dueDate: Date, todayLocal: Date, currentTime: TimeOfDay)
    requires Valid(dueDate) && Valid(todayLocal)
    ensures IsTaskOverdue(task, dueDate, todayLocal, currentTime) <==>
      Ord(dueDate) < Ord(todayLocal) || (dueDate == todayLocal && currentTime > ParseDueTime(task.dueTime))
    ensures Ord(todayLocal) < Ord(dueDate) ==> !IsTaskOverdue(task, dueDate, todayLocal, currentTime)
    ensures task.dueTime.None? && dueDate == todayLocal ==>
      (IsTaskOverdue(task, dueDate, todayLocal, currentTime) <==> currentTime > HmsToTime(23, 59, 0))
  {
    LexIsOrd(dueDate, todayLocal);
  }
}
