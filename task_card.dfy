/**
 * The task card of the web client: how a task's next due date is shown,
 * how tasks are grouped under due-date headings and in which order the
 * headings appear, and when the card's plus and minus buttons act.
 */
module TaskCard {
  import opened Wrappers
  import opened Dates
  import opened Types
  import opened Text
  import opened Query

  /** (date - today).num_days(). */
  function DaysUntil(date: Date, today: Date): int
    requires Valid(date) && Valid(today)
  {
    Ord(date) - Ord(today)
  }

  function WeekdayName(w: Weekday): (s: string)
    ensures |s| >= 6
  {
    match w
    case Mon => "Monday" case Tue => "Tuesday" case Wed => "Wednesday" case Thu => "Thursday"
    case Fri => "Friday" case Sat => "Saturday" case Sun => "Sunday"
  }

  lemma WeekdayNameInjective(a: Weekday, b: Weekday)
    ensures WeekdayName(a) == WeekdayName(b) ==> a == b
  {
  }

  /** chrono's %b: the English month abbreviation. */
  function MonthAbbrev(m: int): (s: string)
    requires 1 <= m <= 12
    ensures |s| == 3
  {
    ["Jan", "Feb", "Mar", "Apr", "May", "Jun", "Jul", "Aug", "Sep", "Oct", "Nov", "Dec"][m - 1]
  }

  /** date.format("%b %d"), for instance "Jan 05". */
  function MonthDay(d: Date): (s: string)
    requires Valid(d)
    ensures |s| == 6 && s[3] == ' '
    ensures s[..3] == MonthAbbrev(d.month) && s[4..] == PadDigits(d.day, 2)
  {
    MonthAbbrev(d.month) + " " + PadDigits(d.day, 2)
  }

  /** The month an abbreviation names, 0 for any other text. */
  function AbbrevMonth(s: string): (m: int)
    ensures 0 <= m <= 12
  {
    if s == "Jan" then 1 else if s == "Feb" then 2 else if s == "Mar" then 3
    else if s == "Apr" then 4 else if s == "May" then 5 else if s == "Jun" then 6
    else if s == "Jul" then 7 else if s == "Aug" then 8 else if s == "Sep" then 9
    else if s == "Oct" then 10 else if s == "Nov" then 11 else if s == "Dec" then 12
    else 0
  }

  lemma MonthAbbrevInverse(m: int)
    requires 1 <= m <= 12
    ensures AbbrevMonth(MonthAbbrev(m)) == m
  {
    if m <= 6 {
      if m == 1 { } else if m == 2 { } else if m == 3 { }
      else if m == 4 { } else if m == 5 { } else { }
    } else {
      if m == 7 { } else if m == 8 { } else if m == 9 { }
      else if m == 10 { } else if m == 11 { } else { }
    }
  }

  /** Months and days given, MonthDay tells dates within one year apart. */
  lemma MonthDayInjective(a: Date, b: Date)
    requires Valid(a) && Valid(b) && a.year == b.year
    ensures MonthDay(a) == MonthDay(b) ==> a == b
  {
    if MonthDay(a) == MonthDay(b) {
      assert MonthAbbrev(a.month) == MonthAbbrev(b.month);
      MonthAbbrevInverse(a.month);
      MonthAbbrevInverse(b.month);
      assert PadDigits(a.day, 2) == PadDigits(b.day, 2);
      PadDigitsValue(a.day, 2);
      PadDigitsValue(b.day, 2);
    }
  }

  /**
   * format_next_due_date: "Today", "Tomorrow", the weekday name within
   * the coming week, and the month and day otherwise, past dates included.
   */
  function FormatNextDueDate(date: Date, today: Date): (s: string)
    requires Valid(date) && Valid(today)
  {
    var days := DaysUntil(date, today);
    if days == 0 then "Today"
    else if days == 1 then "Tomorrow"
    else if 2 <= days <= 6 then WeekdayName(WeekdayOf(date))
    else MonthDay(date)
  }

  /**
   * The label says how far the date is: "Today" and "Tomorrow" exactly for
   * a distance of 0 and 1, a weekday name from 2 to 6 days, and the month
   * and day for every other date, overdue ones included.
   */
  lemma FormatNextDueDateCases(date: Date, today: Date)
    requires Valid(date) && Valid(today)
    ensures FormatNextDueDate(date, today) == "Today" <==> date == today
    ensures FormatNextDueDate(date, today) == "Tomorrow" <==> DaysUntil(date, today) == 1
    ensures 2 <= DaysUntil(date, today) <= 6 ==> FormatNextDueDate(date, today) == WeekdayName(WeekdayOf(date))
    ensures (DaysUntil(date, today) < 0 || DaysUntil(date, today) >= 7) ==> FormatNextDueDate(date, today) == MonthDay(date)
  {
    if Ord(date) == Ord(today) {
      OrdInjective(date, today);
    }
  }

  // ---------------------------------------------------------------------
  // Due-date groups

  /** DueDateGroup; the order of the constructors is the order of the headings. */
  datatype DueDateGroup = Today | Tomorrow | InWeek(daysUntil: int, name: string) | Later(date: Date) | NoSchedule

  function Rank(g: DueDateGroup): int
  {
    match g
    case Today => 0 case Tomorrow => 1 case InWeek(_, _) => 2 case Later(_) => 3 case NoSchedule => 4
  }

  /** The derived Ord: constructor first, then the fields (days and name, or the date). */
  predicate GroupLess(a: DueDateGroup, b: DueDateGroup)
  {
    Rank(a) < Rank(b)
    || (a.InWeek? && b.InWeek? && (a.daysUntil < b.daysUntil
        || (a.daysUntil == b.daysUntil && KeyLess(IntsOfString(a.name), IntsOfString(b.name)))))
    || (a.Later? && b.Later? && LexLess(a.date, b.date))
  }

  lemma GroupLessIrreflexive(a: DueDateGroup)
    ensures !GroupLess(a, a)
  {
    if a.InWeek? {
      KeyIrreflexive(IntsOfString(a.name));
    }
  }

  lemma GroupLessTransitive(a: DueDateGroup, b: DueDateGroup, c: DueDateGroup)
    requires GroupLess(a, b) && GroupLess(b, c)
    ensures GroupLess(a, c)
  {
    if a.InWeek? && b.InWeek? && c.InWeek? && a.daysUntil == b.daysUntil == c.daysUntil {
      KeyTransitive(IntsOfString(a.name), IntsOfString(b.name), IntsOfString(c.name));
    }
    if a.Later? && b.Later? && c.Later? {
      LexTransitive(a.date, b.date, c.date);
    }
  }

  lemma GroupLessTotal(a: DueDateGroup, b: DueDateGroup)
    ensures a == b || GroupLess(a, b) || GroupLess(b, a)
  {
    if a.InWeek? && b.InWeek? && a.daysUntil == b.daysUntil {
      KeyTotal(IntsOfString(a.name), IntsOfString(b.name));
      if IntsOfString(a.name) == IntsOfString(b.name) {
        IntsOfStringInjective(a.name, b.name);
      }
    }
    if a.Later? && b.Later? {
      LexTotal(a.date, b.date);
    }
  }

  lemma IntsOfStringInjective(s: string, t: string)
    requires IntsOfString(s) == IntsOfString(t)
    ensures s == t
  {
    assert |s| == |t|;
    forall i | 0 <= i < |s|
      ensures s[i] == t[i]
    {
      assert IntsOfString(s)[i] == IntsOfString(t)[i];
    }
  }

  /** DueDateGroup::from_date: no date is NoSchedule, then the thresholds of FormatNextDueDate. */
  function FromDate(date: Option<Date>, today: Date): (g: DueDateGroup)
    requires Valid(today) && (date.Some? ==> Valid(date.value))
    ensures date.None? <==> g == NoSchedule
    ensures g.InWeek? ==> 2 <= g.daysUntil <= 6
  {
    match date
    case None => NoSchedule
    case Some(d) =>
      var days := DaysUntil(d, today);
      if days == 0 then Today
      else if days == 1 then Tomorrow
      else if 2 <= days <= 6 then InWeek(days, WeekdayName(WeekdayOf(d)))
      else Later(d)
  }

  /** DueDateGroup::title. */
  function Title(g: DueDateGroup): string
    requires g.Later? ==> Valid(g.date)
  {
    match g
    case Today => "Today"
    case Tomorrow => "Tomorrow"
    case InWeek(_, name) => name
    case Later(d) => MonthDay(d)
    case NoSchedule => "No Schedule"
  }

  /** A group's heading is the label its tasks' cards show for their due date. */
  lemma TitleIsDueLabel(d: Date, today: Date)
    requires Valid(d) && Valid(today)
    ensures Title(FromDate(Some(d), today)) == FormatNextDueDate(d, today)
  {
  }

  /** Each group is one of the five kinds exactly as far as the date is. */
  lemma FromDateCases(d: Date, today: Date)
    requires Valid(d) && Valid(today)
    ensures FromDate(Some(d), today) == Today <==> d == today
    ensures FromDate(Some(d), today).InWeek? <==> 2 <= DaysUntil(d, today) <= 6
    ensures FromDate(Some(d), today).Later? <==> (DaysUntil(d, today) < 0 || DaysUntil(d, today) >= 7)
  {
    if Ord(d) == Ord(today) {
      OrdInjective(d, today);
    }
  }

  /**
   * From today on, a later due date never gets an earlier heading: the
   * headings list upcoming tasks in date order.
   */
  lemma FromDateMonotone(a: Date, b: Date, today: Date)
    requires Valid(a) && Valid(b) && Valid(today)
    requires 0 <= DaysUntil(a, today) <= DaysUntil(b, today)
    ensures !GroupLess(FromDate(Some(b), today), FromDate(Some(a), today))
  {
    var ga := FromDate(Some(a), today);
    var gb := FromDate(Some(b), today);
    if ga.Later? && gb.Later? {
      LexIsOrd(b, a);
    }
    if ga.InWeek? && gb.InWeek? && ga.daysUntil == gb.daysUntil {
      OrdInjective(a, b);
      KeyIrreflexive(IntsOfString(ga.name));
    }
  }

  /** Within the coming week no two days share a weekday heading. */
  lemma InWeekNamesDistinct(a: Date, b: Date, today: Date)
    requires Valid(a) && Valid(b) && Valid(today)
    requires 2 <= DaysUntil(a, today) <= 6 && 2 <= DaysUntil(b, today) <= 6 && a != b
    ensures FromDate(Some(a), today).name != FromDate(Some(b), today).name
  {
    if Ord(a) == Ord(b) {
      OrdInjective(a, b);
    }
    WeekdayAfter(a, b, Ord(b) - Ord(a));
    WeekdayNameInjective(WeekdayOf(a), WeekdayOf(b));
  }

  /** A task overdue by some days is shown under its date, after the whole coming week. */
  lemma OverdueAfterWeek(d: Date, e: Date, today: Date)
    requires Valid(d) && Valid(e) && Valid(today)
    requires DaysUntil(d, today) < 0 && 1 <= DaysUntil(e, today) <= 6
    ensures GroupLess(FromDate(Some(e), today), FromDate(Some(d), today))
  {
  }

  // ---------------------------------------------------------------------
  // Grouping, as GroupedTaskList fills its BTreeMap

  /** The BTreeMap as its ascending list of (group, tasks) entries. */
  predicate KeysAscending<T>(gs: seq<(DueDateGroup, seq<T>)>)
  {
    forall i, j :: 0 <= i < j < |gs| ==> GroupLess(gs[i].0, gs[j].0)
  }

  predicate HasKey<T>(gs: seq<(DueDateGroup, seq<T>)>, g: DueDateGroup)
  {
    exists i :: 0 <= i < |gs| && gs[i].0 == g
  }

  /** The tasks under g, empty when g has no entry. */
  function Lookup<T>(gs: seq<(DueDateGroup, seq<T>)>, g: DueDateGroup): seq<T>
  {
    if gs == [] then [] else if gs[0].0 == g then gs[0].1 else Lookup(gs[1..], g)
  }

  /** entry(g).or_default().push(t) on the ascending entry list. */
  function Push<T>(gs: seq<(DueDateGroup, seq<T>)>, g: DueDateGroup, t: T): (r: seq<(DueDateGroup, seq<T>)>)
    requires KeysAscending(gs)
    ensures KeysAscending(r)
    ensures forall h :: HasKey(r, h) <==> HasKey(gs, h) || h == g
    ensures forall h :: Lookup(r, h) == if h == g then Lookup(gs, h) + [t] else Lookup(gs, h)
  {
    if gs == [] then
      assert [(g, [t])][0].0 == g;
      [(g, [t])]
    else if gs[0].0 == g then
      PushHere(gs, g, t);
      [(g, gs[0].1 + [t])] + gs[1..]
    else if GroupLess(g, gs[0].0) then
      PushFront(gs, g, t);
      [(g, [t])] + gs
    else
      var rest := Push(gs[1..], g, t);
      PushLater(gs, g, t, rest);
      [gs[0]] + rest
  }

  lemma PushFront<T>(gs: seq<(DueDateGroup, seq<T>)>, g: DueDateGroup, t: T)
    requires KeysAscending(gs) && gs != [] && GroupLess(g, gs[0].0)
    ensures KeysAscending([(g, [t])] + gs)
    ensures forall h :: HasKey([(g, [t])] + gs, h) <==> HasKey(gs, h) || h == g
    ensures forall h :: Lookup([(g, [t])] + gs, h) == if h == g then Lookup(gs, h) + [t] else Lookup(gs, h)
  {
    var r := [(g, [t])] + gs;
    forall j | 0 < j < |r|
      ensures GroupLess(g, r[j].0)
    {
      if j > 1 {
        GroupLessTransitive(g, gs[0].0, gs[j - 1].0);
      }
    }
    assert r[1..] == gs;
    LookupAbsent(gs, g);
    forall h | HasKey(gs, h) || h == g
      ensures HasKey(r, h)
    {
      if h != g {
        var i :| 0 <= i < |gs| && gs[i].0 == h;
        assert r[i + 1].0 == h;
      } else {
        assert r[0].0 == h;
      }
    }
  }

  lemma PushHere<T>(gs: seq<(DueDateGroup, seq<T>)>, g: DueDateGroup, t: T)
    requires KeysAscending(gs) && gs != [] && gs[0].0 == g
    ensures KeysAscending([(g, gs[0].1 + [t])] + gs[1..])
    ensures forall h :: HasKey([(g, gs[0].1 + [t])] + gs[1..], h) <==> HasKey(gs, h) || h == g
  {
    var r := [(g, gs[0].1 + [t])] + gs[1..];
    forall h
      ensures HasKey(r, h) <==> HasKey(gs, h) || h == g
    {
      if HasKey(gs, h) {
        var i :| 0 <= i < |gs| && gs[i].0 == h;
        assert r[i].0 == h;
      }
      if HasKey(r, h) {
        var i :| 0 <= i < |r| && r[i].0 == h;
        assert gs[i].0 == h;
      }
      if h == g {
        assert r[0].0 == h;
      }
    }
  }

  /** A group ahead of every key has no entry. */
  lemma LookupAbsent<T>(gs: seq<(DueDateGroup, seq<T>)>, g: DueDateGroup)
    requires KeysAscending(gs) && gs != [] && GroupLess(g, gs[0].0)
    ensures Lookup(gs, g) == []
  {
    GroupLessIrreflexive(g);
    if |gs| > 1 {
      GroupLessTransitive(g, gs[0].0, gs[1].0);
      LookupAbsent(gs[1..], g);
    }
  }

  lemma PushLater<T>(gs: seq<(DueDateGroup, seq<T>)>, g: DueDateGroup, t: T, rest: seq<(DueDateGroup, seq<T>)>)
    requires KeysAscending(gs) && gs != [] && gs[0].0 != g && !GroupLess(g, gs[0].0)
    requires KeysAscending(rest)
    requires forall h :: HasKey(rest, h) <==> HasKey(gs[1..], h) || h == g
    requires forall h :: Lookup(rest, h) == if h == g then Lookup(gs[1..], h) + [t] else Lookup(gs[1..], h)
    ensures KeysAscending([gs[0]] + rest)
    ensures forall h :: HasKey([gs[0]] + rest, h) <==> HasKey(gs, h) || h == g
    ensures forall h :: Lookup([gs[0]] + rest, h) == if h == g then Lookup(gs, h) + [t] else Lookup(gs, h)
  {
    PushLaterAscending(gs, g, rest);
    PushLaterKeys(gs, g, rest);
    assert ([gs[0]] + rest)[1..] == rest;
  }

  lemma PushLaterAscending<T>(gs: seq<(DueDateGroup, seq<T>)>, g: DueDateGroup, rest: seq<(DueDateGroup, seq<T>)>)
    requires KeysAscending(gs) && gs != [] && gs[0].0 != g && !GroupLess(g, gs[0].0)
    requires KeysAscending(rest)
    requires forall h :: HasKey(rest, h) <==> HasKey(gs[1..], h) || h == g
    ensures KeysAscending([gs[0]] + rest)
  {
    var r := [gs[0]] + rest;
    forall i, j | 0 <= i < j < |r|
      ensures GroupLess(r[i].0, r[j].0)
    {
      assert r[j] == rest[j - 1];
      if i == 0 {
        FirstBelowRest(gs, g, rest, j - 1);
      } else {
        assert r[i] == rest[i - 1];
      }
    }
  }

  /** The head of gs stays below every key of rest, g included. */
  lemma FirstBelowRest<T>(gs: seq<(DueDateGroup, seq<T>)>, g: DueDateGroup, rest: seq<(DueDateGroup, seq<T>)>, j: nat)
    requires KeysAscending(gs) && gs != [] && gs[0].0 != g && !GroupLess(g, gs[0].0)
    requires forall h :: HasKey(rest, h) <==> HasKey(gs[1..], h) || h == g
    requires j < |rest|
    ensures GroupLess(gs[0].0, rest[j].0)
  {
    assert HasKey(rest, rest[j].0);
    if rest[j].0 == g {
      GroupLessTotal(g, gs[0].0);
    } else {
      var i :| 0 <= i < |gs[1..]| && gs[1..][i].0 == rest[j].0;
      assert gs[i + 1].0 == rest[j].0;
    }
  }

  lemma PushLaterKeys<T>(gs: seq<(DueDateGroup, seq<T>)>, g: DueDateGroup, rest: seq<(DueDateGroup, seq<T>)>)
    requires gs != []
    requires forall h :: HasKey(rest, h) <==> HasKey(gs[1..], h) || h == g
    ensures forall h :: HasKey([gs[0]] + rest, h) <==> HasKey(gs, h) || h == g
  {
    var r := [gs[0]] + rest;
    forall h
      ensures HasKey(r, h) <==> HasKey(gs, h) || h == g
    {
      if HasKey(r, h) {
        var i :| 0 <= i < |r| && r[i].0 == h;
        if i > 0 {
          assert HasKey(rest, h);
          if h != g {
            var k :| 0 <= k < |gs[1..]| && gs[1..][k].0 == h;
            assert gs[k + 1].0 == h;
          }
        }
      }
      if HasKey(gs, h) || h == g {
        if h == gs[0].0 {
          assert r[0].0 == h;
        } else {
          if h != g {
            var i :| 0 <= i < |gs| && gs[i].0 == h;
            assert gs[1..][i - 1].0 == h;
          }
          assert HasKey(rest, h);
          var k :| 0 <= k < |rest| && rest[k].0 == h;
          assert r[k + 1].0 == h;
        }
      }
    }
  }

  /** Whether the task t belongs under heading g. */
  function InGroup<T>(due: T -> Option<Date>, today: Date, g: DueDateGroup): T -> bool
    requires Valid(today)
  {
    (t: T) => (due(t).Some? ==> Valid(due(t).value)) && FromDate(due(t), today) == g
  }

  /** One task pushed: each heading's list holds the tasks seen so far under it. */
  lemma GroupStepLookup<T>(tasks: seq<T>, due: T -> Option<Date>, today: Date, i: nat,
                           before: seq<(DueDateGroup, seq<T>)>, after: seq<(DueDateGroup, seq<T>)>)
    requires Valid(today) && i < |tasks|
    requires forall k :: 0 <= k < |tasks| && due(tasks[k]).Some? ==> Valid(due(tasks[k]).value)
    requires forall h :: Lookup(before, h) == Filter(tasks[..i], InGroup(due, today, h))
    requires forall h :: Lookup(after, h) == Lookup(before, h) + (if h == FromDate(due(tasks[i]), today) then [tasks[i]] else [])
    ensures forall h :: Lookup(after, h) == Filter(tasks[..i + 1], InGroup(due, today, h))
  {
    var t := tasks[i];
    forall h
      ensures Lookup(after, h) == Filter(tasks[..i + 1], InGroup(due, today, h))
    {
      assert tasks[..i + 1] == tasks[..i] + [t];
      FilterAppend(tasks[..i], [t], InGroup(due, today, h));
      assert [t][1..] == [];
    }
  }

  /** One task pushed: the headings are those of the tasks seen so far. */
  lemma GroupStepKeys<T>(tasks: seq<T>, due: T -> Option<Date>, today: Date, i: nat,
                         before: seq<(DueDateGroup, seq<T>)>, after: seq<(DueDateGroup, seq<T>)>)
    requires Valid(today) && i < |tasks|
    requires forall k :: 0 <= k < |tasks| && due(tasks[k]).Some? ==> Valid(due(tasks[k]).value)
    requires forall h :: HasKey(before, h) <==> exists k :: 0 <= k < i && FromDate(due(tasks[k]), today) == h
    requires forall h :: HasKey(after, h) <==> HasKey(before, h) || h == FromDate(due(tasks[i]), today)
    ensures forall h :: HasKey(after, h) <==> exists k :: 0 <= k < i + 1 && FromDate(due(tasks[k]), today) == h
  {
    forall h
      ensures HasKey(after, h) <==> exists k :: 0 <= k < i + 1 && FromDate(due(tasks[k]), today) == h
    {
      if h == FromDate(due(tasks[i]), today) {
        assert FromDate(due(tasks[i]), today) == h;
      }
    }
  }

  /**
   * GroupedTaskList's loop: each task goes to the end of its heading's
   * list. Headings come out in ascending order, each holding exactly its
   * tasks in their original order, and no heading is empty.
   */
  method GroupTasks<T>(tasks: seq<T>, due: T -> Option<Date>, today: Date) returns (gs: seq<(DueDateGroup, seq<T>)>)
    requires Valid(today)
    requires forall i :: 0 <= i < |tasks| && due(tasks[i]).Some? ==> Valid(due(tasks[i]).value)
    ensures KeysAscending(gs)
    ensures forall h :: Lookup(gs, h) == Filter(tasks, InGroup(due, today, h))
    ensures forall h :: HasKey(gs, h) <==> exists i :: 0 <= i < |tasks| && FromDate(due(tasks[i]), today) == h
  {
    gs := [];
    var i := 0;
    while i < |tasks|
      invariant 0 <= i <= |tasks|
      invariant KeysAscending(gs)
      invariant forall h :: Lookup(gs, h) == Filter(tasks[..i], InGroup(due, today, h))
      invariant forall h :: HasKey(gs, h) <==> exists k :: 0 <= k < i && FromDate(due(tasks[k]), today) == h
    {
      var t := tasks[i];
      var g := FromDate(due(t), today);
      ghost var before := gs;
      gs := Push(gs, g, t);
      assert forall h :: Lookup(gs, h) == Lookup(before, h) + (if h == g then [t] else []);
      GroupStepLookup(tasks, due, today, i, before, gs);
      GroupStepKeys(tasks, due, today, i, before, gs);
      i := i + 1;
    }
    assert tasks[..i] == tasks;
  }

  // ---------------------------------------------------------------------
  // The card's buttons

  /** The plus button acts when the task can be completed and no debounce is running. */
  predicate PlusActs(s: TaskWithStatus, debouncing: bool)
  {
    s.CanComplete() && !debouncing
  }

  /** The minus button acts when there is a completion to take back. */
  predicate MinusActs(s: TaskWithStatus)
  {
    s.completionsToday > 0
  }

  function CardClass(s: TaskWithStatus): (c: string)
    ensures c == "task-item task-completed" <==> s.IsTargetMet()
    ensures c == "task-item" <==> !s.IsTargetMet()
  {
    if s.IsTargetMet() then "task-item task-completed" else "task-item"
  }

  /** What the buttons do in terms of the task's status. */
  lemma ButtonRules(s: TaskWithStatus, debouncing: bool)
    ensures debouncing ==> !PlusActs(s, debouncing)
    ensures !s.isUserAssigned ==> !PlusActs(s, debouncing)
    ensures s.IsTargetMet() && !s.task.allowExceedTarget ==> !PlusActs(s, debouncing)
    ensures s.isUserAssigned && !s.IsTargetMet() && !debouncing ==> PlusActs(s, debouncing)
    ensures s.IsTargetMet() ==> MinusActs(s)
  {
  }
}
