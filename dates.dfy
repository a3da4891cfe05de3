/**
 * The proleptic Gregorian calendar the backend uses through chrono's NaiveDate:
 * dates as (year, month, day) triples, a day number that orders them, day
 * arithmetic, weekdays, and times of day and instants as plain integers.
 */
module Dates {
  import opened Wrappers

  datatype Date = Date(year: int, month: int, day: int)

  predicate IsLeap(y: int)
  {
    y % 4 == 0 && (y % 100 != 0 || y % 400 == 0)
  }

  function DaysInMonth(y: int, m: int): (n: int)
    requires 1 <= m <= 12
    ensures 28 <= n <= 31
    ensures n == 31 <==> m in {1, 3, 5, 7, 8, 10, 12}
    ensures m == 2 ==> (n == 29 <==> IsLeap(y))
  {
    if m == 2 then (if IsLeap(y) then 29 else 28)
    else if m == 4 || m == 6 || m == 9 || m == 11 then 30
    else 31
  }

  /** A triple chrono accepts as a NaiveDate (the representable year range is not modelled). */
  predicate Valid(d: Date)
  {
    1 <= d.month <= 12 && 1 <= d.day <= DaysInMonth(d.year, d.month)
  }

  /** chrono's NaiveDate::from_ymd_opt. */
  function FromYmd(y: int, m: int, d: int): (r: Option<Date>)
    ensures r.Some? <==> Valid(Date(y, m, d))
    ensures r.Some? ==> r.value == Date(y, m, d)
  {
    if 1 <= m <= 12 && 1 <= d <= DaysInMonth(y, m) then Some(Date(y, m, d)) else None
  }

  /** Days of the year before the first of month m. */
  function DaysBeforeMonth(y: int, m: int): (r: int)
    requires 1 <= m <= 12
    ensures r >= 0
  {
    if m == 1 then 0 else DaysBeforeMonth(y, m - 1) + DaysInMonth(y, m - 1)
  }

  function DaysInYear(y: int): int
  {
    if IsLeap(y) then 366 else 365
  }

  /** Day number of January 1st of year y, counted from 1970-01-01 a year at a time. */
  function DaysBeforeYear(y: int): int
    decreases if y >= 1970 then y - 1970 else 1970 - y
  {
    if y == 1970 then 0
    else if y > 1970 then DaysBeforeYear(y - 1) + DaysInYear(y - 1)
    else DaysBeforeYear(y + 1) - DaysInYear(y)
  }

  /** The day number of a date: 1970-01-01 is 0, each following day adds one. */
  function Ord(d: Date): int
    requires 1 <= d.month <= 12
  {
    DaysBeforeYear(d.year) + DaysBeforeMonth(d.year, d.month) + d.day - 1
  }

  lemma YearStep(y: int)
    ensures DaysBeforeYear(y + 1) == DaysBeforeYear(y) + DaysInYear(y)
  {
  }

  /** Leap years among 1..y when y >= 0, extended by the same floor formula below 0. */
  function LeapsThrough(y: int): int
  {
    y / 4 - y / 100 + y / 400
  }

  lemma DivStep(y: int, k: int)
    requires k == 4 || k == 100 || k == 400
    ensures y / k - (y - 1) / k == (if y % k == 0 then 1 else 0)
  {
    var q, r := (y - 1) / k, (y - 1) % k;
    assert y - 1 == k * q + r && 0 <= r < k;
    if r == k - 1 {
      assert y == k * (q + 1);
    } else {
      assert y == k * q + (r + 1) && 0 < r + 1 < k;
    }
  }

  /** A multiple of 400 is a multiple of 100, and a multiple of 100 one of 4. */
  lemma CenturyDivides(y: int)
    ensures y % 400 == 0 ==> y % 100 == 0
    ensures y % 100 == 0 ==> y % 4 == 0
  {
    if y % 400 == 0 {
      MultipleDivides(y, 400, 100);
    }
    if y % 100 == 0 {
      MultipleDivides(y, 100, 4);
    }
  }

  /** A multiple of k is a multiple of every d that divides k. */
  lemma MultipleDivides(y: int, k: int, d: int)
    requires (k == 400 && d == 100) || (k == 100 && d == 4)
    requires y % k == 0
    ensures y % d == 0
  {
    var t, q, r := y / k, y / d, y % d;
    assert y == k * t;
    assert y == d * q + r && 0 <= r < d;
    if k == 400 {
      assert r == 100 * (4 * t - q);
    } else {
      assert r == 4 * (25 * t - q);
    }
  }

  lemma LeapStep(y: int)
    ensures LeapsThrough(y) - LeapsThrough(y - 1) == (if IsLeap(y) then 1 else 0)
  {
    DivStep(y, 4);
    DivStep(y, 100);
    DivStep(y, 400);
    CenturyDivides(y);
  }

  /** The year-by-year count agrees with the closed leap-year formula. */
  lemma {:induction false} DaysBeforeYearClosed(y: int)
    ensures DaysBeforeYear(y) == 365 * (y - 1970) + LeapsThrough(y - 1) - LeapsThrough(1969)
    decreases if y >= 1970 then y - 1970 else 1970 - y
  {
    if y > 1970 {
      DaysBeforeYearClosed(y - 1);
      LeapStep(y - 1);
    } else if y < 1970 {
      DaysBeforeYearClosed(y + 1);
      LeapStep(y);
    }
  }

  lemma MonthsOfYear(y: int)
    ensures DaysBeforeMonth(y, 12) + 31 == DaysInYear(y)
  {
    var l := if IsLeap(y) then 1 else 0;
    assert DaysBeforeMonth(y, 2) == 31;
    assert DaysBeforeMonth(y, 3) == 59 + l;
    assert DaysBeforeMonth(y, 4) == 90 + l;
    assert DaysBeforeMonth(y, 5) == 120 + l;
    assert DaysBeforeMonth(y, 6) == 151 + l;
    assert DaysBeforeMonth(y, 7) == 181 + l;
    assert DaysBeforeMonth(y, 8) == 212 + l;
    assert DaysBeforeMonth(y, 9) == 243 + l;
    assert DaysBeforeMonth(y, 10) == 273 + l;
    assert DaysBeforeMonth(y, 11) == 304 + l;
    assert DaysBeforeMonth(y, 12) == 334 + l;
  }

  /** The day after d. */
  function Succ(d: Date): Date
    requires Valid(d)
  {
    if d.day < DaysInMonth(d.year, d.month) then Date(d.year, d.month, d.day + 1)
    else if d.month < 12 then Date(d.year, d.month + 1, 1)
    else Date(d.year + 1, 1, 1)
  }

  /** The day before d. */
  function Pred(d: Date): Date
    requires Valid(d)
  {
    if d.day > 1 then Date(d.year, d.month, d.day - 1)
    else if d.month > 1 then Date(d.year, d.month - 1, DaysInMonth(d.year, d.month - 1))
    else Date(d.year - 1, 12, 31)
  }

  lemma SuccOrd(d: Date)
    requires Valid(d)
    ensures Valid(Succ(d)) && Ord(Succ(d)) == Ord(d) + 1
  {
    if d.day == DaysInMonth(d.year, d.month) && d.month == 12 {
      YearStep(d.year);
      MonthsOfYear(d.year);
    }
  }

  lemma PredOrd(d: Date)
    requires Valid(d)
    ensures Valid(Pred(d)) && Ord(Pred(d)) == Ord(d) - 1
  {
    if d.day == 1 && d.month == 1 {
      YearStep(d.year - 1);
      MonthsOfYear(d.year - 1);
    }
  }

  /** chrono's `date + Duration::days(n)` (and `- Duration::days(-n)`). */
  function Walk(d: Date, n: int): (r: Date)
    requires Valid(d)
    ensures Valid(r) && Ord(r) == Ord(d) + n
    decreases if n < 0 then -n else n
  {
    if n == 0 then d
    else if n > 0 then (SuccOrd(d); Walk(Succ(d), n - 1))
    else (PredOrd(d); Walk(Pred(d), n + 1))
  }

  function AddDays(d: Date, n: int): (r: Date)
    requires Valid(d)
    ensures Valid(r) && Ord(r) == Ord(d) + n
  {
    Walk(d, n)
  }

  /** The date k days before d. */
  function SubDays(d: Date, k: int): (r: Date)
    requires Valid(d)
    ensures Valid(r) && Ord(r) == Ord(d) - k
  {
    AddDays(d, -k)
  }

  /** Lexicographic order on (year, month, day): the order chrono derives for NaiveDate. */
  predicate LexLess(a: Date, b: Date)
  {
    a.year < b.year || (a.year == b.year && (a.month < b.month || (a.month == b.month && a.day < b.day)))
  }

  lemma {:induction false} DaysBeforeYearMono(a: int, b: int)
    requires a < b
    ensures DaysBeforeYear(a) + DaysInYear(a) <= DaysBeforeYear(b)
    decreases b - a
  {
    YearStep(a);
    if a + 1 < b {
      DaysBeforeYearMono(a + 1, b);
    }
  }

  lemma {:induction false} DaysBeforeMonthMono(y: int, a: int, b: int)
    requires 1 <= a < b <= 12
    ensures DaysBeforeMonth(y, a) + DaysInMonth(y, a) <= DaysBeforeMonth(y, b)
    decreases b - a
  {
    if a + 1 < b {
      DaysBeforeMonthMono(y, a + 1, b);
    }
  }

  lemma DateInYear(d: Date)
    requires Valid(d)
    ensures DaysBeforeMonth(d.year, d.month) + d.day <= DaysInYear(d.year)
  {
    MonthsOfYear(d.year);
    if d.month < 12 {
      DaysBeforeMonthMono(d.year, d.month, 12);
    }
  }

  /** Ord is strictly monotone: it orders dates as chrono does. */
  lemma OrdMonotone(a: Date, b: Date)
    requires Valid(a) && Valid(b) && LexLess(a, b)
    ensures Ord(a) < Ord(b)
  {
    if a.year < b.year {
      DateInYear(a);
      DaysBeforeYearMono(a.year, b.year);
    } else if a.month < b.month {
      DaysBeforeMonthMono(a.year, a.month, b.month);
    }
  }

  lemma LexTotal(a: Date, b: Date)
    ensures a == b || LexLess(a, b) || LexLess(b, a)
    ensures !(LexLess(a, b) && LexLess(b, a))
  {
  }

  lemma LexTransitive(a: Date, b: Date, c: Date)
    requires LexLess(a, b) && LexLess(b, c)
    ensures LexLess(a, c)
  {
  }

  /** On valid dates the calendar order and the day-number order agree. */
  lemma LexIsOrd(a: Date, b: Date)
    requires Valid(a) && Valid(b)
    ensures LexLess(a, b) <==> Ord(a) < Ord(b)
  {
    if LexLess(a, b) {
      OrdMonotone(a, b);
    } else if LexLess(b, a) {
      OrdMonotone(b, a);
    }
  }

  /** Moving forward inside one month only changes the day. */
  lemma AddDaysInMonth(d: Date, k: int)
    requires Valid(d) && 1 <= d.day + k <= DaysInMonth(d.year, d.month)
    ensures AddDays(d, k) == Date(d.year, d.month, d.day + k)
  {
    OrdInjective(AddDays(d, k), Date(d.year, d.month, d.day + k));
  }

  /** Day arithmetic composes. */
  lemma AddDaysAdd(d: Date, a: int, b: int)
    requires Valid(d)
    ensures Valid(AddDays(d, a)) && AddDays(AddDays(d, a), b) == AddDays(d, a + b)
  {
    OrdInjective(AddDays(AddDays(d, a), b), AddDays(d, a + b));
  }

  /** The first day of the month after d's month. */
  function NextMonthStart(d: Date): (r: Date)
    requires Valid(d)
    ensures Valid(r) && r.day == 1
    ensures Ord(r) == Ord(d) + DaysInMonth(d.year, d.month) - d.day + 1
  {
    var last := Date(d.year, d.month, DaysInMonth(d.year, d.month));
    SuccOrd(last);
    if d.month == 12 then Date(d.year + 1, 1, 1) else Date(d.year, d.month + 1, 1)
  }

  /** The first day of the month before d's month. */
  function PrevMonthStart(d: Date): (r: Date)
    requires Valid(d)
    ensures Valid(r) && r.day == 1
    ensures NextMonthStart(r) == Date(d.year, d.month, 1)
  {
    if d.month == 1 then Date(d.year - 1, 12, 1) else Date(d.year, d.month - 1, 1)
  }

  /** Counting k days on from d, past the end of d's month, lands on day k - (days left) of the next month. */
  lemma AddDaysIntoNextMonth(d: Date, k: int)
    requires Valid(d)
    requires 1 <= k - (DaysInMonth(d.year, d.month) - d.day) <= DaysInMonth(NextMonthStart(d).year, NextMonthStart(d).month)
    ensures AddDays(d, k)
      == Date(NextMonthStart(d).year, NextMonthStart(d).month, k - (DaysInMonth(d.year, d.month) - d.day))
  {
    var n := NextMonthStart(d);
    var j := k - (DaysInMonth(d.year, d.month) - d.day);
    OrdInjective(AddDays(d, k), Date(n.year, n.month, j));
  }

  /** Two valid dates with the same day number are the same date. */
  lemma OrdInjective(a: Date, b: Date)
    requires Valid(a) && Valid(b) && Ord(a) == Ord(b)
    ensures a == b
  {
    if LexLess(a, b) {
      OrdMonotone(a, b);
    } else if LexLess(b, a) {
      OrdMonotone(b, a);
    }
  }

  /**
   * Monday = 0 … Sunday = 6 for day number o (1970-01-01, day 0, was a
   * Thursday), counted out a week at a time so that no remainder is needed.
   */
  function WeekIndex(o: int): (w: int)
    ensures 0 <= w < 7
    decreases if o >= 0 then o else 7 - o
  {
    if 0 <= o < 7 then (if o < 4 then o + 3 else o - 4)
    else if o >= 7 then WeekIndex(o - 7)
    else WeekIndex(o + 7)
  }

  /** The week count agrees with the remainder formula (day 0 + 3, modulo 7). */
  lemma {:induction false} WeekIndexMod(o: int)
    ensures WeekIndex(o) == (o + 3) % 7
    decreases if o >= 0 then o else 7 - o
  {
    if o >= 7 {
      WeekIndexMod(o - 7);
    } else if o < 0 {
      WeekIndexMod(o + 7);
    }
  }

  /** Brings a number in -7 .. 13 back into 0 .. 6 by adding or removing a week. */
  function Wrap7(v: int): int
  {
    if v < 0 then v + 7 else if v >= 7 then v - 7 else v
  }

  /** Shifting a day number by n, |n| small, shifts its weekday index by n around the week. */
  lemma WeekIndexStep(o: int, n: int)
    requires -7 <= WeekIndex(o) + n < 14
    ensures WeekIndex(o + n) == Wrap7(WeekIndex(o) + n)
  {
    WeekIndexMod(o);
    WeekIndexMod(o + n);
    var q := (o + 3) / 7;
    var v := WeekIndex(o) + n;
    assert o + 3 == 7 * q + WeekIndex(o);
    if v < 0 {
      ModSevenUnique(o + n + 3, q - 1, v + 7);
    } else if v >= 7 {
      ModSevenUnique(o + n + 3, q + 1, v - 7);
    } else {
      ModSevenUnique(o + n + 3, q, v);
    }
  }

  /** The remainder modulo 7 is the only w in 0 .. 6 with x == 7 * q + w. */
  lemma ModSevenUnique(x: int, q: int, w: int)
    requires x == 7 * q + w && 0 <= w < 7
    ensures x % 7 == w
  {
  }

  /** The days from weekday number c forward to weekday number t. */
  lemma DaysForward(t: int, c: int)
    requires 0 <= t < 7 && 0 <= c < 7
    ensures (t - c + 7) % 7 == if t >= c then t - c else t - c + 7
  {
    if t >= c {
      ModSevenUnique(t - c + 7, 1, t - c);
    } else {
      ModSevenUnique(t - c + 7, 0, t - c + 7);
    }
  }

  /** chrono's num_days_from_monday of a date. */
  function DaysFromMonday(d: Date): (w: int)
    requires 1 <= d.month <= 12
    ensures 0 <= w < 7
  {
    WeekIndex(Ord(d))
  }

  /** chrono's num_days_from_sunday of a date. */
  function DaysFromSunday(d: Date): (w: int)
    requires 1 <= d.month <= 12
    ensures 0 <= w < 7
  {
    if DaysFromMonday(d) == 6 then 0 else DaysFromMonday(d) + 1
  }

  /** Moving n days, |n| small, moves both weekday counts n places around the week. */
  lemma WeekdayAfter(d: Date, e: Date, n: int)
    requires 1 <= d.month <= 12 && 1 <= e.month <= 12
    requires Ord(e) == Ord(d) + n && -7 <= n <= 7
    ensures DaysFromMonday(e) == Wrap7(DaysFromMonday(d) + n)
    ensures DaysFromSunday(e) == Wrap7(DaysFromSunday(d) + n)
  {
    WeekIndexStep(Ord(d), n);
  }

  function FromOrd(n: int): (d: Date)
    ensures Valid(d) && Ord(d) == n
  {
    AddDays(Date(1970, 1, 1), n)
  }

  /** The UTC calendar date of an instant (DateTime::date_naive). */
  function DateOfInstant(t: Instant): (d: Date)
    ensures Valid(d) && Ord(d) * SecondsPerDay <= t < (Ord(d) + 1) * SecondsPerDay
  {
    FromOrd(t / SecondsPerDay)
  }

  datatype Weekday = Mon | Tue | Wed | Thu | Fri | Sat | Sun
  {
    /** chrono's num_days_from_monday. */
    function NumDaysFromMonday(): (n: int)
      ensures 0 <= n < 7
    {
      match this
      case Mon => 0 case Tue => 1 case Wed => 2 case Thu => 3 case Fri => 4 case Sat => 5 case Sun => 6
    }

    /** chrono's num_days_from_sunday. */
    function NumDaysFromSunday(): (n: int)
      ensures 0 <= n < 7
      ensures n == (NumDaysFromMonday() + 1) % 7
    {
      match this
      case Sun => 0 case Mon => 1 case Tue => 2 case Wed => 3 case Thu => 4 case Fri => 5 case Sat => 6
    }
  }

  lemma WeekdayNumberInjective(a: Weekday, b: Weekday)
    ensures a.NumDaysFromSunday() == b.NumDaysFromSunday() ==> a == b
    ensures a.NumDaysFromMonday() == b.NumDaysFromMonday() ==> a == b
  {
  }

  /** The weekday of a date (NaiveDate::weekday). */
  function WeekdayOf(d: Date): (w: Weekday)
    requires 1 <= d.month <= 12
    ensures w.NumDaysFromMonday() == DaysFromMonday(d)
    ensures w.NumDaysFromSunday() == DaysFromSunday(d)
  {
    match DaysFromMonday(d)
    case 0 => Mon case 1 => Tue case 2 => Wed case 3 => Thu case 4 => Fri case 5 => Sat case _ => Sun
  }

  /** A time of day, as nanoseconds since midnight (chrono's NaiveTime). */
  type TimeOfDay = t: int | 0 <= t < 86400 * 1000000000

  function HmsToTime(h: int, m: int, s: int): (t: TimeOfDay)
    requires 0 <= h < 24 && 0 <= m < 60 && 0 <= s < 60
  {
    ((h * 60 + m) * 60 + s) * 1000000000
  }

  /** An instant (DateTime<Utc> or std::time::Instant), as whole seconds. */
  type Instant = int

  const SecondsPerHour: int := 3600
  const SecondsPerDay: int := 86400
}
