/**
 * The recurrence inputs of the task form. Each input holds its value in a
 * signal. A change event parses the field's text and sets the signal; text
 * that does not parse leaves the value as it was.
 */
module TaskFields {
  import opened Wrappers
  import opened Text
  import opened Query

  // ---------------------------------------------------------------------
  // What each change event makes of the value. Every number goes through
  // str::parse for the signal's integer type before it is used.

  /** The single-weekday select (0 is Sunday): any u8 that parses is taken. */
  function ChosenWeekday(current: int, input: string): (r: int)
    ensures ParseU8(input).Some? ==> r == ParseU8(input).value
    ensures ParseU8(input).None? ==> r == current
  {
    match ParseU8(input)
    case Some(day) => day
    case None => current
  }

  /** The month-day field: a u8 that parses is clamped to 1..=31. */
  function ClampedMonthDay(current: int, input: string): (r: int)
    ensures ParseU8(input).Some? ==> 1 <= r <= 31
    ensures ParseU8(input).None? ==> r == current
  {
    match ParseU8(input)
    case Some(day) => Clamp(day, 1, 31)
    case None => current
  }

  /** Ord::clamp. */
  function Clamp(x: int, lo: int, hi: int): (r: int)
    requires lo <= hi
    ensures lo <= r <= hi
    ensures lo <= x <= hi ==> r == x
    ensures x < lo ==> r == lo
    ensures hi < x ==> r == hi
  {
    if x < lo then lo else if hi < x then hi else x
  }

  /** The custom-interval field: an i32 that parses is raised to at least 1. */
  function FlooredInterval(current: int, input: string): (r: int)
    ensures ParseI32(input).Some? ==> r >= 1 && r >= ParseI32(input).value
    ensures ParseI32(input).Some? && ParseI32(input).value >= 1 ==> r == ParseI32(input).value
    ensures ParseI32(input).None? ==> r == current
  {
    match ParseI32(input)
    case Some(n) => if n < 1 then 1 else n
    case None => current
  }

  /** Every option of the weekday select sets its own day. */
  lemma WeekdayOptions(current: int, d: nat)
    requires d <= 6
    ensures ChosenWeekday(current, ShowNat(d)) == d
  {
    ParseShow(d, 0, 255);
  }

  /** A day typed in range is kept as typed. */
  lemma MonthDayTyped(current: int, d: nat)
    requires 1 <= d <= 31
    ensures ClampedMonthDay(current, ShowNat(d)) == d
  {
    ParseShow(d, 0, 255);
  }

  /**
   * The edges of the month-day field: 0 and 40 are clamped, while 300 (not
   * a u8), a negative number and text leave the value unchanged.
   */
  lemma MonthDayEdges(current: int)
    ensures ClampedMonthDay(current, "0") == 1
    ensures ClampedMonthDay(current, "40") == 31
    ensures ClampedMonthDay(current, "300") == current
    ensures ClampedMonthDay(current, "-5") == current
    ensures ClampedMonthDay(current, "") == current
    ensures ClampedMonthDay(current, "abc") == current
  {
    assert DigitsValue("0") == 0;
    assert DigitsValue("40") == 40 by { assert "40"[..1] == "4"; }
    assert DigitsValue("300") == 300 by { assert "300"[..2] == "30"; assert "30"[..1] == "3"; }
    assert !AllDigits("-5") by { assert !IsDigit("-5"[0]); }
    assert !AllDigits("abc") by { assert !IsDigit("abc"[0]); }
  }

  /** A negative or zero interval becomes 1; text leaves it unchanged. */
  lemma IntervalEdges(current: int)
    ensures FlooredInterval(current, "0") == 1
    ensures FlooredInterval(current, "-3") == 1
    ensures FlooredInterval(current, "x") == current
  {
    assert DigitsValue("0") == 0;
    assert "-3"[1..] == "3" && DigitsValue("3") == 3;
    assert !AllDigits("x") by { assert !IsDigit("x"[0]); }
  }

  // ---------------------------------------------------------------------
  // The weekday checkboxes

  /** Vec<u8>'s sort order: by value. */
  function ByValue(): int -> seq<int>
  {
    (x: int) => [x]
  }

  function Without(day: int): int -> bool
  {
    (x: int) => x != day
  }

  /** Strictly ascending: sorted with no day twice. */
  predicate Ascending(days: seq<int>)
  {
    forall i, j :: 0 <= i < j < |days| ==> days[i] < days[j]
  }

  lemma AscendingIsSortedDistinct(days: seq<int>)
    ensures Ascending(days) <==> SortedBy(days, ByValue()) && Distinct(days)
  {
    forall i, j | 0 <= i < j < |days|
      ensures KeyLess(ByValue()(days[j]), ByValue()(days[i])) <==> days[j] < days[i]
    {
      assert [days[j]][1..] == [];
    }
  }

  /**
   * The weekdays after one checkbox changes: checking adds the day and
   * sorts, unless it is already there; unchecking removes every copy and
   * keeps the others in their order.
   */
  function Toggled(days: seq<int>, day: int, checked: bool): (r: seq<int>)
    ensures checked ==> day in r
    ensures !checked ==> day !in r
    ensures forall x :: x != day ==> (x in r <==> x in days)
    ensures checked && day in days ==> r == days
    ensures checked && day !in days ==> multiset(r) == multiset(days) + multiset{day} && SortedBy(r, ByValue())
    ensures !checked ==> |r| == |days| - multiset(days)[day]
  {
    if checked then
      if day in days then days
      else
        var r := SortBy(days + [day], ByValue());
        assert multiset(days + [day]) == multiset(days) + multiset{day};
        assert day in multiset(r);
        SameOthers(r, days, day);
        r
    else
      var r := Filter(days, Without(day));
      RemovedCount(days, day);
      r
  }

  lemma SameOthers(r: seq<int>, days: seq<int>, day: int)
    requires multiset(r) == multiset(days) + multiset{day}
    ensures forall x :: x != day ==> (x in r <==> x in days)
  {
    forall x | x != day
      ensures x in r <==> x in days
    {
      assert multiset(r)[x] == multiset(days)[x];
      assert (x in r) == (x in multiset(r));
      assert (x in days) == (x in multiset(days));
    }
  }

  lemma {:induction false} RemovedCount(days: seq<int>, day: int)
    ensures |Filter(days, Without(day))| == |days| - multiset(days)[day]
  {
    if days != [] {
      assert days == [days[0]] + days[1..];
      RemovedCount(days[1..], day);
    }
  }

  /** Toggling keeps the list strictly ascending, whatever the order of clicks. */
  lemma ToggledKeepsAscending(days: seq<int>, day: int, checked: bool)
    requires Ascending(days)
    ensures Ascending(Toggled(days, day, checked))
  {
    AscendingIsSortedDistinct(days);
    var r := Toggled(days, day, checked);
    if checked && day !in days {
      assert Distinct(days + [day]);
      assert multiset(r) == multiset(days + [day]);
      DistinctOfMultiset(days + [day], r);
    } else if !checked {
      FilterKeeps(days, Without(day), ByValue());
    }
    AscendingIsSortedDistinct(r);
  }

  /** Checking and then unchecking a day that was not there gives the list back. */
  lemma CheckUncheck(days: seq<int>, day: int)
    requires Ascending(days) && day !in days
    ensures Toggled(Toggled(days, day, true), day, false) == days
  {
    var r := Toggled(days, day, true);
    var back := Toggled(r, day, false);
    ToggledKeepsAscending(days, day, true);
    ToggledKeepsAscending(r, day, false);
    FilterMultiset(r, day);
    assert multiset(days)[day] == 0;
    assert multiset(back) == multiset(days) by {
      forall x
        ensures multiset(back)[x] == multiset(days)[x]
      {
        assert multiset(r)[x] == multiset(days)[x] + (if x == day then 1 else 0);
      }
    }
    AscendingUnique(back, days);
  }

  lemma {:induction false} FilterMultiset(days: seq<int>, day: int)
    ensures forall x :: multiset(Filter(days, Without(day)))[x] == if x == day then 0 else multiset(days)[x]
  {
    if days != [] {
      assert days == [days[0]] + days[1..];
      FilterMultiset(days[1..], day);
      var rest := Filter(days[1..], Without(day));
      assert Filter(days, Without(day)) == (if days[0] != day then [days[0]] else []) + rest;
    }
  }

  /** Two strictly ascending lists with the same elements are equal. */
  lemma {:induction false} AscendingUnique(a: seq<int>, b: seq<int>)
    requires Ascending(a) && Ascending(b) && multiset(a) == multiset(b)
    ensures a == b
  {
    if a == [] {
      assert |b| == |multiset(b)|;
    } else {
      assert b != [] by { assert a[0] in multiset(b); }
      assert a[0] == b[0] by {
        HeadIsLeast(a, b[0]);
        HeadIsLeast(b, a[0]);
      }
      assert multiset(a[1..]) == multiset(b[1..]) by {
        TailMultiset(a);
        TailMultiset(b);
      }
      assert a[1..] == b[1..] by {
        AscendingTail(a);
        AscendingTail(b);
        AscendingUnique(a[1..], b[1..]);
      }
      SameHeadSameTail(a, b);
    }
  }

  lemma SameHeadSameTail(a: seq<int>, b: seq<int>)
    requires a != [] && b != [] && a[0] == b[0] && a[1..] == b[1..]
    ensures a == b
  {
    assert a == [a[0]] + a[1..] && b == [b[0]] + b[1..];
  }

  lemma HeadIsLeast(a: seq<int>, x: int)
    requires Ascending(a) && x in multiset(a)
    ensures a[0] <= x
  {
    var i :| 0 <= i < |a| && a[i] == x;
  }

  lemma TailMultiset(a: seq<int>)
    requires a != []
    ensures multiset(a[1..]) == multiset(a) - multiset{a[0]}
  {
    assert a == [a[0]] + a[1..];
  }

  lemma AscendingTail(a: seq<int>)
    requires Ascending(a) && a != []
    ensures Ascending(a[1..])
  {
    forall i, j | 0 <= i < j < |a[1..]|
      ensures a[1..][i] < a[1..][j]
    {
      assert a[1..][i] == a[i + 1] && a[1..][j] == a[j + 1];
    }
  }

  // ---------------------------------------------------------------------
  // The form's signals

  class RecurrenceFields {
    var weekday: int
    var monthDay: int
    var weekdays: seq<int>
    var customInterval: int

    constructor (weekday: int, monthDay: int, weekdays: seq<int>, customInterval: int)
      ensures this.weekday == weekday && this.monthDay == monthDay
      ensures this.weekdays == weekdays && this.customInterval == customInterval
    {
      this.weekday := weekday;
      this.monthDay := monthDay;
      this.weekdays := weekdays;
      this.customInterval := customInterval;
    }

    /** TaskWeekdayField's on:change. */
    method OnWeekdayChange(input: string)
      modifies this
      ensures weekday == ChosenWeekday(old(weekday), input)
      ensures monthDay == old(monthDay) && weekdays == old(weekdays) && customInterval == old(customInterval)
    {
      var parsed := ParseU8(input);
      if parsed.Some? {
        weekday := parsed.value;
      }
    }

    /** TaskMonthDayField's on:input. */
    method OnMonthDayInput(input: string)
      modifies this
      ensures monthDay == ClampedMonthDay(old(monthDay), input)
      ensures old(1 <= monthDay <= 31) ==> 1 <= monthDay <= 31
      ensures weekday == old(weekday) && weekdays == old(weekdays) && customInterval == old(customInterval)
    {
      var parsed := ParseU8(input);
      if parsed.Some? {
        monthDay := Clamp(parsed.value, 1, 31);
      }
    }

    /** TaskWeekdaysField's on:change for the checkbox of day. */
    method OnWeekdayToggle(day: int, checked: bool)
      modifies this
      ensures weekdays == Toggled(old(weekdays), day, checked)
      ensures old(Ascending(weekdays)) ==> Ascending(weekdays)
      ensures weekday == old(weekday) && monthDay == old(monthDay) && customInterval == old(customInterval)
    {
      if Ascending(weekdays) {
        ToggledKeepsAscending(weekdays, day, checked);
      }
      if checked {
        if day !in weekdays {
          weekdays := SortBy(weekdays + [day], ByValue());
        }
      } else {
        weekdays := Filter(weekdays, Without(day));
      }
    }

    /** TaskCustomIntervalField's on:input. */
    method OnIntervalInput(input: string)
      modifies this
      ensures customInterval == FlooredInterval(old(customInterval), input)
      ensures old(customInterval >= 1) ==> customInterval >= 1
      ensures weekday == old(weekday) && monthDay == old(monthDay) && weekdays == old(weekdays)
    {
      var parsed := ParseI32(input);
      if parsed.Some? {
        customInterval := if parsed.value < 1 then 1 else parsed.value;
      }
    }
  }
}
