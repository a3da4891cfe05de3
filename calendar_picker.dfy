/**
 * The custom-dates picker of the web client: a text field holding a date
 * and the list of dates picked so far, kept sorted and free of repeats.
 */
module CalendarPicker {
  import opened Wrappers
  import opened Dates
  import opened Text
  import opened Query

  /**
   * NaiveDate::parse_from_str(s, "%Y-%m-%d") on the text a date field
   * produces: four digits, a dash, two digits, a dash, two digits, naming
   * a real date.
   */
  function ParseIsoDate(s: string): (r: Option<Date>)
    ensures r.Some? ==> Valid(r.value) && 0 <= r.value.year <= 9999
    ensures r.Some? ==> |s| == 10
  {
    if |s| == 10 && s[4] == '-' && s[7] == '-'
       && AllDigits(s[..4]) && AllDigits(s[5..7]) && AllDigits(s[8..])
    then
      var y := DigitsValue(s[..4]);
      assert y < 10000 by { DigitsBound(s[..4]); }
      FromYmd(y, DigitsValue(s[5..7]), DigitsValue(s[8..]))
    else None
  }

  lemma {:induction false} DigitsBound(s: string)
    requires AllDigits(s)
    ensures DigitsValue(s) < Pow10(|s|)
  {
    if s != [] {
      DigitsBound(s[..|s| - 1]);
    }
  }

  /** date.format("%Y-%m-%d") for a year of four digits. */
  function FormatIsoDate(d: Date): (s: string)
    requires Valid(d) && 0 <= d.year <= 9999
    ensures |s| == 10
  {
    PadDigits(d.year, 4) + "-" + PadDigits(d.month, 2) + "-" + PadDigits(d.day, 2)
  }

  /** A listed date, shown and read back, is the same date. */
  lemma ParseFormat(d: Date)
    requires Valid(d) && 0 <= d.year <= 9999
    ensures ParseIsoDate(FormatIsoDate(d)) == Some(d)
  {
    var s := FormatIsoDate(d);
    assert s[..4] == PadDigits(d.year, 4);
    assert s[5..7] == PadDigits(d.month, 2);
    assert s[8..] == PadDigits(d.day, 2);
    PadDigitsValue(d.year, 4);
    PadDigitsValue(d.month, 2);
    PadDigitsValue(d.day, 2);
  }

  /** Empty and garbled input are refused. */
  lemma ParseRefuses()
    ensures ParseIsoDate("") == None
    ensures ParseIsoDate("invalid-date") == None
    ensures ParseIsoDate("15/06/2024") == None
  {
    assert "15/06/2024"[4] != '-';
    assert "invalid-date"[4] != '-';
  }

  /** Ascending by date (NaiveDate's Ord). */
  function Chronological(): Date -> seq<int>
  {
    (d: Date) => DateKey(d)
  }

  /** Strictly ascending: sorted, with no date twice. */
  predicate StrictlyAscending(ds: seq<Date>)
  {
    forall i, j :: 0 <= i < j < |ds| ==> LexLess(ds[i], ds[j])
  }

  /** A sorted list without repeats is strictly ascending. */
  lemma SortedDistinctAscending(ds: seq<Date>)
    requires SortedBy(ds, Chronological()) && Distinct(ds)
    ensures StrictlyAscending(ds)
  {
    forall i, j | 0 <= i < j < |ds|
      ensures LexLess(ds[i], ds[j])
    {
      DateKeyOrder(ds[j], ds[i]);
      LexTotal(ds[i], ds[j]);
    }
  }

  /** And back: a strictly ascending list is sorted and has no repeats. */
  lemma AscendingSortedDistinct(ds: seq<Date>)
    requires StrictlyAscending(ds)
    ensures SortedBy(ds, Chronological()) && Distinct(ds)
  {
    forall i, j | 0 <= i < j < |ds|
      ensures !KeyLess(DateKey(ds[j]), DateKey(ds[i])) && ds[i] != ds[j]
    {
      DateKeyOrder(ds[j], ds[i]);
      LexTotal(ds[i], ds[j]);
    }
  }

  /** The list after a date is added: pushed and sorted when absent, untouched otherwise. */
  function Added(ds: seq<Date>, d: Date): (r: seq<Date>)
    ensures d in ds ==> r == ds
    ensures d !in ds ==> multiset(r) == multiset(ds) + multiset{d} && SortedBy(r, Chronological())
    ensures Distinct(ds) ==> Distinct(r)
    ensures Distinct(ds) ==> StrictlyAscending(r) || d in ds
  {
    if d in ds then ds
    else
      var r := SortBy(ds + [d], Chronological());
      assert multiset(ds + [d]) == multiset(ds) + multiset{d};
      PushedDistinct(ds, d, r);
      r
  }

  lemma PushedDistinct(ds: seq<Date>, d: Date, r: seq<Date>)
    requires d !in ds && multiset(r) == multiset(ds + [d]) && SortedBy(r, Chronological())
    ensures Distinct(ds) ==> Distinct(r) && StrictlyAscending(r)
  {
    if Distinct(ds) {
      assert Distinct(ds + [d]);
      DistinctOfMultiset(ds + [d], r);
      SortedDistinctAscending(r);
    }
  }

  function Except(d: Date): Date -> bool
  {
    (x: Date) => x != d
  }

  /** The list after a date is removed: every copy gone, the rest in order. */
  function Removed(ds: seq<Date>, d: Date): (r: seq<Date>)
    ensures d !in r
    ensures forall x :: x in r <==> x in ds && x != d
  {
    Filter(ds, Except(d))
  }

  lemma RemovedKeepsAscending(ds: seq<Date>, d: Date)
    requires StrictlyAscending(ds)
    ensures StrictlyAscending(Removed(ds, d))
    ensures d !in ds ==> Removed(ds, d) == ds
  {
    if d !in ds {
      FilterAll(ds, Except(d));
    }
    AscendingSortedDistinct(ds);
    FilterKeeps(ds, Except(d), Chronological());
    SortedDistinctAscending(Removed(ds, d));
  }

  const EmptyInputError: string := "Please select a date"
  const BadFormatError: string := "Invalid date format. Use YYYY-MM-DD"

  class Picker {
    var selectedDates: seq<Date>
    var dateInput: string
    var error: Option<string>

    constructor (dates: seq<Date>)
      ensures selectedDates == dates && dateInput == [] && error == None
    {
      selectedDates := dates;
      dateInput := [];
      error := None;
    }

    /** Typing into the date field. */
    method SetInput(s: string)
      modifies this
      ensures dateInput == s && selectedDates == old(selectedDates) && error == old(error)
    {
      dateInput := s;
    }

    /**
     * add_date: an empty field or text that is not a date sets an error and
     * changes nothing else; a date is added unless present, and the field
     * and the error are cleared.
     */
    method AddDate()
      modifies this
      ensures old(dateInput) == [] ==>
        error == Some(EmptyInputError) && selectedDates == old(selectedDates) && dateInput == old(dateInput)
      ensures old(dateInput) != [] && ParseIsoDate(old(dateInput)).None? ==>
        error == Some(BadFormatError) && selectedDates == old(selectedDates) && dateInput == old(dateInput)
      ensures old(dateInput) != [] && ParseIsoDate(old(dateInput)).Some? ==>
        selectedDates == Added(old(selectedDates), ParseIsoDate(old(dateInput)).value)
        && dateInput == [] && error == None
    {
      if dateInput == [] {
        error := Some(EmptyInputError);
        return;
      }
      match ParseIsoDate(dateInput)
      case Some(d) =>
        if d !in selectedDates {
          selectedDates := SortBy(selectedDates + [d], Chronological());
        }
        dateInput := [];
        error := None;
      case None =>
        error := Some(BadFormatError);
    }

    /** The remove button of a listed date. */
    method RemoveDate(d: Date)
      modifies this
      ensures selectedDates == Removed(old(selectedDates), d)
      ensures dateInput == old(dateInput) && error == old(error)
    {
      selectedDates := Filter(selectedDates, Except(d));
    }
  }

  /** Adding keeps a strictly ascending list strictly ascending, and puts the date in it. */
  lemma AddKeepsAscending(ds: seq<Date>, d: Date)
    requires StrictlyAscending(ds)
    ensures StrictlyAscending(Added(ds, d)) && d in Added(ds, d)
  {
    var r := Added(ds, d);
    AscendingSortedDistinct(ds);
    if d !in ds {
      assert d in multiset(r);
    }
  }
}
