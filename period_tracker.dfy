/**
 * The habit tracker row of the web client: one icon per recent period,
 * oldest first, and an "in progress" icon for today while today has no
 * result yet. For a bad habit the colours of done and not done swap.
 */
module PeriodTracker {
  import opened Dates
  import opened Types

  datatype PeriodDisplay = PeriodDisplay(periodStart: Date, status: PeriodStatus)

  /** today_has_entry, with today given. */
  function TodayHasEntry(periods: seq<PeriodDisplay>, today: Date): (b: bool)
    ensures b <==> exists i :: 0 <= i < |periods| && periods[i].periodStart == today
  {
    if periods == [] then false
    else if periods[0].periodStart == today then true
    else
      var rest := TodayHasEntry(periods[1..], today);
      assert forall i :: 1 <= i < |periods| ==> periods[i] == periods[1..][i - 1];
      rest
  }

  /** The in-progress icon: requested, and today has no result yet. */
  predicate ShowsInProgress(requested: bool, periods: seq<PeriodDisplay>, today: Date)
  {
    requested && !TodayHasEntry(periods, today)
  }

  datatype Cell = Cell(icon: string, cssClass: string)

  /** The icon and CSS class of a period. */
  function PeriodCell(status: PeriodStatus, isBadHabit: bool): (c: Cell)
    ensures status == Skipped ==> c == Cell("-", "period-skipped")
    ensures status == Completed ==> c.icon == "✓"
    ensures status == Failed ==> c.icon == "✗"
  {
    match status
    case Completed => if isBadHabit then Cell("✓", "period-failed") else Cell("✓", "period-completed")
    case Failed => if isBadHabit then Cell("✗", "period-completed") else Cell("✗", "period-failed")
    case Skipped => Cell("-", "period-skipped")
  }

  /**
   * The colours: for a good habit a completed period is green and a
   * failed one red; a bad habit swaps the two; the icon never depends on
   * the kind of habit.
   */
  lemma PeriodCellColours(status: PeriodStatus)
    ensures PeriodCell(Completed, false).cssClass == "period-completed"
    ensures PeriodCell(Failed, false).cssClass == "period-failed"
    ensures PeriodCell(Completed, true).cssClass == PeriodCell(Failed, false).cssClass
    ensures PeriodCell(Failed, true).cssClass == PeriodCell(Completed, false).cssClass
    ensures PeriodCell(status, true).icon == PeriodCell(status, false).icon
    ensures status != Skipped ==> PeriodCell(status, true).cssClass != PeriodCell(status, false).cssClass
  {
  }

  const InProgressCell: Cell := Cell("○", "period-in-progress")

  /** The icons of PeriodTracker (and PeriodTrackerCompact), in order. */
  function Row(periods: seq<PeriodDisplay>, showInProgress: bool, isBadHabit: bool, today: Date): (r: seq<Cell>)
    ensures |r| == |periods| + (if ShowsInProgress(showInProgress, periods, today) then 1 else 0)
    ensures forall i :: 0 <= i < |periods| ==> r[i] == PeriodCell(periods[i].status, isBadHabit)
    ensures ShowsInProgress(showInProgress, periods, today) ==> r[|r| - 1] == InProgressCell
  {
    Cells(periods, isBadHabit) + (if ShowsInProgress(showInProgress, periods, today) then [InProgressCell] else [])
  }

  function Cells(periods: seq<PeriodDisplay>, isBadHabit: bool): (r: seq<Cell>)
    ensures |r| == |periods|
    ensures forall i :: 0 <= i < |periods| ==> r[i] == PeriodCell(periods[i].status, isBadHabit)
  {
    if periods == [] then [] else [PeriodCell(periods[0].status, isBadHabit)] + Cells(periods[1..], isBadHabit)
  }

  /** Nothing is drawn exactly when there are no periods and no in-progress icon. */
  lemma EmptyRow(periods: seq<PeriodDisplay>, showInProgress: bool, isBadHabit: bool, today: Date)
    ensures Row(periods, showInProgress, isBadHabit, today) == [] <==> (periods == [] && !showInProgress)
  {
  }

  /** Once today has a result, the in-progress icon is gone whatever was requested. */
  lemma TodayRecordedHidesInProgress(periods: seq<PeriodDisplay>, i: nat, showInProgress: bool, today: Date)
    requires i < |periods| && periods[i].periodStart == today
    ensures !ShowsInProgress(showInProgress, periods, today)
    ensures InProgressCell !in Row(periods, showInProgress, false, today)
  {
  }
}
