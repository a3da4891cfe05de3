/**
 * The task_period_results table: one finalised outcome (completed, failed
 * or skipped) per task and period, identified by the task and the first
 * day of the period. finalize_period is an upsert on that pair, so the
 * table never holds two rows for the same task and period start; the
 * table below keeps that as its invariant.
 */
module PeriodResults {
  import opened Wrappers
  import opened Dates
  import opened Types
  import opened Query

  datatype PeriodResult = PeriodResult(
    id: Uuid,
    taskId: Uuid,
    periodStart: Date,
    periodEnd: Date,
    status: PeriodStatus,
    completionsCount: int,
    targetCount: int,
    finalizedAt: Instant,
    finalizedBy: string,
    notes: Option<string>)

  datatype PeriodResultError = NotFound

  predicate HasKey(r: PeriodResult, taskId: Uuid, start: Date)
  {
    r.taskId == taskId && r.periodStart == start
  }

  /** No two rows share (task_id, period_start). */
  predicate KeysUnique(rows: seq<PeriodResult>)
  {
    forall i, j :: 0 <= i < j < |rows| ==> !HasKey(rows[j], rows[i].taskId, rows[i].periodStart)
  }

  /** The position of the row for (taskId, start), if there is one. */
  function Find(rows: seq<PeriodResult>, taskId: Uuid, start: Date): (r: Option<nat>)
    ensures r.Some? ==> r.value < |rows| && HasKey(rows[r.value], taskId, start)
    ensures r.None? <==> forall i :: 0 <= i < |rows| ==> !HasKey(rows[i], taskId, start)
  {
    if rows == [] then None
    else if HasKey(rows[|rows| - 1], taskId, start) then Some(|rows| - 1)
    else Find(rows[..|rows| - 1], taskId, start)
  }

  /** In a table with unique keys, the row with a key is the one Find returns. */
  lemma FindUnique(rows: seq<PeriodResult>, i: nat, taskId: Uuid, start: Date)
    requires KeysUnique(rows) && i < |rows| && HasKey(rows[i], taskId, start)
    ensures Find(rows, taskId, start) == Some(i)
  {
  }

  /** get_period_result: the row for (task_id, period_start), if any. */
  function GetPeriodResult(rows: seq<PeriodResult>, taskId: Uuid, start: Date): (r: Option<PeriodResult>)
    ensures r.Some? ==> r.value in rows && HasKey(r.value, taskId, start)
    ensures r.None? <==> forall i :: 0 <= i < |rows| ==> !HasKey(rows[i], taskId, start)
  {
    match Find(rows, taskId, start)
    case Some(i) => Some(rows[i])
    case None => None
  }

  function KeyIs(taskId: Uuid, start: Date): PeriodResult -> bool
  {
    (r: PeriodResult) => HasKey(r, taskId, start)
  }

  /** is_period_finalized: SELECT COUNT(*) for the key is positive. */
  function IsPeriodFinalized(rows: seq<PeriodResult>, taskId: Uuid, start: Date): (b: bool)
    ensures b <==> exists i :: 0 <= i < |rows| && HasKey(rows[i], taskId, start)
  {
    CountPositive(rows, KeyIs(taskId, start));
    Count(rows, KeyIs(taskId, start)) > 0
  }

  /** A period counts as finalised exactly when get_period_result finds its row. */
  lemma FinalizedIffStored(rows: seq<PeriodResult>, taskId: Uuid, start: Date)
    ensures IsPeriodFinalized(rows, taskId, start) <==> GetPeriodResult(rows, taskId, start).Some?
  {
    if GetPeriodResult(rows, taskId, start).Some? {
      var i := Find(rows, taskId, start).value;
      assert HasKey(rows[i], taskId, start);
    }
  }

  /** WHERE task_id = ? AND period_start >= ? AND period_start <= ? (inclusive). */
  predicate InRange(r: PeriodResult, taskId: Uuid, startDate: Date, endDate: Date)
  {
    r.taskId == taskId && !LexLess(r.periodStart, startDate) && !LexLess(endDate, r.periodStart)
  }

  /** The WHERE clause of get_period_results_for_task as a row predicate. */
  function InRangeOf(taskId: Uuid, startDate: Date, endDate: Date): PeriodResult -> bool
  {
    (r: PeriodResult) => InRange(r, taskId, startDate, endDate)
  }

  function NewestFirst(r: PeriodResult): seq<int>
  {
    DateKeyDesc(r.periodStart)
  }

  /**
   * get_period_results_for_task: the rows of the task whose period starts
   * within [startDate, endDate], ordered by period_start DESC.
   */
  function ResultsForTask(rows: seq<PeriodResult>, taskId: Uuid, startDate: Date, endDate: Date): (rs: seq<PeriodResult>)
    ensures forall i :: 0 <= i < |rs| ==> rs[i] in rows && InRange(rs[i], taskId, startDate, endDate)
    ensures forall i :: 0 <= i < |rows| && InRange(rows[i], taskId, startDate, endDate) ==> rows[i] in rs
    ensures |rs| == Count(rows, InRangeOf(taskId, startDate, endDate))
    ensures forall i, j :: 0 <= i < j < |rs| ==> !LexLess(rs[i].periodStart, rs[j].periodStart)
  {
    var rs := Select(rows, InRangeOf(taskId, startDate, endDate), NewestFirst);
    forall i, j | 0 <= i < j < |rs|
      ensures !LexLess(rs[i].periodStart, rs[j].periodStart)
    {
      assert !KeyLess(NewestFirst(rs[j]), NewestFirst(rs[i]));
      DateKeyOrder(rs[j].periodStart, rs[i].periodStart);
    }
    rs
  }

  datatype PeriodCounts = PeriodCounts(completed: nat, failed: nat, skipped: nat)

  predicate InRangeWith(r: PeriodResult, taskId: Uuid, startDate: Date, endDate: Date, status: PeriodStatus)
  {
    InRange(r, taskId, startDate, endDate) && r.status == status
  }

  function InRangeWithOf(taskId: Uuid, startDate: Date, endDate: Date, status: PeriodStatus): PeriodResult -> bool
  {
    (r: PeriodResult) => InRangeWith(r, taskId, startDate, endDate, status)
  }

  /** count_period_results: one COUNT(*) per status over the inclusive range. */
  function CountPeriodResults(rows: seq<PeriodResult>, taskId: Uuid, startDate: Date, endDate: Date): (c: PeriodCounts)
    ensures c.completed == Count(rows, InRangeWithOf(taskId, startDate, endDate, Completed))
    ensures c.failed == Count(rows, InRangeWithOf(taskId, startDate, endDate, Failed))
    ensures c.skipped == Count(rows, InRangeWithOf(taskId, startDate, endDate, Skipped))
  {
    PeriodCounts(
      Count(rows, InRangeWithOf(taskId, startDate, endDate, Completed)),
      Count(rows, InRangeWithOf(taskId, startDate, endDate, Failed)),
      Count(rows, InRangeWithOf(taskId, startDate, endDate, Skipped)))
  }

  /** The three counts split the rows in range: together they are all of them. */
  lemma CountsPartition(rows: seq<PeriodResult>, taskId: Uuid, startDate: Date, endDate: Date)
    ensures var c := CountPeriodResults(rows, taskId, startDate, endDate);
      c.completed + c.failed + c.skipped == |ResultsForTask(rows, taskId, startDate, endDate)|
  {
    var pc := InRangeWithOf(taskId, startDate, endDate, Completed);
    var pf := InRangeWithOf(taskId, startDate, endDate, Failed);
    var ps := InRangeWithOf(taskId, startDate, endDate, Skipped);
    var pcf := (r: PeriodResult) => pc(r) || pf(r);
    var all := InRangeOf(taskId, startDate, endDate);
    CountSplit(rows, pc, pf, pcf);
    CountSplit(rows, pcf, ps, all);
  }

  /** The row finalize_period writes over an existing one: id, start and end stay. */
  function Refinalized(prior: PeriodResult, status: PeriodStatus, completions: int, target: int,
                       now: Instant, finalizer: string, notes: Option<string>): (r: PeriodResult)
    ensures r.id == prior.id && r.taskId == prior.taskId
    ensures r.periodStart == prior.periodStart && r.periodEnd == prior.periodEnd
    ensures r.status == status && r.completionsCount == completions && r.targetCount == target
    ensures r.finalizedAt == now && r.finalizedBy == finalizer && r.notes == notes
  {
    prior.(status := status, completionsCount := completions, targetCount := target,
          finalizedAt := now, finalizedBy := finalizer, notes := notes)
  }

  /** What update_period_status writes: status and finalisation data only. */
  function WithNewStatus(prior: PeriodResult, status: PeriodStatus, now: Instant, finalizer: string,
                      notes: Option<string>): (r: PeriodResult)
    ensures r.id == prior.id && r.taskId == prior.taskId
    ensures r.periodStart == prior.periodStart && r.periodEnd == prior.periodEnd
    ensures r.completionsCount == prior.completionsCount && r.targetCount == prior.targetCount
    ensures r.status == status && r.finalizedAt == now && r.finalizedBy == finalizer && r.notes == notes
  {
    prior.(status := status, finalizedAt := now, finalizedBy := finalizer, notes := notes)
  }

  /** Replacing a row by one with the same key keeps the keys unique. */
  lemma ReplaceKeepsUnique(rows: seq<PeriodResult>, i: nat, r: PeriodResult)
    requires KeysUnique(rows) && i < |rows| && HasKey(r, rows[i].taskId, rows[i].periodStart)
    ensures KeysUnique(rows[i := r])
  {
  }

  /** Appending a row with a fresh key keeps the keys unique. */
  lemma AppendKeepsUnique(rows: seq<PeriodResult>, r: PeriodResult)
    requires KeysUnique(rows)
    requires forall i :: 0 <= i < |rows| ==> !HasKey(rows[i], r.taskId, r.periodStart)
    ensures KeysUnique(rows + [r])
  {
  }

  /** Lookups of other keys see the same row after a replacement by key. */
  lemma ReplaceOtherKeys(rows: seq<PeriodResult>, i: nat, r: PeriodResult, taskId: Uuid, start: Date)
    requires KeysUnique(rows) && i < |rows| && HasKey(r, rows[i].taskId, rows[i].periodStart)
    requires !HasKey(rows[i], taskId, start)
    ensures GetPeriodResult(rows[i := r], taskId, start) == GetPeriodResult(rows, taskId, start)
  {
    var rows' := rows[i := r];
    ReplaceKeepsUnique(rows, i, r);
    match Find(rows, taskId, start)
    case Some(j) =>
      assert rows'[j] == rows[j];
      FindUnique(rows', j, taskId, start);
    case None =>
      assert forall k :: 0 <= k < |rows'| ==> !HasKey(rows'[k], taskId, start);
  }

  /** Lookups of other keys see the same row after an append. */
  lemma AppendOtherKeys(rows: seq<PeriodResult>, r: PeriodResult, taskId: Uuid, start: Date)
    requires KeysUnique(rows) && !HasKey(r, taskId, start)
    requires forall i :: 0 <= i < |rows| ==> !HasKey(rows[i], r.taskId, r.periodStart)
    ensures GetPeriodResult(rows + [r], taskId, start) == GetPeriodResult(rows, taskId, start)
  {
    assert (rows + [r])[..|rows|] == rows;
  }

  class PeriodResultTable {
    var rows: seq<PeriodResult>

    predicate Valid()
      reads this
    {
      KeysUnique(rows)
    }

    constructor ()
      ensures rows == [] && Valid()
    {
      rows := [];
    }

    /**
     * finalize_period: update the row of (taskId, start) if there is one,
     * keeping its id and period end; otherwise insert a row with the
     * fresh id newId. now is the finalisation instant.
     */
    method FinalizePeriod(taskId: Uuid, start: Date, end: Date, status: PeriodStatus,
                          completions: int, target: int, finalizer: string, notes: Option<string>,
                          now: Instant, newId: Uuid) returns (r: PeriodResult)
      requires Valid()
      modifies this
      ensures Valid()
      ensures GetPeriodResult(rows, taskId, start) == Some(r)
      ensures match old(GetPeriodResult(rows, taskId, start))
        case Some(o) => r == Refinalized(o, status, completions, target, now, finalizer, notes)
                        && |rows| == old(|rows|)
        case None => r == PeriodResult(newId, taskId, start, end, status, completions, target, now, finalizer, notes)
                     && rows == old(rows) + [r]
      ensures forall t: Uuid, s: Date :: !(t == taskId && s == start) ==>
        GetPeriodResult(rows, t, s) == old(GetPeriodResult(rows, t, s))
    {
      var existing := Find(rows, taskId, start);
      if existing.Some? {
        var i := existing.value;
        r := Refinalized(rows[i], status, completions, target, now, finalizer, notes);
        ghost var before := rows;
        ReplaceKeepsUnique(rows, i, r);
        rows := rows[i := r];
        FindUnique(rows, i, taskId, start);
        forall t: Uuid, s: Date | !(t == taskId && s == start)
          ensures GetPeriodResult(rows, t, s) == GetPeriodResult(before, t, s)
        {
          ReplaceOtherKeys(before, i, r, t, s);
        }
      } else {
        r := PeriodResult(newId, taskId, start, end, status, completions, target, now, finalizer, notes);
        ghost var before := rows;
        AppendKeepsUnique(rows, r);
        rows := rows + [r];
        FindUnique(rows, |rows| - 1, taskId, start);
        forall t: Uuid, s: Date | !(t == taskId && s == start)
          ensures GetPeriodResult(rows, t, s) == GetPeriodResult(before, t, s)
        {
          AppendOtherKeys(before, r, t, s);
        }
      }
    }

    /**
     * update_period_status: rewrite status, finalized_at, finalized_by and
     * notes of the row of (taskId, start); NotFound when there is none.
     */
    method UpdatePeriodStatus(taskId: Uuid, start: Date, status: PeriodStatus, finalizer: string,
                              notes: Option<string>, now: Instant)
      returns (res: Result<PeriodResult, PeriodResultError>)
      requires Valid()
      modifies this
      ensures Valid()
      ensures match old(GetPeriodResult(rows, taskId, start))
        case None => res == Err(NotFound) && rows == old(rows)
        case Some(o) => res == Ok(WithNewStatus(o, status, now, finalizer, notes))
                        && GetPeriodResult(rows, taskId, start) == Some(res.value)
                        && |rows| == old(|rows|)
      ensures forall t: Uuid, s: Date :: !(t == taskId && s == start) ==>
        GetPeriodResult(rows, t, s) == old(GetPeriodResult(rows, t, s))
    {
      var existing := Find(rows, taskId, start);
      if existing.None? {
        return Err(NotFound);
      }
      var i := existing.value;
      var r := WithNewStatus(rows[i], status, now, finalizer, notes);
      ghost var before := rows;
      ReplaceKeepsUnique(rows, i, r);
      rows := rows[i := r];
      FindUnique(rows, i, taskId, start);
      forall t: Uuid, s: Date | !(t == taskId && s == start)
        ensures GetPeriodResult(rows, t, s) == GetPeriodResult(before, t, s)
      {
        ReplaceOtherKeys(before, i, r, t, s);
      }
      res := Ok(r);
    }
  }

  /** A second finalize of the same period updates the row instead of adding one. */
  method RefinalizeExample(t: PeriodResultTable, taskId: Uuid, start: Date, end: Date, now: Instant)
    requires t.Valid()
    modifies t
    ensures t.Valid()
    ensures |t.rows| == old(|t.rows|) + (if old(IsPeriodFinalized(t.rows, taskId, start)) then 0 else 1)
    ensures IsPeriodFinalized(t.rows, taskId, start)
    ensures GetPeriodResult(t.rows, taskId, start).value.status == Completed
  {
    FinalizedIffStored(t.rows, taskId, start);
    var first := t.FinalizePeriod(taskId, start, end, Failed, 0, 1, "system", None, now, 1);
    var second := t.FinalizePeriod(taskId, start, end, Completed, 1, 1, "user", None, now + 1, 2);
    assert second.id == first.id;
    FinalizedIffStored(t.rows, taskId, start);
  }
}
