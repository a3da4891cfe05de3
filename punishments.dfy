/**
 * Punishments, their options and their assignments (the
 * user_punishments table). A RandomChoice punishment links to other
 * punishments of its household (the punishment_options table); a user
 * holding one picks one of its options, which is assigned in its place.
 * In an Assignment of this table itemId is the punishment, doneAmount
 * the completed amount and pendingAmount the pending completions.
 */
module Punishments {
  import opened Wrappers
  import opened Dates
  import opened Types
  import opened Query
  import opened Assignments

  datatype PunishmentType = Standard | RandomChoice

  datatype Punishment = Punishment(
    id: Uuid,
    householdId: Uuid,
    name: string,
    description: string,
    requiresConfirmation: bool,
    punishmentType: PunishmentType,
    createdAt: Instant)

  /** One row of punishment_options: parentId offers optionId. */
  datatype PunishmentOption = PunishmentOption(parentId: Uuid, optionId: Uuid)

  datatype PunishmentError =
    | NotFound
    | UserPunishmentNotFound
    | NothingToComplete
    | NothingPending
    | InsufficientOptions
    | OptionNotFound
    | NotRandomChoice
    | NoOptions

  // ---------------------------------------------------------------------
  // Options

  function OptionOf(parentId: Uuid): PunishmentOption -> bool
  {
    (o: PunishmentOption) => o.parentId == parentId
  }

  function NotOptionOf(parentId: Uuid): PunishmentOption -> bool
  {
    (o: PunishmentOption) => o.parentId != parentId
  }

  function LinkIs(parentId: Uuid, optionId: Uuid): PunishmentOption -> bool
  {
    (o: PunishmentOption) => o.parentId == parentId && o.optionId == optionId
  }

  function NotLink(parentId: Uuid, optionId: Uuid): PunishmentOption -> bool
  {
    (o: PunishmentOption) => !(o.parentId == parentId && o.optionId == optionId)
  }

  /** The option rows parentId gets for optionIds, in their order. */
  function OptionRows(parentId: Uuid, optionIds: seq<Uuid>): (r: seq<PunishmentOption>)
    ensures |r| == |optionIds|
    ensures forall k :: 0 <= k < |r| ==> r[k].parentId == parentId && r[k].optionId == optionIds[k]
  {
    seq(|optionIds|, k requires 0 <= k < |optionIds| => PunishmentOption(parentId, optionIds[k]))
  }

  /** An option must be a punishment of the parent's household. */
  predicate InHousehold(punishments: map<Uuid, Punishment>, id: Uuid, householdId: Uuid)
  {
    id in punishments && punishments[id].householdId == householdId
  }

  /** How many of optionIds, from the front, pass the household check. */
  function AcceptedPrefix(punishments: map<Uuid, Punishment>, optionIds: seq<Uuid>, householdId: Uuid): (n: nat)
    ensures n <= |optionIds|
    ensures forall k :: 0 <= k < n ==> InHousehold(punishments, optionIds[k], householdId)
    ensures n < |optionIds| ==> !InHousehold(punishments, optionIds[n], householdId)
  {
    if optionIds == [] || !InHousehold(punishments, optionIds[0], householdId) then 0
    else 1 + AcceptedPrefix(punishments, optionIds[1..], householdId)
  }

  /**
   * The loop over option_ids of create_punishment and update_punishment:
   * each id in turn is checked and linked, and the first one outside the
   * household stops the loop, the links made before it staying.
   */
  method LinkOptions(punishments: map<Uuid, Punishment>, parentId: Uuid, optionIds: seq<Uuid>, householdId: Uuid)
    returns (added: seq<PunishmentOption>, ok: bool)
    ensures added == OptionRows(parentId, optionIds[..AcceptedPrefix(punishments, optionIds, householdId)])
    ensures ok <==> AcceptedPrefix(punishments, optionIds, householdId) == |optionIds|
    ensures ok <==> forall k :: 0 <= k < |optionIds| ==> InHousehold(punishments, optionIds[k], householdId)
  {
    var n := AcceptedPrefix(punishments, optionIds, householdId);
    added := [];
    var i: int := 0;
    while i < |optionIds|
      invariant 0 <= i <= n
      invariant added == OptionRows(parentId, optionIds[..i])
    {
      if !InHousehold(punishments, optionIds[i], householdId) {
        return added, false;
      }
      added := added + [PunishmentOption(parentId, optionIds[i])];
      i := i + 1;
    }
    ok := true;
  }

  /**
   * The options a pick draws from: the punishments the parent's option
   * rows name, in table order, skipping rows whose punishment is gone.
   */
  function OptionIdsOf(punishments: map<Uuid, Punishment>, options: seq<PunishmentOption>, parentId: Uuid)
    : (r: seq<Uuid>)
    ensures forall id :: id in r ==> id in punishments && PunishmentOption(parentId, id) in options
    ensures forall k :: 0 <= k < |options| && options[k].parentId == parentId && options[k].optionId in punishments ==>
      options[k].optionId in r
  {
    if options == [] then []
    else
      var rest := OptionIdsOf(punishments, options[1..], parentId);
      if options[0].parentId == parentId && options[0].optionId in punishments then [options[0].optionId] + rest
      else rest
  }

  /** Deleting the rows of one link removes exactly those rows from the parent's count. */
  lemma {:induction false} CountAfterUnlink(options: seq<PunishmentOption>, parentId: Uuid, optionId: Uuid)
    ensures Count(Filter(options, NotLink(parentId, optionId)), OptionOf(parentId))
      == Count(options, OptionOf(parentId)) - Count(options, LinkIs(parentId, optionId))
  {
    if options != [] {
      CountAfterUnlink(options[1..], parentId, optionId);
      var rest := Filter(options[1..], NotLink(parentId, optionId));
      if NotLink(parentId, optionId)(options[0]) {
        assert Filter(options, NotLink(parentId, optionId)) == [options[0]] + rest;
        assert ([options[0]] + rest)[1..] == rest;
      } else {
        assert Filter(options, NotLink(parentId, optionId)) == rest;
      }
    }
  }

  /**
   * remove_punishment_option refuses at two options or fewer, so with
   * each option linked once a RandomChoice keeps at least two.
   */
  lemma RemoveOptionKeepsTwo(options: seq<PunishmentOption>, parentId: Uuid, optionId: Uuid)
    requires Count(options, LinkIs(parentId, optionId)) <= 1
    requires Count(options, OptionOf(parentId)) > 2
    ensures Count(Filter(options, NotLink(parentId, optionId)), OptionOf(parentId)) >= 2
  {
    CountAfterUnlink(options, parentId, optionId);
  }

  /**
   * The guard counts rows, not what remains: an option linked twice
   * takes both its rows with it, leaving a RandomChoice with one option.
   */
  lemma RemoveDuplicateOptionLeavesOne()
    ensures var options := [PunishmentOption(1, 2), PunishmentOption(1, 2), PunishmentOption(1, 3)];
      Count(options, OptionOf(1)) == 3
      && Count(Filter(options, NotLink(1, 2)), OptionOf(1)) == 1
  {
    var options := [PunishmentOption(1, 2), PunishmentOption(1, 2), PunishmentOption(1, 3)];
    CountAfterUnlink(options, 1, 2);
    assert options[1..] == [PunishmentOption(1, 2), PunishmentOption(1, 3)];
    assert options[1..][1..] == [PunishmentOption(1, 3)];
    assert Count(options, LinkIs(1, 2)) == 2;
  }

  // ---------------------------------------------------------------------
  // Picking an option

  /**
   * pick_random_option as written, from the user's row at i: the picked
   * punishment is assigned first, then the original row is deleted,
   * when the amount read before the assignment was at most 1, or loses
   * a unit otherwise.
   */
  function PickAsWritten(rows: seq<Assignment>, i: nat, pickedId: Uuid, now: Instant, newId: Uuid)
    : (r: (seq<Assignment>, Assignment))
    requires RowsValid(rows) && i < |rows| && FindId(rows, newId).None?
    ensures |r.0| <= |rows| + 1
  {
    var firstStep := Assign(rows, pickedId, rows[i].userId, rows[i].householdId, now, newId);
    (ConsumeAsWritten(firstStep.0, i, rows[i].amount, now), firstStep.1)
  }

  /**
   * The original unit consumed after the pick was assigned: the row at i
   * is deleted when the amount read before the pick was at most 1, and
   * otherwise loses one unit of what it holds now.
   */
  function ConsumeAsWritten(rows: seq<Assignment>, i: nat, amountBefore: int, now: Instant): (r: seq<Assignment>)
    requires i < |rows|
    ensures amountBefore <= 1 ==> |r| == |rows| - 1
    ensures amountBefore > 1 ==> |r| == |rows| && r[i].amount == rows[i].amount - 1
  {
    if amountBefore <= 1 then RemoveAt(rows, i)
    else rows[i := rows[i].(amount := rows[i].amount - 1, updatedAt := now)]
  }

  /**
   * A RandomChoice punishment may list itself. Picking itself from a row
   * of amount 1 adds a unit to that very row, which is then deleted: the
   * user ends with no assignment while the result reports amount 2.
   */
  lemma SelfPickIsLost()
    ensures var r := PickAsWritten([Assignment(1, 10, 20, 30, 1, 0, 0, 0)], 0, 20, 5, 2);
      r.1.amount == 2 && GetTriple(r.0, 10, 20, 30).None?
  {
    var rows := [Assignment(1, 10, 20, 30, 1, 0, 0, 0)];
    assert FindTriple(rows, 10, 20, 30) == Some(0);
    var firstStep := Assign(rows, 20, 10, 30, 5, 2);
    assert |firstStep.0| == 1;
    assert RemoveAt(firstStep.0, 0) == [];
  }

  /** Picking any punishment other than the row's own, both orders give the same table and row. */
  lemma PickAgreesUnlessSelf(rows: seq<Assignment>, i: nat, pickedId: Uuid, now: Instant, newId: Uuid)
    requires RowsValid(rows) && i < |rows| && FindId(rows, newId).None?
    requires pickedId != rows[i].itemId
    ensures PickAsWritten(rows, i, pickedId, now, newId) == Pick(rows, i, pickedId, now, newId)
  {
    var a := rows[i];
    if FindTriple(rows, a.userId, pickedId, a.householdId).Some? {
      PickAgreesExisting(rows, i, pickedId, now, newId);
    } else {
      PickAgreesNew(rows, i, pickedId, now, newId);
    }
  }

  lemma PickAgreesExisting(rows: seq<Assignment>, i: nat, pickedId: Uuid, now: Instant, newId: Uuid)
    requires RowsValid(rows) && i < |rows| && FindId(rows, newId).None?
    requires pickedId != rows[i].itemId && FindTriple(rows, rows[i].userId, pickedId, rows[i].householdId).Some?
    ensures PickAsWritten(rows, i, pickedId, now, newId) == Pick(rows, i, pickedId, now, newId)
  {
    var j := FindTriple(rows, rows[i].userId, pickedId, rows[i].householdId).value;
    var j' := if rows[i].amount <= 1 && j > i then j - 1 else j;
    PickExisting(rows, i, pickedId, now, newId, j, j');
    PickAsWrittenExisting(rows, i, pickedId, now, newId, j, j');
  }

  lemma PickExisting(rows: seq<Assignment>, i: nat, pickedId: Uuid, now: Instant, newId: Uuid, j: nat, j': nat)
    requires RowsValid(rows) && i < |rows| && FindId(rows, newId).None?
    requires pickedId != rows[i].itemId && FindTriple(rows, rows[i].userId, pickedId, rows[i].householdId) == Some(j)
    requires j' == if rows[i].amount <= 1 && j > i then j - 1 else j
    ensures j' < |Consume(rows, i, now)|
    ensures Pick(rows, i, pickedId, now, newId) == (Consume(rows, i, now)[j' := AssignRow(rows[j], now)], AssignRow(rows[j], now))
  {
    ConsumedFinds(rows, i, pickedId, now, newId, j, j');
    AssignAt(Consume(rows, i, now), pickedId, rows[i].userId, rows[i].householdId, now, newId, j');
  }

  /** Consuming another row keeps the picked triple's row, moved down when the consumed row went. */
  lemma ConsumedFinds(rows: seq<Assignment>, i: nat, pickedId: Uuid, now: Instant, newId: Uuid, j: nat, j': nat)
    requires RowsValid(rows) && i < |rows| && FindId(rows, newId).None?
    requires pickedId != rows[i].itemId && FindTriple(rows, rows[i].userId, pickedId, rows[i].householdId) == Some(j)
    requires j' == if rows[i].amount <= 1 && j > i then j - 1 else j
    ensures var consumed := Consume(rows, i, now);
      j' < |consumed| && consumed[j'] == rows[j] && RowsValid(consumed) && FindId(consumed, newId).None?
      && FindTriple(consumed, rows[i].userId, pickedId, rows[i].householdId) == Some(j')
  {
    var consumed := Consume(rows, i, now);
    ConsumeKeeps(rows, i, now);
    assert j' < |consumed| && consumed[j'] == rows[j];
    FindsUnique(consumed, j');
  }

  lemma PickAsWrittenExisting(rows: seq<Assignment>, i: nat, pickedId: Uuid, now: Instant, newId: Uuid, j: nat, j': nat)
    requires RowsValid(rows) && i < |rows| && FindId(rows, newId).None?
    requires pickedId != rows[i].itemId && FindTriple(rows, rows[i].userId, pickedId, rows[i].householdId) == Some(j)
    requires j' == if rows[i].amount <= 1 && j > i then j - 1 else j
    ensures j' < |Consume(rows, i, now)|
    ensures PickAsWritten(rows, i, pickedId, now, newId)
      == (Consume(rows, i, now)[j' := AssignRow(rows[j], now)], AssignRow(rows[j], now))
  {
    var b := AssignRow(rows[j], now);
    AssignAt(rows, pickedId, rows[i].userId, rows[i].householdId, now, newId, j);
    ConsumeAsWrittenUpdated(rows, i, j, j', b, now);
  }

  /** Assign on a triple that has the row j adds a unit to that row. */
  lemma AssignAt(rows: seq<Assignment>, itemId: Uuid, userId: Uuid, householdId: Uuid, now: Instant, newId: Uuid, j: nat)
    requires RowsValid(rows) && FindId(rows, newId).None? && FindTriple(rows, userId, itemId, householdId) == Some(j)
    ensures Assign(rows, itemId, userId, householdId, now, newId) == (rows[j := AssignRow(rows[j], now)], AssignRow(rows[j], now))
  {
  }

  /** Assign on a triple without a row appends one holding a single unit. */
  lemma AssignFresh(rows: seq<Assignment>, itemId: Uuid, userId: Uuid, householdId: Uuid, now: Instant, newId: Uuid)
    requires RowsValid(rows) && FindId(rows, newId).None? && FindTriple(rows, userId, itemId, householdId).None?
    ensures var b := Assignment(newId, userId, itemId, householdId, 1, 0, 0, now);
      Assign(rows, itemId, userId, householdId, now, newId) == (rows + [b], b)
  {
  }

  lemma PickAgreesNew(rows: seq<Assignment>, i: nat, pickedId: Uuid, now: Instant, newId: Uuid)
    requires RowsValid(rows) && i < |rows| && FindId(rows, newId).None?
    requires pickedId != rows[i].itemId && FindTriple(rows, rows[i].userId, pickedId, rows[i].householdId).None?
    ensures PickAsWritten(rows, i, pickedId, now, newId) == Pick(rows, i, pickedId, now, newId)
  {
    var b := Assignment(newId, rows[i].userId, pickedId, rows[i].householdId, 1, 0, 0, now);
    AssignFresh(rows, pickedId, rows[i].userId, rows[i].householdId, now, newId);
    PickFresh(rows, i, pickedId, now, newId);
    ConsumeAsWrittenAppended(rows, i, b, now);
  }

  /** Corrected, a pick of another punishment without a row consumes first and then appends. */
  lemma PickFresh(rows: seq<Assignment>, i: nat, pickedId: Uuid, now: Instant, newId: Uuid)
    requires RowsValid(rows) && i < |rows| && FindId(rows, newId).None?
    requires pickedId != rows[i].itemId && FindTriple(rows, rows[i].userId, pickedId, rows[i].householdId).None?
    ensures var b := Assignment(newId, rows[i].userId, pickedId, rows[i].householdId, 1, 0, 0, now);
      Pick(rows, i, pickedId, now, newId) == (Consume(rows, i, now) + [b], b)
  {
    var consumed := Consume(rows, i, now);
    assert RowsValid(consumed) && FindId(consumed, newId).None?
      && FindTriple(consumed, rows[i].userId, pickedId, rows[i].householdId).None? by {
      ConsumeKeeps(rows, i, now);
    }
    AssignFresh(consumed, pickedId, rows[i].userId, rows[i].householdId, now, newId);
  }

  /** Consuming row i after appending a row is appending after consuming. */
  lemma ConsumeAsWrittenAppended(rows: seq<Assignment>, i: nat, b: Assignment, now: Instant)
    requires i < |rows|
    ensures ConsumeAsWritten(rows + [b], i, rows[i].amount, now) == Consume(rows, i, now) + [b]
  {
    assert (rows + [b])[i] == rows[i];
    if rows[i].amount <= 1 {
      RemoveBeforeAppend(rows, i, b);
    } else {
      UpdateBeforeAppend(rows, i, UnassignRow(rows[i], now), b);
    }
  }

  /** Consuming row i after updating another row j is updating j, moved down when i went, after consuming. */
  lemma ConsumeAsWrittenUpdated(rows: seq<Assignment>, i: nat, j: nat, j': nat, b: Assignment, now: Instant)
    requires i < |rows| && j < |rows| && i != j
    requires j' == if rows[i].amount <= 1 && j > i then j - 1 else j
    ensures j' < |Consume(rows, i, now)|
    ensures ConsumeAsWritten(rows[j := b], i, rows[i].amount, now) == Consume(rows, i, now)[j' := b]
  {
    assert rows[j := b][i] == rows[i];
    if rows[i].amount <= 1 {
      RemoveAfterUpdate(rows, i, j, b);
    } else {
      UpdatesCommute(rows, i, j, UnassignRow(rows[i], now), b);
    }
  }

  lemma RemoveAfterUpdate<T>(s: seq<T>, i: nat, j: nat, b: T)
    requires i < |s| && j < |s| && i != j
    ensures RemoveAt(s[j := b], i) == RemoveAt(s, i)[(if j > i then j - 1 else j) := b]
  {
  }

  lemma UpdatesCommute<T>(s: seq<T>, i: nat, j: nat, c: T, b: T)
    requires i < |s| && j < |s| && i != j
    ensures s[j := b][i := c] == s[i := c][j := b]
  {
  }

  lemma RemoveBeforeAppend<T>(s: seq<T>, i: nat, b: T)
    requires i < |s|
    ensures RemoveAt(s + [b], i) == RemoveAt(s, i) + [b]
  {
  }

  lemma UpdateBeforeAppend<T>(s: seq<T>, i: nat, c: T, b: T)
    requires i < |s|
    ensures (s + [b])[i := c] == s[i := c] + [b]
  {
  }

  /**
   * pick_random_option with the original unit consumed before the pick
   * is assigned: the picked punishment is always held afterwards, and
   * the original row lost one unit (or, at amount <= 1, is gone).
   */
  function Pick(rows: seq<Assignment>, i: nat, pickedId: Uuid, now: Instant, newId: Uuid)
    : (r: (seq<Assignment>, Assignment))
    requires RowsValid(rows) && i < |rows| && FindId(rows, newId).None?
    ensures RowsValid(r.0)
    ensures GetTriple(r.0, rows[i].userId, pickedId, rows[i].householdId) == Some(r.1)
    ensures pickedId == rows[i].itemId ==> r.1.amount == (if rows[i].amount <= 1 then 1 else rows[i].amount)
    ensures pickedId != rows[i].itemId && rows[i].amount <= 1 ==>
      GetTriple(r.0, rows[i].userId, rows[i].itemId, rows[i].householdId).None?
    ensures pickedId != rows[i].itemId && rows[i].amount > 1 ==>
      GetTriple(r.0, rows[i].userId, rows[i].itemId, rows[i].householdId) == Some(UnassignRow(rows[i], now))
    ensures AllBalanced(rows) && Available(rows[i]) > 0 ==> AllBalanced(r.0)
  {
    var a := rows[i];
    var consumed := Consume(rows, i, now);
    ConsumeKeeps(rows, i, now);
    var r := Assign(consumed, pickedId, a.userId, a.householdId, now, newId);
    if pickedId != a.itemId && a.amount > 1 then
      assert r.0[i] == consumed[i];
      FindsUnique(r.0, i);
      r
    else r
  }

  /** The original unit consumed: the row deleted at amount <= 1, else one unit fewer. */
  function Consume(rows: seq<Assignment>, i: nat, now: Instant): (r: seq<Assignment>)
    requires i < |rows|
  {
    if rows[i].amount <= 1 then RemoveAt(rows, i) else rows[i := UnassignRow(rows[i], now)]
  }

  lemma ConsumeKeeps(rows: seq<Assignment>, i: nat, now: Instant)
    requires RowsValid(rows) && i < |rows|
    ensures RowsValid(Consume(rows, i, now))
    ensures forall id :: FindId(rows, id).None? ==> FindId(Consume(rows, i, now), id).None?
    ensures rows[i].amount <= 1 ==>
      GetTriple(Consume(rows, i, now), rows[i].userId, rows[i].itemId, rows[i].householdId).None?
    ensures rows[i].amount > 1 ==> Consume(rows, i, now)[i] == UnassignRow(rows[i], now)
    ensures AllBalanced(rows) && Available(rows[i]) > 0 ==> AllBalanced(Consume(rows, i, now))
  {
    if rows[i].amount <= 1 {
      RemoveKeeps(rows, i);
    } else {
      ReplaceKeeps(rows, i, UnassignRow(rows[i], now));
    }
  }

  // ---------------------------------------------------------------------
  // The store

  /** The requested changes of update_punishment applied to p. */
  function Updated(p: Punishment, name: Option<string>, description: Option<string>,
                   requiresConfirmation: Option<bool>, kind: Option<PunishmentType>): Punishment
  {
    p.(name := name.UnwrapOr(p.name), description := description.UnwrapOr(p.description),
       requiresConfirmation := requiresConfirmation.UnwrapOr(p.requiresConfirmation),
       punishmentType := kind.UnwrapOr(p.punishmentType))
  }

  class PunishmentStore {
    var punishments: map<Uuid, Punishment>
    var options: seq<PunishmentOption>
    var userPunishments: seq<Assignment>

    predicate Valid()
      reads this
    {
      RowsValid(userPunishments)
    }

    constructor ()
      ensures punishments == map[] && options == [] && userPunishments == [] && Valid()
    {
      punishments := map[];
      options := [];
      userPunishments := [];
    }

    /**
     * create_punishment: a RandomChoice needs at least two option ids
     * (InsufficientOptions, nothing stored). Otherwise the punishment is
     * stored first, then its options linked in order; the first option
     * outside the household fails OptionNotFound, the punishment and
     * the links made so far staying.
     */
    method CreatePunishment(householdId: Uuid, name: string, description: Option<string>,
                            requiresConfirmation: Option<bool>, kind: Option<PunishmentType>,
                            optionIds: Option<seq<Uuid>>, id: Uuid, now: Instant)
      returns (res: Result<Punishment, PunishmentError>)
      requires id !in punishments
      modifies this
      ensures userPunishments == old(userPunishments)
      ensures var p := Punishment(id, householdId, name, description.UnwrapOr(""),
                                  requiresConfirmation.UnwrapOr(false), kind.UnwrapOr(Standard), now);
        if p.punishmentType == RandomChoice && (optionIds.None? || |optionIds.value| < 2) then
          res == Err(InsufficientOptions) && punishments == old(punishments) && options == old(options)
        else
          punishments == old(punishments)[id := p]
          && match optionIds
             case None => res == Ok(p) && options == old(options)
             case Some(ids) =>
               var n := AcceptedPrefix(punishments, ids, householdId);
               options == old(options) + OptionRows(id, ids[..n])
               && (if n == |ids| then res == Ok(p) else res == Err(OptionNotFound))
    {
      var p := Punishment(id, householdId, name, description.UnwrapOr(""),
                          requiresConfirmation.UnwrapOr(false), kind.UnwrapOr(Standard), now);
      if p.punishmentType == RandomChoice && (optionIds.None? || |optionIds.value| < 2) {
        return Err(InsufficientOptions);
      }
      punishments := punishments[id := p];
      if optionIds.Some? {
        var added, ok := LinkOptions(punishments, id, optionIds.value, householdId);
        options := options + added;
        if !ok {
          return Err(OptionNotFound);
        }
      }
      res := Ok(p);
    }

    /**
     * update_punishment: NotFound for an unknown punishment. The option
     * list is left alone, cleared, or replaced; a replacement for a
     * RandomChoice needs two ids (InsufficientOptions, nothing changed),
     * and a replacement with an id outside the household fails
     * OptionNotFound with the old links gone, the accepted ones added
     * and the punishment itself not updated.
     */
    method UpdatePunishment(punishmentId: Uuid, name: Option<string>, description: Option<string>,
                            requiresConfirmation: Option<bool>, kind: Option<PunishmentType>,
                            optionIds: Option<Option<seq<Uuid>>>)
      returns (res: Result<Punishment, PunishmentError>)
      modifies this
      ensures userPunishments == old(userPunishments)
      ensures punishmentId !in old(punishments) ==>
        res == Err(PunishmentError.NotFound) && punishments == old(punishments) && options == old(options)
      ensures punishmentId in old(punishments) ==>
        var p := Updated(old(punishments)[punishmentId], name, description, requiresConfirmation, kind);
        match optionIds
        case None => res == Ok(p) && punishments == old(punishments)[punishmentId := p] && options == old(options)
        case Some(None) =>
          res == Ok(p) && punishments == old(punishments)[punishmentId := p]
          && options == Filter(old(options), NotOptionOf(punishmentId))
        case Some(Some(ids)) =>
          if p.punishmentType == RandomChoice && |ids| < 2 then
            res == Err(InsufficientOptions) && punishments == old(punishments) && options == old(options)
          else
            var n := AcceptedPrefix(old(punishments), ids, p.householdId);
            options == Filter(old(options), NotOptionOf(punishmentId)) + OptionRows(punishmentId, ids[..n])
            && (if n == |ids| then res == Ok(p) && punishments == old(punishments)[punishmentId := p]
                else res == Err(OptionNotFound) && punishments == old(punishments))
    {
      if punishmentId !in punishments {
        return Err(PunishmentError.NotFound);
      }
      var p := Updated(punishments[punishmentId], name, description, requiresConfirmation, kind);
      if optionIds.Some? {
        if optionIds.value.None? {
          options := Filter(options, NotOptionOf(punishmentId));
        } else {
          var ids := optionIds.value.value;
          if p.punishmentType == RandomChoice && |ids| < 2 {
            return Err(InsufficientOptions);
          }
          options := Filter(options, NotOptionOf(punishmentId));
          var added, ok := LinkOptions(punishments, punishmentId, ids, p.householdId);
          options := options + added;
          if !ok {
            return Err(OptionNotFound);
          }
        }
      }
      punishments := punishments[punishmentId := p];
      res := Ok(p);
    }

    /** assign_punishment: NotFound for an unknown punishment, else Assign. */
    method AssignPunishment(punishmentId: Uuid, userId: Uuid, householdId: Uuid, now: Instant, newId: Uuid)
      returns (res: Result<Assignment, PunishmentError>)
      requires Valid() && FindId(userPunishments, newId).None?
      modifies this
      ensures Valid() && punishments == old(punishments) && options == old(options)
      ensures punishmentId !in punishments ==>
        res == Err(PunishmentError.NotFound) && userPunishments == old(userPunishments)
      ensures punishmentId in punishments ==>
        var (rows, row) := Assign(old(userPunishments), punishmentId, userId, householdId, now, newId);
        res == Ok(row) && userPunishments == rows
      ensures old(AllBalanced(userPunishments)) ==> AllBalanced(userPunishments)
    {
      if punishmentId !in punishments {
        return Err(PunishmentError.NotFound);
      }
      var (rows, row) := Assign(userPunishments, punishmentId, userId, householdId, now, newId);
      userPunishments := rows;
      res := Ok(row);
    }

    /** unassign_punishment: UserPunishmentNotFound without a row, else Unassign. */
    method UnassignPunishment(punishmentId: Uuid, userId: Uuid, householdId: Uuid, now: Instant)
      returns (res: Result<(), PunishmentError>)
      requires Valid()
      modifies this
      ensures Valid() && punishments == old(punishments) && options == old(options)
      ensures match Unassign(old(userPunishments), punishmentId, userId, householdId, now)
        case None => res == Err(UserPunishmentNotFound) && userPunishments == old(userPunishments)
        case Some(rows) => res == Ok(()) && userPunishments == rows
    {
      var after := Unassign(userPunishments, punishmentId, userId, householdId, now);
      if after.None? {
        return Err(UserPunishmentNotFound);
      }
      userPunishments := after.value;
      res := Ok(());
    }

    /**
     * complete_punishment: UserPunishmentNotFound for an unknown row,
     * NotFound when its punishment is gone, NothingToComplete when no
     * unit is available; otherwise one unit is completed (UseRow) and
     * the result says whether it awaits confirmation.
     */
    method CompletePunishment(userPunishmentId: Uuid, now: Instant)
      returns (res: Result<(Assignment, bool), PunishmentError>)
      requires Valid()
      modifies this
      ensures Valid() && punishments == old(punishments) && options == old(options)
      ensures match old(FindId(userPunishments, userPunishmentId))
        case None => res == Err(UserPunishmentNotFound) && userPunishments == old(userPunishments)
        case Some(i) =>
          var a := old(userPunishments[i]);
          if a.itemId !in punishments then
            res == Err(PunishmentError.NotFound) && userPunishments == old(userPunishments)
          else if Available(a) <= 0 then res == Err(NothingToComplete) && userPunishments == old(userPunishments)
          else
            var rc := punishments[a.itemId].requiresConfirmation;
            res == Ok((UseRow(a, rc, now), rc)) && userPunishments == old(userPunishments)[i := UseRow(a, rc, now)]
      ensures old(AllBalanced(userPunishments)) ==> AllBalanced(userPunishments)
    {
      var found := FindId(userPunishments, userPunishmentId);
      if found.None? {
        return Err(UserPunishmentNotFound);
      }
      var i := found.value;
      var a := userPunishments[i];
      if a.itemId !in punishments {
        return Err(PunishmentError.NotFound);
      }
      if Available(a) <= 0 {
        return Err(NothingToComplete);
      }
      var rc := punishments[a.itemId].requiresConfirmation;
      var r := UseRow(a, rc, now);
      UpdateByIdKeeps(userPunishments, i, r);
      userPunishments := userPunishments[i := r];
      res := Ok((r, rc));
    }

    /** approve_completion: NothingPending unless a completion is pending, else ApproveRow. */
    method ApproveCompletion(userPunishmentId: Uuid, now: Instant)
      returns (res: Result<Assignment, PunishmentError>)
      requires Valid()
      modifies this
      ensures Valid() && punishments == old(punishments) && options == old(options)
      ensures match old(FindId(userPunishments, userPunishmentId))
        case None => res == Err(UserPunishmentNotFound) && userPunishments == old(userPunishments)
        case Some(i) =>
          var a := old(userPunishments[i]);
          if a.pendingAmount <= 0 then res == Err(NothingPending) && userPunishments == old(userPunishments)
          else res == Ok(ApproveRow(a, now)) && userPunishments == old(userPunishments)[i := ApproveRow(a, now)]
      ensures old(AllBalanced(userPunishments)) ==> AllBalanced(userPunishments)
    {
      var found := FindId(userPunishments, userPunishmentId);
      if found.None? {
        return Err(UserPunishmentNotFound);
      }
      var i := found.value;
      if userPunishments[i].pendingAmount <= 0 {
        return Err(NothingPending);
      }
      var r := ApproveRow(userPunishments[i], now);
      UpdateByIdKeeps(userPunishments, i, r);
      userPunishments := userPunishments[i := r];
      res := Ok(r);
    }

    /** reject_completion: NothingPending unless a completion is pending, else RejectRow. */
    method RejectCompletion(userPunishmentId: Uuid, now: Instant)
      returns (res: Result<Assignment, PunishmentError>)
      requires Valid()
      modifies this
      ensures Valid() && punishments == old(punishments) && options == old(options)
      ensures match old(FindId(userPunishments, userPunishmentId))
        case None => res == Err(UserPunishmentNotFound) && userPunishments == old(userPunishments)
        case Some(i) =>
          var a := old(userPunishments[i]);
          if a.pendingAmount <= 0 then res == Err(NothingPending) && userPunishments == old(userPunishments)
          else res == Ok(RejectRow(a, now)) && userPunishments == old(userPunishments)[i := RejectRow(a, now)]
      ensures old(AllBalanced(userPunishments)) ==> AllBalanced(userPunishments)
    {
      var found := FindId(userPunishments, userPunishmentId);
      if found.None? {
        return Err(UserPunishmentNotFound);
      }
      var i := found.value;
      if userPunishments[i].pendingAmount <= 0 {
        return Err(NothingPending);
      }
      var r := RejectRow(userPunishments[i], now);
      UpdateByIdKeeps(userPunishments, i, r);
      userPunishments := userPunishments[i := r];
      res := Ok(r);
    }

    /**
     * remove_punishment_option: NotFound for an unknown parent; a
     * RandomChoice parent with two option rows or fewer refuses
     * (InsufficientOptions); otherwise every row of the link is deleted.
     */
    method RemovePunishmentOption(parentId: Uuid, optionId: Uuid)
      returns (res: Result<(), PunishmentError>)
      modifies this
      ensures punishments == old(punishments) && userPunishments == old(userPunishments)
      ensures parentId !in punishments ==> res == Err(PunishmentError.NotFound) && options == old(options)
      ensures parentId in punishments && punishments[parentId].punishmentType == RandomChoice
              && Count(old(options), OptionOf(parentId)) <= 2 ==>
        res == Err(InsufficientOptions) && options == old(options)
      ensures res.Ok? <==>
        parentId in punishments
        && (punishments[parentId].punishmentType == RandomChoice ==> Count(old(options), OptionOf(parentId)) > 2)
      ensures res.Ok? ==> options == Filter(old(options), NotLink(parentId, optionId))
    {
      if parentId !in punishments {
        return Err(PunishmentError.NotFound);
      }
      if punishments[parentId].punishmentType == RandomChoice && Count(options, OptionOf(parentId)) <= 2 {
        return Err(InsufficientOptions);
      }
      options := Filter(options, NotLink(parentId, optionId));
      res := Ok(());
    }

    /**
     * pick_random_option: UserPunishmentNotFound for an unknown row or
     * another user's row, NotFound when its punishment is gone,
     * NotRandomChoice for a standard punishment, NoOptions without
     * options. Otherwise the option at position choice (modulo their
     * number) is picked and assigned, and the original unit consumed
     * (Pick).
     */
    method PickRandomOption(userPunishmentId: Uuid, userId: Uuid, choice: nat, now: Instant, newId: Uuid)
      returns (res: Result<(Punishment, Assignment), PunishmentError>)
      requires Valid() && FindId(userPunishments, newId).None?
      modifies this
      ensures Valid() && punishments == old(punishments) && options == old(options)
      ensures res.Err? ==> userPunishments == old(userPunishments)
      ensures match old(FindId(userPunishments, userPunishmentId))
        case None => res == Err(UserPunishmentNotFound)
        case Some(i) =>
          var a := old(userPunishments[i]);
          if a.userId != userId then res == Err(UserPunishmentNotFound)
          else if a.itemId !in punishments then res == Err(PunishmentError.NotFound)
          else if punishments[a.itemId].punishmentType != RandomChoice then res == Err(NotRandomChoice)
          else if OptionIdsOf(punishments, options, a.itemId) == [] then res == Err(NoOptions)
          else
            var ids := OptionIdsOf(punishments, options, a.itemId);
            var (rows, row) := Pick(old(userPunishments), i, ids[choice % |ids|], now, newId);
            res == Ok((punishments[ids[choice % |ids|]], row)) && userPunishments == rows
    {
      var found := FindId(userPunishments, userPunishmentId);
      if found.None? {
        return Err(UserPunishmentNotFound);
      }
      var i := found.value;
      var a := userPunishments[i];
      if a.userId != userId {
        return Err(UserPunishmentNotFound);
      }
      if a.itemId !in punishments {
        return Err(PunishmentError.NotFound);
      }
      if punishments[a.itemId].punishmentType != RandomChoice {
        return Err(NotRandomChoice);
      }
      var ids := OptionIdsOf(punishments, options, a.itemId);
      if ids == [] {
        return Err(NoOptions);
      }
      var picked := ids[choice % |ids|];
      var (rows, row) := Pick(userPunishments, i, picked, now, newId);
      userPunishments := rows;
      res := Ok((punishments[picked], row));
    }
  }
}
