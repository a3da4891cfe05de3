/**
 * Rewards and their assignments (the user_rewards table): assigning,
 * unassigning, buying with points, redeeming, and confirming or refusing
 * a redemption. In an Assignment of this table itemId is the reward,
 * doneAmount the redeemed amount and pendingAmount the pending
 * redemptions.
 */
module Rewards {
  import opened Wrappers
  import opened Dates
  import opened Types
  import opened Households
  import opened Assignments

  datatype Reward = Reward(
    id: Uuid,
    householdId: Uuid,
    name: string,
    description: string,
    pointCost: Option<int>,
    isPurchasable: bool,
    requiresConfirmation: bool,
    createdAt: Instant)

  /**
   * RewardError. RowMissing stands for the database error of a fetch_one
   * that finds no row. The membership update of a purchase cannot fail
   * once the balance was read, so the household error is not a case here.
   */
  datatype RewardError =
    | NotFound
    | NotPurchasable
    | InsufficientPoints
    | UserRewardNotFound
    | NothingToRedeem
    | NothingPending
    | RowMissing

  /**
   * What a purchase costs: NotFound for an unknown reward, NotPurchasable
   * when it is not for sale or has no price.
   */
  function PriceOf(rewards: map<Uuid, Reward>, rewardId: Uuid): (r: Result<int, RewardError>)
    ensures r.Ok? <==> rewardId in rewards && rewards[rewardId].isPurchasable && rewards[rewardId].pointCost.Some?
    ensures r.Ok? ==> r.value == rewards[rewardId].pointCost.value
    ensures r == Err(RewardError.NotFound) <==> rewardId !in rewards
    ensures r.Err? ==> r.error in {RewardError.NotFound, NotPurchasable}
  {
    if rewardId !in rewards then Err(RewardError.NotFound)
    else if !rewards[rewardId].isPurchasable then Err(NotPurchasable)
    else match rewards[rewardId].pointCost
      case None => Err(NotPurchasable)
      case Some(cost) => Ok(cost)
  }

  /**
   * The checks purchase_reward makes before it changes anything, in its
   * order: the price (PriceOf), then the buyer's membership row (a
   * missing one is the fetch error RowMissing), then the balance. The
   * result is the change the purchase makes to the balance: minus the
   * price.
   */
  function PurchaseCheck(rewards: map<Uuid, Reward>, rewardId: Uuid, buyer: Option<Membership>)
    : (r: Result<int, RewardError>)
    ensures PriceOf(rewards, rewardId).Err? ==> r == Err(PriceOf(rewards, rewardId).error)
    ensures PriceOf(rewards, rewardId).Ok? && buyer.None? ==> r == Err(RewardError.RowMissing)
    ensures (PriceOf(rewards, rewardId).Ok? && buyer.Some? && buyer.value.points < PriceOf(rewards, rewardId).value)
      ==> r == Err(InsufficientPoints)
    ensures r.Ok? <==>
      PriceOf(rewards, rewardId).Ok? && buyer.Some? && buyer.value.points >= PriceOf(rewards, rewardId).value
    ensures r.Ok? ==> r.value == -PriceOf(rewards, rewardId).value && buyer.value.points + r.value >= 0
  {
    match PriceOf(rewards, rewardId)
    case Err(e) => Err(e)
    case Ok(cost) =>
      match buyer
      case None => Err(RewardError.RowMissing)
      case Some(m) => if m.points < cost then Err(InsufficientPoints) else Ok(-cost)
  }

  class RewardStore {
    var rewards: map<Uuid, Reward>
    var userRewards: seq<Assignment>

    predicate Valid()
      reads this
    {
      RowsValid(userRewards)
    }

    constructor ()
      ensures rewards == map[] && userRewards == [] && Valid()
    {
      rewards := map[];
      userRewards := [];
    }

    /**
     * assign_reward: NotFound for an unknown reward; otherwise one more
     * unit on the triple's row, or a new row (with the fresh id newId)
     * holding one unit (Assign).
     */
    method AssignReward(rewardId: Uuid, userId: Uuid, householdId: Uuid, now: Instant, newId: Uuid)
      returns (res: Result<Assignment, RewardError>)
      requires Valid() && FindId(userRewards, newId).None?
      modifies this
      ensures Valid() && rewards == old(rewards)
      ensures rewardId !in rewards ==> res == Err(RewardError.NotFound) && userRewards == old(userRewards)
      ensures rewardId in rewards ==>
        var (rows, row) := Assign(old(userRewards), rewardId, userId, householdId, now, newId);
        res == Ok(row) && userRewards == rows
      ensures old(AllBalanced(userRewards)) ==> AllBalanced(userRewards)
    {
      if rewardId !in rewards {
        return Err(RewardError.NotFound);
      }
      var (rows, row) := Assign(userRewards, rewardId, userId, householdId, now, newId);
      userRewards := rows;
      res := Ok(row);
    }

    /**
     * unassign_reward: UserRewardNotFound without a row for the triple;
     * the row is deleted at amount <= 1 and loses one unit otherwise
     * (Unassign).
     */
    method UnassignReward(rewardId: Uuid, userId: Uuid, householdId: Uuid, now: Instant)
      returns (res: Result<(), RewardError>)
      requires Valid()
      modifies this
      ensures Valid() && rewards == old(rewards)
      ensures match Unassign(old(userRewards), rewardId, userId, householdId, now)
        case None => res == Err(UserRewardNotFound) && userRewards == old(userRewards)
        case Some(rows) => res == Ok(()) && userRewards == rows
    {
      var after := Unassign(userRewards, rewardId, userId, householdId, now);
      if after.None? {
        return Err(UserRewardNotFound);
      }
      userRewards := after.value;
      res := Ok(());
    }

    /**
     * purchase_reward: the checks of PurchaseCheck; when they pass, the
     * price comes off the balance and a unit is assigned.
     */
    method PurchaseReward(members: HouseholdStore, rewardId: Uuid, userId: Uuid, householdId: Uuid,
                          now: Instant, newId: Uuid)
      returns (res: Result<Assignment, RewardError>)
      requires Valid() && FindId(userRewards, newId).None?
      modifies this, members
      ensures Valid() && rewards == old(rewards) && members.households == old(members.households)
      ensures match PurchaseCheck(rewards, rewardId, old(GetMember(members.members, householdId, userId)))
        case Err(e) => res == Err(e) && userRewards == old(userRewards) && members.members == old(members.members)
        case Ok(change) =>
          var (rows, row) := Assign(old(userRewards), rewardId, userId, householdId, now, newId);
          res == Ok(row) && userRewards == rows
          && members.members == AddPoints(old(members.members), householdId, userId, change)
      ensures old(AllBalanced(userRewards)) ==> AllBalanced(userRewards)
    {
      var check := PurchaseCheck(rewards, rewardId, GetMember(members.members, householdId, userId));
      if check.Err? {
        return Err(check.error);
      }
      var _ := members.UpdateMemberPoints(householdId, userId, check.value);
      res := AssignReward(rewardId, userId, householdId, now, newId);
    }

    /**
     * redeem_reward: UserRewardNotFound for an unknown row, NotFound when
     * its reward is gone, NothingToRedeem when no unit is available;
     * otherwise one unit is redeemed (UseRow) and the result says whether
     * it awaits confirmation.
     */
    method RedeemReward(userRewardId: Uuid, now: Instant)
      returns (res: Result<(Assignment, bool), RewardError>)
      requires Valid()
      modifies this
      ensures Valid() && rewards == old(rewards)
      ensures match old(FindId(userRewards, userRewardId))
        case None => res == Err(UserRewardNotFound) && userRewards == old(userRewards)
        case Some(i) =>
          var a := old(userRewards[i]);
          if a.itemId !in rewards then res == Err(RewardError.NotFound) && userRewards == old(userRewards)
          else if Available(a) <= 0 then res == Err(NothingToRedeem) && userRewards == old(userRewards)
          else
            var rc := rewards[a.itemId].requiresConfirmation;
            res == Ok((UseRow(a, rc, now), rc)) && userRewards == old(userRewards)[i := UseRow(a, rc, now)]
      ensures old(AllBalanced(userRewards)) ==> AllBalanced(userRewards)
    {
      var found := FindId(userRewards, userRewardId);
      if found.None? {
        return Err(UserRewardNotFound);
      }
      var i := found.value;
      var a := userRewards[i];
      if a.itemId !in rewards {
        return Err(RewardError.NotFound);
      }
      if Available(a) <= 0 {
        return Err(NothingToRedeem);
      }
      var rc := rewards[a.itemId].requiresConfirmation;
      var r := UseRow(a, rc, now);
      UpdateByIdKeeps(userRewards, i, r);
      userRewards := userRewards[i := r];
      res := Ok((r, rc));
    }

    /** approve_redemption: NothingPending unless a redemption is pending, else ApproveRow. */
    method ApproveRedemption(userRewardId: Uuid, now: Instant)
      returns (res: Result<Assignment, RewardError>)
      requires Valid()
      modifies this
      ensures Valid() && rewards == old(rewards)
      ensures match old(FindId(userRewards, userRewardId))
        case None => res == Err(UserRewardNotFound) && userRewards == old(userRewards)
        case Some(i) =>
          var a := old(userRewards[i]);
          if a.pendingAmount <= 0 then res == Err(NothingPending) && userRewards == old(userRewards)
          else res == Ok(ApproveRow(a, now)) && userRewards == old(userRewards)[i := ApproveRow(a, now)]
      ensures old(AllBalanced(userRewards)) ==> AllBalanced(userRewards)
    {
      var found := FindId(userRewards, userRewardId);
      if found.None? {
        return Err(UserRewardNotFound);
      }
      var i := found.value;
      if userRewards[i].pendingAmount <= 0 {
        return Err(NothingPending);
      }
      var r := ApproveRow(userRewards[i], now);
      UpdateByIdKeeps(userRewards, i, r);
      userRewards := userRewards[i := r];
      res := Ok(r);
    }

    /** reject_redemption: NothingPending unless a redemption is pending, else RejectRow. */
    method RejectRedemption(userRewardId: Uuid, now: Instant)
      returns (res: Result<Assignment, RewardError>)
      requires Valid()
      modifies this
      ensures Valid() && rewards == old(rewards)
      ensures match old(FindId(userRewards, userRewardId))
        case None => res == Err(UserRewardNotFound) && userRewards == old(userRewards)
        case Some(i) =>
          var a := old(userRewards[i]);
          if a.pendingAmount <= 0 then res == Err(NothingPending) && userRewards == old(userRewards)
          else res == Ok(RejectRow(a, now)) && userRewards == old(userRewards)[i := RejectRow(a, now)]
      ensures old(AllBalanced(userRewards)) ==> AllBalanced(userRewards)
    {
      var found := FindId(userRewards, userRewardId);
      if found.None? {
        return Err(UserRewardNotFound);
      }
      var i := found.value;
      if userRewards[i].pendingAmount <= 0 {
        return Err(NothingPending);
      }
      var r := RejectRow(userRewards[i], now);
      UpdateByIdKeeps(userRewards, i, r);
      userRewards := userRewards[i := r];
      res := Ok(r);
    }
  }
}
