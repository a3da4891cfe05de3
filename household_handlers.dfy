/**
 * The permission guards of the household endpoints: inviting, removing
 * members, changing roles, adjusting points, cancelling invitations and
 * changing settings. Each guard is a function of the caller's role (None
 * for a non-member) and the request; each handler runs its guard and then
 * the household or invitation service.
 */
module HouseholdHandlers {
  import opened Wrappers
  import opened Dates
  import opened Types
  import opened Query
  import opened Households
  import opened Invitations

  datatype HandlerError =
    | Forbidden          // 403
    | InvalidRole        // 400: Owner may not be granted, and the Owner's role may not change
    | CannotRemoveOwner  // 400
    | InvalidUser        // 400: the target is not a member
    | NotFound           // 404
    | AlreadyInvited     // 400: a pending invitation exists
    | AlreadyMember      // 400: the invited user already belongs to the household
    | Internal           // 500: the service failed

  /** Whether a caller with this role (None for a non-member) may manage members. */
  predicate ManagesMembers(role: Option<Role>)
  {
    role.Some? && role.value.CanManageMembers()
  }

  /**
   * The guards of create_invitation: the caller manages members; the
   * invited role defaults to Member; only an Owner invites an Admin; and
   * nobody invites an Owner. The result is the role to invite with.
   */
  function InvitePlan(callerRole: Option<Role>, requested: Option<Role>): (r: Result<Role, HandlerError>)
    ensures r.Ok? <==>
      ManagesMembers(callerRole) && requested != Some(Owner)
      && (requested == Some(Admin) ==> callerRole == Some(Owner))
    ensures r.Ok? ==> r.value == requested.UnwrapOr(Member) && r.value != Owner
    ensures !ManagesMembers(callerRole) ==> r == Err(Forbidden)
    ensures ManagesMembers(callerRole) && requested == Some(Owner) ==> r == Err(InvalidRole)
  {
    var memberRole := requested.UnwrapOr(Member);
    if !ManagesMembers(callerRole) then Err(Forbidden)
    else if memberRole == Admin && callerRole != Some(Owner) then Err(Forbidden)
    else if memberRole == Owner then Err(InvalidRole)
    else Ok(memberRole)
  }

  /**
   * The guards of remove_member: the Owner is never removed, and removing
   * somebody else needs a caller who manages members.
   */
  function RemovePlan(callerRole: Option<Role>, targetRole: Option<Role>, isSelf: bool): (r: Result<(), HandlerError>)
    ensures targetRole == Some(Owner) <==> r == Err(CannotRemoveOwner)
    ensures r.Ok? <==> targetRole != Some(Owner) && (isSelf || ManagesMembers(callerRole))
    ensures r.Err? ==> r.error in {CannotRemoveOwner, Forbidden}
  {
    if targetRole == Some(Owner) then Err(CannotRemoveOwner)
    else if !isSelf && !ManagesMembers(callerRole) then Err(Forbidden)
    else Ok(())
  }

  /**
   * The guards of update_member_role: only an Owner changes roles, never to
   * Owner and never the Owner's own role.
   */
  function RoleChangePlan(callerRole: Option<Role>, newRole: Role, targetRole: Option<Role>): (r: Result<(), HandlerError>)
    ensures r.Ok? <==> callerRole == Some(Owner) && newRole != Owner && targetRole != Some(Owner)
    ensures callerRole != Some(Owner) ==> r == Err(Forbidden)
    ensures callerRole == Some(Owner) && r.Err? ==> r.error == InvalidRole
  {
    if !(callerRole.Some? && callerRole.value.CanManageRoles()) then Err(Forbidden)
    else if newRole == Owner then Err(InvalidRole)
    else if targetRole == Some(Owner) then Err(InvalidRole)
    else Ok(())
  }

  /** The guards of adjust_member_points: a caller who manages members, and a target who is a member. */
  function AdjustPointsPlan(callerRole: Option<Role>, targetIsMember: bool): (r: Result<(), HandlerError>)
    ensures r.Ok? <==> ManagesMembers(callerRole) && targetIsMember
    ensures !ManagesMembers(callerRole) ==> r == Err(Forbidden)
    ensures ManagesMembers(callerRole) && !targetIsMember ==> r == Err(InvalidUser)
  {
    if !ManagesMembers(callerRole) then Err(Forbidden)
    else if !targetIsMember then Err(InvalidUser)
    else Ok(())
  }

  /** The guard of update_household_settings: only the Owner. */
  function SettingsPlan(callerRole: Option<Role>): (r: Result<(), HandlerError>)
    ensures r.Ok? <==> callerRole == Some(Owner)
    ensures r.Err? ==> r.error == Forbidden
  {
    if callerRole == Some(Owner) then Ok(()) else Err(Forbidden)
  }

  /**
   * The guards of cancel_invitation: a caller who manages members, and an
   * invitation that exists and belongs to the household of the path.
   */
  function CancelPlan(callerRole: Option<Role>, invitations: map<Uuid, Invitation>, householdId: Uuid,
                      invitationId: Uuid): (r: Result<(), HandlerError>)
    ensures r.Ok? <==>
      ManagesMembers(callerRole) && invitationId in invitations && invitations[invitationId].householdId == householdId
    ensures ManagesMembers(callerRole) && r.Err? ==> r.error == HandlerError.NotFound
    ensures !ManagesMembers(callerRole) ==> r == Err(Forbidden)
  {
    if !ManagesMembers(callerRole) then Err(Forbidden)
    else if invitationId !in invitations then Err(HandlerError.NotFound)
    else if invitations[invitationId].householdId != householdId then Err(HandlerError.NotFound)
    else Ok(())
  }

  /** The Owners of household h in the membership table. */
  predicate IsOwner(rows: seq<Membership>, h: Uuid, u: Uuid)
  {
    GetMemberRole(rows, h, u) == Some(Owner)
  }

  /**
   * A role change that passed its guard keeps the set of Owners of every
   * household exactly as it was: nobody becomes Owner, no Owner is demoted.
   */
  lemma RoleChangeKeepsOwners(rows: seq<Membership>, householdId: Uuid, callerId: Uuid, targetId: Uuid,
                              newRole: Role, h: Uuid, u: Uuid)
    requires RoleChangePlan(GetMemberRole(rows, householdId, callerId), newRole,
                            GetMemberRole(rows, householdId, targetId)).Ok?
    ensures IsOwner(SetRole(rows, householdId, targetId, newRole), h, u) <==> IsOwner(rows, h, u)
  {
    SetRoleEffect(rows, householdId, targetId, newRole, h, u);
  }

  /** remove_member end to end: the guard, then deleting the target's row. */
  method HandleRemoveMember(store: HouseholdStore, householdId: Uuid, currentUserId: Uuid, targetUserId: Uuid)
    returns (res: Result<(), HandlerError>)
    modifies store
    ensures store.households == old(store.households)
    ensures res == RemovePlan(old(GetMemberRole(store.members, householdId, currentUserId)),
                              old(GetMemberRole(store.members, householdId, targetUserId)),
                              currentUserId == targetUserId)
    ensures res.Err? ==> store.members == old(store.members)
    ensures res.Ok? ==> store.members == Filter(old(store.members), NotRowOf(householdId, targetUserId))
    ensures old(IsOwner(store.members, householdId, targetUserId)) ==> store.members == old(store.members)
  {
    var role := GetMemberRole(store.members, householdId, currentUserId);
    var targetRole := GetMemberRole(store.members, householdId, targetUserId);
    res := RemovePlan(role, targetRole, currentUserId == targetUserId);
    if res.Ok? {
      store.RemoveMember(householdId, targetUserId);
    }
  }

  /** update_member_role end to end: the guard, then the role update. */
  method HandleUpdateRole(store: HouseholdStore, householdId: Uuid, currentUserId: Uuid, targetUserId: Uuid,
                          newRole: Role)
    returns (res: Result<Membership, HandlerError>)
    modifies store
    ensures store.households == old(store.households)
    ensures var plan := RoleChangePlan(old(GetMemberRole(store.members, householdId, currentUserId)), newRole,
                                       old(GetMemberRole(store.members, householdId, targetUserId)));
      && (plan.Err? ==> res == Err(plan.error) && store.members == old(store.members))
      && (plan.Ok? ==> store.members == SetRole(old(store.members), householdId, targetUserId, newRole))
      && (plan.Ok? && old(IsMember(store.members, householdId, targetUserId)) ==>
            res.Ok? && res.value == GetMember(store.members, householdId, targetUserId).value
            && RoleOf(res.value) == newRole)
      && (plan.Ok? && !old(IsMember(store.members, householdId, targetUserId)) ==> res == Err(Internal))
    ensures forall h: Uuid, u: Uuid :: IsOwner(store.members, h, u) <==> old(IsOwner(store.members, h, u))
  {
    ghost var before := store.members;
    var plan := RoleChangePlan(GetMemberRole(store.members, householdId, currentUserId), newRole,
                               GetMemberRole(store.members, householdId, targetUserId));
    if plan.Err? {
      return Err(plan.error);
    }
    var updated := store.UpdateMemberRole(householdId, targetUserId, newRole);
    forall h: Uuid, u: Uuid
      ensures IsOwner(store.members, h, u) <==> IsOwner(before, h, u)
    {
      RoleChangeKeepsOwners(before, householdId, currentUserId, targetUserId, newRole, h, u);
    }
    if updated.Err? {
      return Err(Internal);
    }
    res := Ok(updated.value);
  }

  /** adjust_member_points end to end: the guard, then adding the delta. */
  method HandleAdjustPoints(store: HouseholdStore, householdId: Uuid, currentUserId: Uuid, targetUserId: Uuid,
                            delta: int)
    returns (res: Result<int, HandlerError>)
    modifies store
    ensures store.households == old(store.households)
    ensures var plan := AdjustPointsPlan(old(GetMemberRole(store.members, householdId, currentUserId)),
                                         old(IsMember(store.members, householdId, targetUserId)));
      plan.Err? ==> res == Err(plan.error) && store.members == old(store.members)
    ensures old(IsMember(store.members, householdId, targetUserId))
            && ManagesMembers(old(GetMemberRole(store.members, householdId, currentUserId))) ==>
      store.members == AddPoints(old(store.members), householdId, targetUserId, delta)
    ensures old(IsMember(store.members, householdId, targetUserId))
            && ManagesMembers(old(GetMemberRole(store.members, householdId, currentUserId))) ==>
      res.Ok? && res.value == old(GetMember(store.members, householdId, targetUserId)).value.points + delta
  {
    ghost var before := store.members;
    var role := GetMemberRole(store.members, householdId, currentUserId);
    var isMember := IsMember(store.members, householdId, targetUserId);
    var plan := AdjustPointsPlan(role, isMember);
    if plan.Err? {
      assert !(isMember && ManagesMembers(role));
      return Err(plan.error);
    }
    ghost var points := GetMember(before, householdId, targetUserId).value.points;
    var total := AdjustMember(store, householdId, targetUserId, delta);
    assert total == points + delta;
    res := Ok(total);
  }

  /** The update behind a passed guard: the target's row is there, so it is found. */
  method AdjustMember(store: HouseholdStore, householdId: Uuid, targetUserId: Uuid, delta: int)
    returns (total: int)
    requires IsMember(store.members, householdId, targetUserId)
    modifies store
    ensures store.households == old(store.households)
    ensures store.members == AddPoints(old(store.members), householdId, targetUserId, delta)
    ensures total == old(GetMember(store.members, householdId, targetUserId)).value.points + delta
  {
    var r := store.UpdateMemberPoints(householdId, targetUserId, delta);
    total := r.value;
  }

  /**
   * cancel_invitation end to end: the guard, then the deletion of a
   * pending invitation. An invitation of another household is never
   * touched.
   */
  method HandleCancelInvitation(invitationStore: InvitationStore, members: seq<Membership>, householdId: Uuid,
                                userId: Uuid, invitationId: Uuid)
    returns (res: Result<(), HandlerError>)
    modifies invitationStore
    ensures var plan := CancelPlan(GetMemberRole(members, householdId, userId), old(invitationStore.invitations),
                                   householdId, invitationId);
      && (plan.Err? ==> res == Err(plan.error) && invitationStore.invitations == old(invitationStore.invitations))
      && (plan.Ok? && old(invitationStore.invitations)[invitationId].status == InvitationStatus.Pending ==>
            res == Ok(()) && invitationStore.invitations == old(invitationStore.invitations) - {invitationId})
      && (plan.Ok? && old(invitationStore.invitations)[invitationId].status != InvitationStatus.Pending ==>
            res == Err(HandlerError.NotFound) && invitationStore.invitations == old(invitationStore.invitations))
    ensures (invitationId in old(invitationStore.invitations)
             && old(invitationStore.invitations)[invitationId].householdId != householdId) ==>
      invitationStore.invitations == old(invitationStore.invitations)
  {
    var plan := CancelPlan(GetMemberRole(members, householdId, userId), invitationStore.invitations,
                           householdId, invitationId);
    if plan.Err? {
      return Err(plan.error);
    }
    var cancelled := invitationStore.CancelInvitation(invitationId);
    if cancelled.Err? {
      return Err(HandlerError.NotFound);
    }
    res := Ok(());
  }

  /**
   * create_invitation end to end: the guards, then the service. No
   * invitation ever carries the Owner role.
   */
  method HandleInvite(invitationStore: InvitationStore, members: seq<Membership>, users: map<string, Uuid>,
                      householdId: Uuid, userId: Uuid, email: string, requested: Option<Role>,
                      id: Uuid, now: Instant)
    returns (res: Result<Invitation, HandlerError>)
    requires id !in invitationStore.invitations
    modifies invitationStore
    ensures var plan := InvitePlan(GetMemberRole(members, householdId, userId), requested);
      && (plan.Err? ==> res == Err(plan.error) && invitationStore.invitations == old(invitationStore.invitations))
      && (plan.Ok? && email in users && IsMember(members, householdId, users[email]) ==>
            res == Err(HandlerError.AlreadyMember) && invitationStore.invitations == old(invitationStore.invitations))
      && (plan.Ok? && !(email in users && IsMember(members, householdId, users[email]))
          && old(PendingFor(invitationStore.invitations, householdId, email)) ==>
            res == Err(AlreadyInvited) && invitationStore.invitations == old(invitationStore.invitations))
    ensures var plan := InvitePlan(GetMemberRole(members, householdId, userId), requested);
      res.Ok? <==> plan.Ok? && !(email in users && IsMember(members, householdId, users[email]))
                   && !old(PendingFor(invitationStore.invitations, householdId, email))
    ensures res.Ok? ==>
      res.value.role != Owner && res.value.role == requested.UnwrapOr(Member)
      && res.value.householdId == householdId && res.value.invitedBy == userId
      && res.value.email == email && res.value.id == id && res.value.status == InvitationStatus.Pending
      && invitationStore.invitations == old(invitationStore.invitations)[id := res.value]
  {
    var plan := InvitePlan(GetMemberRole(members, householdId, userId), requested);
    if plan.Err? {
      return Err(plan.error);
    }
    var created := invitationStore.CreateInvitation(members, users, householdId, email, plan.value, userId, id, now);
    if created.Err? {
      return Err(if created.error == InvitationError.AlreadyExists then AlreadyInvited else HandlerError.AlreadyMember);
    }
    res := Ok(created.value);
  }
}
