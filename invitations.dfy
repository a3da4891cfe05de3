/**
 * Household invitations (the household_invitations table): created
 * pending for seven days, then accepted, declined, expired or cancelled.
 */
module Invitations {
  import opened Wrappers
  import opened Dates
  import opened Types
  import opened Text
  import opened Households

  datatype InvitationStatus = Pending | Accepted | Declined | Expired

  datatype Invitation = Invitation(
    id: Uuid,
    householdId: Uuid,
    email: string,
    role: Role,
    invitedBy: Uuid,
    status: InvitationStatus,
    createdAt: Instant,
    expiresAt: Instant,
    respondedAt: Option<Instant>)

  /** InvitationError, without the lookups of users this model does not make. */
  datatype InvitationError = NotFound | AlreadyExists | AlreadyMember | Expired | NotForUser

  /** INVITATION_EXPIRY_DAYS. */
  const InvitationExpiryDays: int := 7

  /** A pending invitation of the household for exactly this email. */
  predicate PendingFor(invitations: map<Uuid, Invitation>, householdId: Uuid, email: string)
  {
    exists id :: id in invitations && invitations[id].householdId == householdId
      && invitations[id].email == email && invitations[id].status == InvitationStatus.Pending
  }

  /** The emails match irrespective of case (to_lowercase on both sides). */
  predicate ForUser(inv: Invitation, userEmail: string)
  {
    ToLower(inv.email) == ToLower(userEmail)
  }

  predicate Overdue(inv: Invitation, now: Instant)
  {
    inv.status == InvitationStatus.Pending && inv.expiresAt < now
  }

  /**
   * expire_old_invitations: one UPDATE turning every pending invitation
   * whose expiry is before now into an expired one.
   */
  function ExpireAll(invitations: map<Uuid, Invitation>, now: Instant): (r: map<Uuid, Invitation>)
    ensures r.Keys == invitations.Keys
    ensures forall id :: id in invitations && Overdue(invitations[id], now) ==>
      r[id] == invitations[id].(status := InvitationStatus.Expired)
    ensures forall id :: id in invitations && !Overdue(invitations[id], now) ==> r[id] == invitations[id]
  {
    map id | id in invitations :: if Overdue(invitations[id], now) then invitations[id].(status := InvitationStatus.Expired) else invitations[id]
  }

  /** After the UPDATE no overdue invitation is left, and running it again changes nothing. */
  lemma ExpireAllSettles(invitations: map<Uuid, Invitation>, now: Instant)
    ensures forall id :: id in ExpireAll(invitations, now) ==> !Overdue(ExpireAll(invitations, now)[id], now)
    ensures ExpireAll(ExpireAll(invitations, now), now) == ExpireAll(invitations, now)
  {
    var once := ExpireAll(invitations, now);
    var twice := ExpireAll(once, now);
    assert forall id :: id in once ==> twice[id] == once[id];
  }

  /** Only a pending invitation ever changes status, and only to Accepted, Declined or Expired. */
  predicate StatusStep(from: InvitationStatus, to: InvitationStatus)
  {
    from == to || from == InvitationStatus.Pending
  }

  class InvitationStore {
    var invitations: map<Uuid, Invitation>

    constructor ()
      ensures invitations == map[]
    {
      invitations := map[];
    }

    /**
     * create_invitation: AlreadyMember when a user with the email is a
     * member of the household, AlreadyExists when a pending invitation
     * for the pair exists; otherwise a pending invitation with the fresh
     * id that expires seven days from now. users maps each user's email
     * to the user's id.
     */
    method CreateInvitation(members: seq<Membership>, users: map<string, Uuid>, householdId: Uuid, email: string,
                            role: Role, invitedBy: Uuid, id: Uuid, now: Instant)
      returns (res: Result<Invitation, InvitationError>)
      requires id !in invitations
      modifies this
      ensures email in users && IsMember(members, householdId, users[email]) ==>
        res == Err(AlreadyMember) && invitations == old(invitations)
      ensures !(email in users && IsMember(members, householdId, users[email])) && old(PendingFor(invitations, householdId, email)) ==>
        res == Err(AlreadyExists) && invitations == old(invitations)
      ensures res.Ok? <==>
        !(email in users && IsMember(members, householdId, users[email])) && !old(PendingFor(invitations, householdId, email))
      ensures res.Ok? ==>
        res.value == Invitation(id, householdId, email, role, invitedBy, InvitationStatus.Pending, now,
                                now + InvitationExpiryDays * SecondsPerDay, None)
        && invitations == old(invitations)[id := res.value]
      ensures PendingFor(invitations, householdId, email)
        || (res == Err(AlreadyMember) && invitations == old(invitations))
    {
      if email in users && IsMember(members, householdId, users[email]) {
        return Err(AlreadyMember);
      }
      if PendingFor(invitations, householdId, email) {
        return Err(AlreadyExists);
      }
      var inv := Invitation(id, householdId, email, role, invitedBy, InvitationStatus.Pending, now,
                            now + InvitationExpiryDays * SecondsPerDay, None);
      invitations := invitations[id := inv];
      assert invitations[id] == inv;
      res := Ok(inv);
    }

    /**
     * accept_invitation: NotFound for an unknown id, NotForUser when the
     * emails differ, NotFound unless pending; an overdue invitation is
     * marked Expired and fails Expired; AlreadyMember when the user
     * already belongs to the household. Otherwise the invitation is
     * Accepted at now and the user joins with the invitation's role and
     * no points.
     */
    method AcceptInvitation(members: HouseholdStore, invitationId: Uuid, userId: Uuid, userEmail: string,
                            now: Instant, membershipId: Uuid)
      returns (res: Result<Membership, InvitationError>)
      modifies this, members
      ensures members.households == old(members.households)
      ensures invitationId !in old(invitations) ==>
        res == Err(InvitationError.NotFound) && invitations == old(invitations) && members.members == old(members.members)
      ensures invitationId in old(invitations) ==>
        var inv := old(invitations)[invitationId];
        if !ForUser(inv, userEmail) then
          res == Err(NotForUser) && invitations == old(invitations) && members.members == old(members.members)
        else if inv.status != InvitationStatus.Pending then
          res == Err(InvitationError.NotFound) && invitations == old(invitations) && members.members == old(members.members)
        else if inv.expiresAt < now then
          res == Err(InvitationError.Expired) && invitations == old(invitations)[invitationId := inv.(status := InvitationStatus.Expired)]
          && members.members == old(members.members)
        else if old(IsMember(members.members, inv.householdId, userId)) then
          res == Err(AlreadyMember) && invitations == old(invitations) && members.members == old(members.members)
        else
          var m := Membership(membershipId, inv.householdId, userId, inv.role.AsStr(), 0, now);
          res == Ok(m)
          && invitations == old(invitations)[invitationId := inv.(status := InvitationStatus.Accepted, respondedAt := Some(now))]
          && members.members == old(members.members) + [m]
          && GetMemberRole(members.members, inv.householdId, userId) == Some(inv.role)
    {
      if invitationId !in invitations {
        return Err(InvitationError.NotFound);
      }
      var inv := invitations[invitationId];
      if ToLower(inv.email) != ToLower(userEmail) {
        return Err(NotForUser);
      }
      if inv.status != InvitationStatus.Pending {
        return Err(InvitationError.NotFound);
      }
      if inv.expiresAt < now {
        invitations := invitations[invitationId := inv.(status := InvitationStatus.Expired)];
        return Err(InvitationError.Expired);
      }
      if IsMember(members.members, inv.householdId, userId) {
        return Err(AlreadyMember);
      }
      invitations := invitations[invitationId := inv.(status := InvitationStatus.Accepted, respondedAt := Some(now))];
      members.AddMember(inv.householdId, userId, inv.role, membershipId, now);
      res := Ok(Membership(membershipId, inv.householdId, userId, inv.role.AsStr(), 0, now));
    }

    /**
     * decline_invitation: the same NotFound and NotForUser checks, then
     * the invitation is Declined at now (its expiry is not checked).
     */
    method DeclineInvitation(invitationId: Uuid, userEmail: string, now: Instant)
      returns (res: Result<(), InvitationError>)
      modifies this
      ensures invitationId !in old(invitations) ==> res == Err(InvitationError.NotFound) && invitations == old(invitations)
      ensures invitationId in old(invitations) ==>
        var inv := old(invitations)[invitationId];
        if !ForUser(inv, userEmail) then
          res == Err(NotForUser) && invitations == old(invitations)
        else if inv.status != InvitationStatus.Pending then
          res == Err(InvitationError.NotFound) && invitations == old(invitations)
        else
          res == Ok(())
          && invitations == old(invitations)[invitationId := inv.(status := Declined, respondedAt := Some(now))]
    {
      if invitationId !in invitations {
        return Err(InvitationError.NotFound);
      }
      var inv := invitations[invitationId];
      if ToLower(inv.email) != ToLower(userEmail) {
        return Err(NotForUser);
      }
      if inv.status != InvitationStatus.Pending {
        return Err(InvitationError.NotFound);
      }
      invitations := invitations[invitationId := inv.(status := Declined, respondedAt := Some(now))];
      res := Ok(());
    }

    /** cancel_invitation: delete the invitation if it is pending, NotFound otherwise. */
    method CancelInvitation(invitationId: Uuid) returns (res: Result<(), InvitationError>)
      modifies this
      ensures invitationId in old(invitations) && old(invitations)[invitationId].status == InvitationStatus.Pending ==>
        res == Ok(()) && invitations == old(invitations) - {invitationId}
      ensures !(invitationId in old(invitations) && old(invitations)[invitationId].status == InvitationStatus.Pending) ==>
        res == Err(InvitationError.NotFound) && invitations == old(invitations)
    {
      if invitationId in invitations && invitations[invitationId].status == InvitationStatus.Pending {
        invitations := invitations - {invitationId};
        return Ok(());
      }
      res := Err(InvitationError.NotFound);
    }

    /** expire_old_invitations. */
    method ExpireOldInvitations(now: Instant)
      modifies this
      ensures invitations == ExpireAll(old(invitations), now)
      ensures forall id :: id in invitations ==> StatusStep(old(invitations)[id].status, invitations[id].status)
    {
      invitations := ExpireAll(invitations, now);
    }
  }

  /** An accepted invitation was for the user: acceptance matches emails however they are cased. */
  lemma AcceptIgnoresCase(inv: Invitation, userEmail: string)
    requires ToLower(inv.email) == ToLower(userEmail)
    ensures ForUser(inv, ToLower(userEmail)) && ForUser(inv.(email := ToLower(inv.email)), userEmail)
  {
    ToLowerIdempotent(userEmail);
    ToLowerIdempotent(inv.email);
  }
}
