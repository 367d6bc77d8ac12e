/**
 * SpaceMemberRolePolicy: who may read, assign, change, hand over and remove
 * the role of a space member. The route carries `{space}` and `{member}`; the
 * request body may carry `role`, which validation only restricts to the
 * ladder (absent is `None`).
 */
module SpaceMemberRolePolicy {
  import opened Wrappers
  import opened Roles
  import opened Schema

  /** The route's member is in the route's space and owns the route's role. */
  predicate RouteMatches(space: Space, member: SpaceMember, role: SpaceMemberRole)
  {
    space.id == member.spaceId && member.id == role.memberId
  }

  function ViewAny(actor: UserId): (r: Outcome)
  {
    Allow
  }

  function View(space: Space, member: SpaceMember, role: SpaceMemberRole): (r: Outcome)
    ensures r == NotFound <==> !RouteMatches(space, member, role)
    ensures r == Allow <==> RouteMatches(space, member, role)
  {
    if space.id != member.spaceId || member.id != role.memberId then NotFound else Allow
  }

  /**
   * Giving `member` a role: only an owner or admin of the space, never the
   * owner role, and only to a member who has no role row yet.
   */
  function Create(db: Db, actor: UserId, space: Space, member: SpaceMember, role: Option<Role>): (r: Outcome)
    ensures r == NotFound <==> space.id != member.spaceId
    ensures r == Allow || r == Deny || r == NotFound
    ensures r == Allow <==> (
      && space.id == member.spaceId
      && IsSpaceManager(db, space.id, actor)
      && role != Some(Owner)
      && EmptyId(RoleOf(db, member).id))
  {
    if space.id != member.spaceId then NotFound
    else
      var auth := SpaceMemberOf(db, space.id, actor);
      if auth.None? || (RoleOf(db, auth.value).role != Owner && RoleOf(db, auth.value).role != Admin) then Deny
      else FromBool(role != Some(Owner) && EmptyId(RoleOf(db, member).id))
  }

  /** Changing a role: an owner or admin, and neither the old nor the new role is owner. */
  function Update(db: Db, actor: UserId, space: Space, member: SpaceMember, role: SpaceMemberRole,
                  newRole: Option<Role>): (r: Outcome)
    ensures r == NotFound <==> !RouteMatches(space, member, role)
    ensures r == Allow || r == Deny || r == NotFound
    ensures r == Allow <==> (
      && RouteMatches(space, member, role)
      && IsSpaceManager(db, space.id, actor)
      && role.role != Owner
      && newRole != Some(Owner))
  {
    if space.id != member.spaceId || member.id != role.memberId then NotFound
    else
      var auth := SpaceMemberOf(db, space.id, actor);
      if auth.None? || (RoleOf(db, auth.value).role != Owner && RoleOf(db, auth.value).role != Admin) then Deny
      else FromBool(role.role != Owner && newRole != Some(Owner))
  }

  /** Handing the space over to `member`: only the current owner. */
  function TransferOwnership(db: Db, actor: UserId, space: Space, member: SpaceMember, role: SpaceMemberRole): (r: Outcome)
    ensures r == NotFound <==> !RouteMatches(space, member, role)
    ensures r == Allow || r == Deny || r == NotFound
    ensures r == Allow <==> RouteMatches(space, member, role) && ActorRole(db, space.id, actor) == Some(Owner)
  {
    if space.id != member.spaceId || member.id != role.memberId then NotFound
    else
      var auth := SpaceMemberOf(db, space.id, actor);
      FromBool(!(auth.None? || RoleOf(db, auth.value).role != Owner))
  }

  /** Removing a role: never the owner role, and only by an owner or admin. */
  function Delete(db: Db, actor: UserId, space: Space, member: SpaceMember, role: SpaceMemberRole): (r: Outcome)
    ensures r == NotFound <==> !RouteMatches(space, member, role)
    ensures r == Allow || r == Deny || r == NotFound
    ensures r == Allow <==> RouteMatches(space, member, role) && role.role != Owner && IsSpaceManager(db, space.id, actor)
  {
    if space.id != member.spaceId || member.id != role.memberId then NotFound
    else if role.role == Owner then Deny
    else
      var auth := SpaceMemberOf(db, space.id, actor);
      FromBool(!(auth.None? || (RoleOf(db, auth.value).role != Owner && RoleOf(db, auth.value).role != Admin)))
  }

  function Restore(actor: UserId, role: SpaceMemberRole): (r: Outcome)
  {
    Deny
  }

  function ForceDelete(actor: UserId, role: SpaceMemberRole): (r: Outcome)
  {
    Deny
  }

  /**
   * No action on roles ever creates or produces a second owner: create and
   * update reject the owner role outright, and only transferOwnership, by the
   * current owner, can name a new one.
   */
  lemma OwnerRoleOnlyByTransfer(db: Db, actor: UserId, space: Space, member: SpaceMember,
                                role: SpaceMemberRole, newRole: Option<Role>)
    ensures Create(db, actor, space, member, Some(Owner)) != Allow
    ensures Update(db, actor, space, member, role, Some(Owner)) != Allow
    ensures TransferOwnership(db, actor, space, member, role) == Allow ==> ActorRole(db, space.id, actor) == Some(Owner)
    ensures Update(db, actor, space, member, role, newRole) == Allow ==> role.role != Owner
    ensures Delete(db, actor, space, member, role) == Allow ==> role.role != Owner
  {
  }

  /** Restoring and permanently deleting roles is never allowed. */
  lemma RestoreAndForceDeleteDenied(actor: UserId, role: SpaceMemberRole)
    ensures Restore(actor, role) == Deny && ForceDelete(actor, role) == Deny
  {
  }
}
