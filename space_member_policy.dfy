/**
 * SpaceMemberPolicy: who may list, view, add, edit and remove the members of
 * a space. The route carries `{space}`; adding reads `user_id` from the body.
 */
module SpaceMemberPolicy {
  import opened Wrappers
  import opened Roles
  import opened Schema

  function ViewAny(actor: UserId): (r: Outcome)
  {
    Allow
  }

  function View(space: Space, member: SpaceMember): (r: Outcome)
    ensures r == NotFound <==> space.id != member.spaceId
    ensures r == Allow <==> space.id == member.spaceId
  {
    if space.id != member.spaceId then NotFound else Allow
  }

  /**
   * Adding `userId` to the space. A non-member may join a public space
   * themself. The guard meant to stop plain members from adding others
   * compares the member's role relation, a model object, with the string
   * 'member'; the object's string form is its JSON, never that bare word, so
   * the guard never fires and every member may add users.
   */
  function Create(db: Db, actor: UserId, space: Space, userId: UserId): (r: Outcome)
    ensures r == Allow || r == Deny
    ensures r == Allow <==> IsSpaceMember(db, space.id, actor) || (actor == userId && space.privacy == Public)
  {
    var auth := SpaceMemberOf(db, space.id, actor);
    if auth.None? && actor == userId && space.privacy == Public then Allow
    else if auth.None? then Deny
    else Allow
  }

  /** Editing a member's own profile in the space: only that member. */
  function Update(actor: UserId, space: Space, member: SpaceMember): (r: Outcome)
    ensures r == NotFound <==> space.id != member.spaceId
    ensures r == Allow <==> space.id == member.spaceId && actor == member.userId
    ensures r == Allow || r == Deny || r == NotFound
  {
    if space.id != member.spaceId then NotFound else FromBool(actor == member.userId)
  }

  /**
   * Removing `member`: never the owner; the member's space must still
   * exist; a member may leave; anyone else needs a non-member role ranking
   * at least as high as the member's. There is no route check here.
   */
  function Delete(db: Db, actor: UserId, member: SpaceMember): (r: Outcome)
    ensures r == Allow || r == Deny
    ensures r == Allow <==> (
      && RoleOf(db, member).role != Owner
      && SpaceById(db, member.spaceId).Some?
      && IsSpaceMember(db, member.spaceId, actor)
      && (actor == member.userId ||
          var mine := ActorRole(db, member.spaceId, actor).value;
          mine != Member && RanksAtLeast(mine, RoleOf(db, member).role)))
  {
    if RoleOf(db, member).role == Owner then Deny
    else
      match SpaceById(db, member.spaceId)
      case None => Deny
      case Some(space) =>
        var auth := SpaceMemberOf(db, space.id, actor);
        if auth.None? then Deny
        else if actor != member.userId then
          if RoleOf(db, auth.value).role == Member then Deny
          else FromBool(Index(RoleOf(db, auth.value).role) <= Index(RoleOf(db, member).role))
        else Allow
  }

  function Restore(actor: UserId, member: SpaceMember): (r: Outcome)
  {
    Deny
  }

  function ForceDelete(actor: UserId, member: SpaceMember): (r: Outcome)
  {
    Deny
  }

  /**
   * What the comment beside the guard describes: a plain member may not add
   * other users.
   */
  function CreateAsCommented(db: Db, actor: UserId, space: Space, userId: UserId): (r: Outcome)
    ensures r == Allow <==> (
      || (!IsSpaceMember(db, space.id, actor) && actor == userId && space.privacy == Public)
      || (IsSpaceMember(db, space.id, actor) && ActorRole(db, space.id, actor) != Some(Member)))
  {
    var auth := SpaceMemberOf(db, space.id, actor);
    if auth.None? && actor == userId && space.privacy == Public then Allow
    else if auth.None? || RoleOf(db, auth.value).role == Member then Deny
    else Allow
  }

  /**
   * The two readings differ exactly when a plain member adds someone: the
   * code allows it, the comment forbids it.
   */
  lemma CreateDiffersFromCommentOnlyForPlainMembers(db: Db, actor: UserId, space: Space, userId: UserId)
    ensures Create(db, actor, space, userId) != CreateAsCommented(db, actor, space, userId) <==>
      ActorRole(db, space.id, actor) == Some(Member)
  {
  }

  /** Restoring and permanently deleting members is never allowed. */
  lemma RestoreAndForceDeleteDenied(actor: UserId, member: SpaceMember)
    ensures Restore(actor, member) == Deny && ForceDelete(actor, member) == Deny
  {
  }
}
