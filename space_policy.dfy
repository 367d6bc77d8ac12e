/** SpacePolicy: who may list, view, create, edit and remove spaces. */
module SpacePolicy {
  import opened Wrappers
  import opened Roles
  import opened Schema

  /** Listing, viewing and creating are open; SpaceScope narrows what is listed. */
  function ViewAny(actor: UserId): (r: Outcome)
  {
    Allow
  }

  function View(actor: UserId, space: Space): (r: Outcome)
  {
    Allow
  }

  function Create(actor: UserId): (r: Outcome)
  {
    Allow
  }

  /** Editing a space, and uploading its images: an owner or admin of the space. */
  function Update(db: Db, actor: UserId, space: Space): (r: Outcome)
    ensures r == Allow <==> IsSpaceManager(db, space.id, actor)
    ensures r == Allow || r == Deny
  {
    var m := SpaceMemberOf(db, space.id, actor);
    FromBool(m.Some? && (RoleOf(db, m.value).role == Owner || RoleOf(db, m.value).role == Admin))
  }

  /** Deleting a space: its owner, compared loosely with the stored `owner_id`. */
  function Delete(actor: UserId, space: Space): (r: Outcome)
    ensures r == Allow <==> LooseEq(actor, space.ownerId)
    ensures r == Allow || r == Deny
  {
    FromBool(LooseEq(actor, space.ownerId))
  }

  /** Restoring a space follows the same rule as deleting it. */
  function Restore(actor: UserId, space: Space): (r: Outcome)
    ensures r == Delete(actor, space)
  {
    FromBool(LooseEq(actor, space.ownerId))
  }

  function ForceDelete(actor: UserId, space: Space): (r: Outcome)
  {
    Deny
  }

  /** Every request may list, view and create spaces; none may force-delete one. */
  lemma OpenAndClosedActions(actor: UserId, space: Space)
    ensures ViewAny(actor) == Allow && View(actor, space) == Allow && Create(actor) == Allow
    ensures ForceDelete(actor, space) == Deny
  {
  }
}
