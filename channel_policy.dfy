/** ChannelPolicy: who may list, view, create, edit and remove channels. */
module ChannelPolicy {
  import opened Wrappers
  import opened Roles
  import opened Schema

  function ViewAny(actor: UserId): (r: Outcome)
  {
    Allow
  }

  function View(space: Space, channel: Channel): (r: Outcome)
    ensures r == NotFound <==> space.id != channel.spaceId
    ensures r == Allow <==> space.id == channel.spaceId
  {
    if space.id != channel.spaceId then NotFound else Allow
  }

  /** Any member of the route's space may create a channel in it. */
  function Create(db: Db, actor: UserId, space: Space): (r: Outcome)
    ensures r == Allow <==> IsSpaceMember(db, space.id, actor)
    ensures r == Allow || r == Deny
  {
    FromBool(IsSpaceMember(db, space.id, actor))
  }

  /** Editing a channel: an owner or admin of that channel. */
  function Update(db: Db, actor: UserId, space: Space, channel: Channel): (r: Outcome)
    ensures r == NotFound <==> space.id != channel.spaceId
    ensures r == Allow || r == Deny || r == NotFound
    ensures r == Allow <==> (
      && space.id == channel.spaceId
      && var m := ChannelMemberOf(db, channel.id, actor);
         m.Some? && IsManager(m.value.role))
  {
    if space.id != channel.spaceId then NotFound
    else
      var m := ChannelMemberOf(db, channel.id, actor);
      FromBool(m.Some? && (m.value.role == Owner || m.value.role == Admin))
  }

  /** Deleting a channel: its owner, compared loosely with the stored `owner_id`. */
  function Delete(actor: UserId, channel: Channel): (r: Outcome)
    ensures r == Allow <==> LooseEq(actor, channel.ownerId)
    ensures r == Allow || r == Deny
  {
    FromBool(LooseEq(actor, channel.ownerId))
  }

  /** Restoring a channel follows the same rule as deleting it. */
  function Restore(actor: UserId, channel: Channel): (r: Outcome)
    ensures r == Delete(actor, channel)
  {
    FromBool(LooseEq(actor, channel.ownerId))
  }

  function ForceDelete(actor: UserId, channel: Channel): (r: Outcome)
  {
    Deny
  }

  /** A recorded owner is the only user who may delete or restore the channel. */
  lemma OnlyOwnerDeletes(actor: UserId, channel: Channel)
    requires channel.ownerId.Some?
    ensures Delete(actor, channel) == Allow <==> actor == channel.ownerId.value
    ensures Restore(actor, channel) == Allow <==> actor == channel.ownerId.value
    ensures ForceDelete(actor, channel) == Deny
  {
  }
}
