/**
 * ChannelMemberPolicy: who may list, view, add, change and remove the members
 * of a channel. The route carries `{space}` and `{channel}`; the request body
 * carries `user_id` and `role`.
 */
module ChannelMemberPolicy {
  import opened Wrappers
  import opened Roles
  import opened Schema

  /** The route's channel belongs to the route's space. */
  predicate ChannelInSpace(space: Space, channel: Channel)
  {
    space.id == channel.spaceId
  }

  /** ...and the route's member belongs to the route's channel. */
  predicate MemberInChannel(space: Space, channel: Channel, member: ChannelMember)
  {
    space.id == channel.spaceId && channel.id == member.channelId
  }

  function ViewAny(space: Space, channel: Channel): (r: Outcome)
    ensures r == NotFound <==> !ChannelInSpace(space, channel)
    ensures r == Allow <==> ChannelInSpace(space, channel)
  {
    if space.id != channel.spaceId then NotFound else Allow
  }

  function View(space: Space, channel: Channel, member: ChannelMember): (r: Outcome)
    ensures r == NotFound <==> !MemberInChannel(space, channel, member)
    ensures r == Allow <==> MemberInChannel(space, channel, member)
  {
    if space.id != channel.spaceId || channel.id != member.channelId then NotFound else Allow
  }

  /**
   * Adding `userId` to the channel with `role`. A user who is not yet in the
   * channel may add themself to a public channel as a plain member; otherwise
   * the actor must be a channel member above `member` and may grant any role
   * from their own rank downwards except owner.
   */
  function Create(db: Db, actor: UserId, space: Space, channel: Channel, userId: UserId, role: Role): (r: Outcome)
    ensures r == NotFound <==> !ChannelInSpace(space, channel)
    ensures r == Allow || r == Deny || r == NotFound
    ensures r == Allow ==> IsSpaceMember(db, space.id, userId) && role != Owner
    ensures r == Allow ==>
      var auth := ChannelMemberOf(db, channel.id, actor);
      if auth.None? then actor == userId && role == Member && channel.privacy == Public
      else auth.value.role != Member && RanksAtLeast(auth.value.role, role)
    ensures ChannelInSpace(space, channel) && IsSpaceMember(db, space.id, userId) ==>
      var auth := ChannelMemberOf(db, channel.id, actor);
      (auth.None? && actor == userId && role == Member && channel.privacy == Public ==> r == Allow)
      && (auth.Some? && auth.value.role != Member && RanksAtLeast(auth.value.role, role) && role != Owner ==> r == Allow)
  {
    if space.id != channel.spaceId then NotFound
    else if !IsSpaceMember(db, space.id, userId) then Deny
    else
      var auth := ChannelMemberOf(db, channel.id, actor);
      if auth.None? && actor == userId && role == Member && channel.privacy == Public then Allow
      else if auth.None? || auth.value.role == Member then Deny
      else FromBool(Index(auth.value.role) <= Index(role) && role != Owner)
  }

  /**
   * Changing `member`'s role to `role`. The actor must be in the channel and
   * rank at least as high as both the new role and the member's current role;
   * an owner changing themself may not step down, and nobody else may be
   * made owner or be changed by anyone but an owner or admin.
   */
  function Update(db: Db, actor: UserId, space: Space, channel: Channel, member: ChannelMember, role: Role): (r: Outcome)
    ensures r == NotFound <==> !MemberInChannel(space, channel, member)
    ensures r == Allow || r == Deny || r == NotFound
    ensures r == Allow <==> (
      && MemberInChannel(space, channel, member)
      && var auth := ChannelMemberOf(db, channel.id, actor);
         && auth.Some?
         && RanksAtLeast(auth.value.role, role)
         && RanksAtLeast(auth.value.role, member.role)
         && if actor == member.userId then !(auth.value.role == Owner && role != Owner)
            else role != Owner && IsManager(auth.value.role))
  {
    if space.id != channel.spaceId || channel.id != member.channelId then NotFound
    else
      var auth := ChannelMemberOf(db, channel.id, actor);
      if auth.None? then Deny
      else if Index(auth.value.role) > Index(role) || Index(auth.value.role) > Index(member.role) then Deny
      else if actor == member.userId then
        FromBool(!(auth.value.role == Owner && role != Owner))
      else if role == Owner then Deny
      else FromBool(auth.value.role == Owner || auth.value.role == Admin)
  }

  /**
   * Removing `member`. The owner is never removed; a member may leave; anyone
   * else needs a non-member role ranking at least as high as the member's.
   */
  function Delete(db: Db, actor: UserId, space: Space, channel: Channel, member: ChannelMember): (r: Outcome)
    ensures r == NotFound <==> !MemberInChannel(space, channel, member)
    ensures r == Allow || r == Deny || r == NotFound
    ensures r == Allow <==> (
      && MemberInChannel(space, channel, member)
      && member.role != Owner
      && var auth := ChannelMemberOf(db, channel.id, actor);
         && auth.Some?
         && (actor == member.userId || (auth.value.role != Member && RanksAtLeast(auth.value.role, member.role))))
  {
    if space.id != channel.spaceId || channel.id != member.channelId then NotFound
    else if member.role == Owner then Deny
    else
      var auth := ChannelMemberOf(db, channel.id, actor);
      if auth.None? then Deny
      else if actor != member.userId then
        if auth.value.role == Member then Deny
        else FromBool(Index(auth.value.role) <= Index(member.role))
      else Allow
  }

  function Restore(actor: UserId, member: ChannelMember): (r: Outcome)
  {
    Deny
  }

  function ForceDelete(actor: UserId, member: ChannelMember): (r: Outcome)
  {
    Deny
  }

  /**
   * A route whose channel is not in its space, or whose member is not in its
   * channel, is answered 404 by every action before anything else is looked
   * at, whatever the database holds.
   */
  lemma RouteMismatchIsNotFound(db: Db, actor: UserId, space: Space, channel: Channel,
                                member: ChannelMember, userId: UserId, role: Role)
    ensures !ChannelInSpace(space, channel) ==>
      ViewAny(space, channel) == NotFound && Create(db, actor, space, channel, userId, role) == NotFound
    ensures !MemberInChannel(space, channel, member) ==>
      View(space, channel, member) == NotFound && Update(db, actor, space, channel, member, role) == NotFound
      && Delete(db, actor, space, channel, member) == NotFound
  {
  }

  /** Restoring and permanently deleting channel members is never allowed. */
  lemma RestoreAndForceDeleteDenied(actor: UserId, member: ChannelMember)
    ensures Restore(actor, member) == Deny && ForceDelete(actor, member) == Deny
  {
  }
}
