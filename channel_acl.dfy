/**
 * ChannelACL: every channel query is filtered by ChannelScope, and the
 * `creating` hook names a new channel's owner.
 */
module ChannelACL {
  import opened Wrappers
  import opened Schema
  import ACL
  import ChannelScope

  /** `owner_id = ACL::getUserId() ?? created_by`. */
  function OwnerOnCreate(aclUser: Option<UserId>, createdBy: Option<UserId>): (r: Option<UserId>)
    ensures aclUser.Some? ==> r == aclUser
    ensures aclUser.None? ==> r == createdBy
  {
    OrElse(aclUser, createdBy)
  }

  /** A channel being inserted. */
  class PendingChannel {
    var ownerId: Option<UserId>
    const createdBy: Option<UserId>

    constructor (creator: Option<UserId>)
      ensures createdBy == creator && ownerId.None?
    {
      createdBy := creator;
      ownerId := None;
    }

    method Creating(ctx: ACL.IdentityContext, w: ACL.World)
      modifies this`ownerId, ctx`user
      ensures ownerId == OwnerOnCreate(if old(ctx.user).Some? then old(ctx.user) else w.auth, createdBy)
      ensures old(ctx.Coherent(w)) ==> ctx.Coherent(w) && ownerId == OwnerOnCreate(w.auth, createdBy)
    {
      var id := ctx.GetUserId(w);
      ownerId := OrElse(id, createdBy);
    }
  }

  /**
   * A channel query under the global scope: the scope reads the actor's
   * spaces and channels through the identity cache.
   */
  method ScopedChannels(ctx: ACL.IdentityContext, w: ACL.World, rows: seq<Channel>) returns (r: seq<Channel>)
    requires w.auth.Some?
    modifies ctx`spaces, ctx`channels, ctx`loadedSpaces, ctx`loadedChannels
    ensures ctx.spaces.Some? && ctx.channels.Some?
    ensures r == ChannelScope.Apply(rows, ctx.spaces.value, ctx.channels.value)
    ensures old(ctx.Coherent(w)) ==> (
      && ctx.Coherent(w)
      && r == ChannelScope.Apply(rows, ACL.JoinedSpaceIds(w.db, w.auth.value), ACL.JoinedChannelIds(w.db, w.auth.value)))
  {
    var spaceIds := ctx.GetSpaces(w);
    var channelIds := ctx.GetChannels(w);
    r := ChannelScope.Apply(rows, spaceIds, channelIds);
  }

  /**
   * Through a coherent cache, a private channel is listed only to a member
   * of it who also belongs to its space.
   */
  lemma PrivateChannelsOnlyForMembers(w: ACL.World, rows: seq<Channel>, c: Channel)
    requires w.auth.Some? && c in rows && c.privacy == Roles.Private
    ensures c in ChannelScope.Apply(rows, ACL.JoinedSpaceIds(w.db, w.auth.value), ACL.JoinedChannelIds(w.db, w.auth.value))
      <==> ACL.InSpace(w.db, w.auth.value, c.spaceId) && ACL.InChannel(w.db, w.auth.value, c.id)
  {
  }
}
