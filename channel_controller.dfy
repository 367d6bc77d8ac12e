/**
 * ChannelController: creating a channel in a space together with its owner
 * membership, editing it and deleting it. Each action is a transition of the
 * tables (a function returning the status and the new tables) and a method
 * that performs it on a Store.
 */
module ChannelController {
  import opened Wrappers
  import opened Roles
  import opened Schema
  import opened Database
  import opened Invariants
  import ModelMetaData
  import ACL
  import ChannelACL
  import ChannelScope
  import ChannelPolicy

  /** `Channel::$fillable` apart from `privacy`, which the model keeps as its own column. */
  const Fillable: set<string> := {"name", "description", "latitude", "longitude"}

  /**
   * Route binding of `{channel}`: the live channel with that id, if the
   * global ChannelScope lets the actor see it. The binding does not look
   * at the route's space.
   */
  function ChannelAt(db: Db, actor: UserId, id: nat): (r: Option<Channel>)
    ensures r.Some? ==> 1 <= id <= |db.channels| && r.value == db.channels[id - 1] && Live(r.value.meta)
  {
    if 1 <= id <= |db.channels| && Live(db.channels[id - 1].meta)
       && ChannelScope.Visible(db.channels[id - 1], ACL.JoinedSpaceIds(db, actor), ACL.JoinedChannelIds(db, actor))
    then Some(db.channels[id - 1])
    else None
  }

  // ---- store ----

  /** The channel `store` inserts: attached to the route space, owner forced by the `creating` hook. */
  function NewChannel(db: Db, actor: UserId, spaceId: nat, privacy: Privacy, input: map<string, string>): (r: Channel)
  {
    var meta := ModelMetaData.StampCreated(Blank, Some(actor));
    Channel(|db.channels| + 1, spaceId, privacy, ChannelACL.OwnerOnCreate(Some(actor), meta.createdBy),
            Fill(map[], input, Fillable), meta)
  }

  /** The owner membership `store` inserts for the new channel. */
  function NewOwner(db: Db, actor: UserId): (r: ChannelMember)
  {
    ChannelMember(|db.channelMembers| + 1, |db.channels| + 1, actor, Owner, ModelMetaData.StampCreated(Blank, Some(actor)))
  }

  /** Route binding of `{space}`, then `authorize('create', Channel::class)`. */
  function StoreGate(db: Db, actor: UserId, spaceId: nat): (status: nat)
    ensures status == 200 ==> SpaceAt(db, spaceId).Some?
  {
    match SpaceAt(db, spaceId)
    case None => 404
    case Some(space) =>
      var o := ChannelPolicy.Create(db, actor, space);
      if o != Allow then RejectionStatus(o) else 200
  }

  /** `store`: insert the channel into the route space, then the actor's owner membership of it. */
  function StoreEffect(db: Db, actor: UserId, spaceId: nat, privacy: Privacy, input: map<string, string>): (r: Response)
  {
    var status := StoreGate(db, actor, spaceId);
    Response(status, if status == 200 then AddOwnedChannel(db, NewChannel(db, actor, spaceId, privacy, input), NewOwner(db, actor))
                     else db)
  }

  method Store(st: Store, actor: UserId, spaceId: nat, privacy: Privacy, input: map<string, string>)
    returns (status: nat)
    modifies st
    ensures Response(status, st.Snapshot()) == StoreEffect(old(st.Snapshot()), actor, spaceId, privacy, input)
  {
    var bound := SpaceAt(st.Snapshot(), spaceId);
    if bound.None? {
      return 404;
    }
    var o := ChannelPolicy.Create(st.Snapshot(), actor, bound.value);
    if o != Allow {
      return RejectionStatus(o);
    }
    var channel := NewChannel(st.Snapshot(), actor, spaceId, privacy, input);
    var owner := NewOwner(st.Snapshot(), actor);
    st.channels := st.channels + [channel];
    st.channelMembers := st.channelMembers + [owner];
    status := 200;
  }

  // ---- update ----

  /**
   * Route binding of `{space}` and `{channel}`, then `authorize('update',
   * $channel)`, which answers 404 when the channel is not in the route space.
   */
  function UpdateGate(db: Db, actor: UserId, spaceId: nat, channelId: nat): (status: nat)
    ensures status == 200 ==> SpaceAt(db, spaceId).Some? && ChannelAt(db, actor, channelId).Some?
  {
    match SpaceAt(db, spaceId)
    case None => 404
    case Some(space) =>
      match ChannelAt(db, actor, channelId)
      case None => 404
      case Some(channel) =>
        var o := ChannelPolicy.Update(db, actor, space, channel);
        if o != Allow then RejectionStatus(o) else 200
  }

  /** `$channel->fill(...)->save()` on the row at position `k`: written only when dirty. */
  function SaveChannel(db: Db, actor: UserId, k: nat, privacy: Option<Privacy>, input: map<string, string>): (r: Db)
    requires k < |db.channels|
  {
    var channel := db.channels[k];
    var attrs := Fill(channel.attrs, input, Fillable);
    var newPrivacy := privacy.GetOr(channel.privacy);
    if attrs == channel.attrs && newPrivacy == channel.privacy then db
    else SetChannel(db, k, channel.(privacy := newPrivacy, attrs := attrs,
                                   meta := ModelMetaData.StampUpdated(channel.meta, Some(actor))))
  }

  /** `update`: fill the channel from the request and save it. */
  function UpdateEffect(db: Db, actor: UserId, spaceId: nat, channelId: nat, privacy: Option<Privacy>,
                        input: map<string, string>): (r: Response)
  {
    var status := UpdateGate(db, actor, spaceId, channelId);
    Response(status, if status == 200 then SaveChannel(db, actor, channelId - 1, privacy, input) else db)
  }

  method Update(st: Store, actor: UserId, spaceId: nat, channelId: nat, privacy: Option<Privacy>,
                input: map<string, string>) returns (status: nat)
    modifies st
    ensures Response(status, st.Snapshot()) == UpdateEffect(old(st.Snapshot()), actor, spaceId, channelId, privacy, input)
  {
    var space := SpaceAt(st.Snapshot(), spaceId);
    if space.None? {
      return 404;
    }
    var bound := ChannelAt(st.Snapshot(), actor, channelId);
    if bound.None? {
      return 404;
    }
    var channel := bound.value;
    var o := ChannelPolicy.Update(st.Snapshot(), actor, space.value, channel);
    if o != Allow {
      return RejectionStatus(o);
    }
    var attrs := Fill(channel.attrs, input, Fillable);
    var newPrivacy := privacy.GetOr(channel.privacy);
    if attrs != channel.attrs || newPrivacy != channel.privacy {
      st.channels := st.channels[channelId - 1 := channel.(privacy := newPrivacy, attrs := attrs,
                                                            meta := ModelMetaData.StampUpdated(channel.meta, Some(actor)))];
    }
    status := 200;
  }

  // ---- destroy ----

  /**
   * Route binding of `{space}` and `{channel}`, then `authorize('delete',
   * $channel)`. The delete rule does not compare the channel's space with
   * the route's.
   */
  function DestroyGate(db: Db, actor: UserId, spaceId: nat, channelId: nat): (status: nat)
    ensures status == 200 ==> SpaceAt(db, spaceId).Some? && ChannelAt(db, actor, channelId).Some?
  {
    if SpaceAt(db, spaceId).None? then 404
    else
      match ChannelAt(db, actor, channelId)
      case None => 404
      case Some(channel) =>
        var o := ChannelPolicy.Delete(actor, channel);
        if o != Allow then RejectionStatus(o) else 200
  }

  /** `destroy`: soft-delete the channel; its memberships stay. */
  function DestroyEffect(db: Db, actor: UserId, spaceId: nat, channelId: nat, now: Time): (r: Response)
  {
    var status := DestroyGate(db, actor, spaceId, channelId);
    if status != 200 then Response(status, db)
    else
      var k := channelId - 1;
      Response(204, SetChannel(db, k, db.channels[k].(meta := Trashed(db.channels[k].meta, now, actor))))
  }

  method Destroy(st: Store, actor: UserId, spaceId: nat, channelId: nat, now: Time) returns (status: nat)
    modifies st
    ensures Response(status, st.Snapshot()) == DestroyEffect(old(st.Snapshot()), actor, spaceId, channelId, now)
  {
    if SpaceAt(st.Snapshot(), spaceId).None? {
      return 404;
    }
    var bound := ChannelAt(st.Snapshot(), actor, channelId);
    if bound.None? {
      return 404;
    }
    var channel := bound.value;
    var o := ChannelPolicy.Delete(actor, channel);
    if o != Allow {
      return RejectionStatus(o);
    }
    st.channels := st.channels[channelId - 1 := channel.(meta := Trashed(channel.meta, now, actor))];
    status := 204;
  }
}
