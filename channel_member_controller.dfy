/**
 * ChannelMemberController: adding a user to a channel, changing a channel
 * member's role and removing a channel member. The route carries `{space}`,
 * `{channel}` and, except for `store`, `{member}`; the request body carries
 * `role` (required, one of the ladder) and, for `store`, `user_id`. Each
 * action is a transition of the tables and a method that performs it on a
 * Store; the policy is consulted before any write.
 */
module ChannelMemberController {
  import opened Wrappers
  import opened Roles
  import opened Schema
  import opened Database
  import opened Invariants
  import ModelMetaData
  import ChannelMemberPolicy
  import ChannelController

  // ---- store ----

  /** The row `store` inserts: the request's user and role, attached to the route channel. */
  function NewChannelMember(db: Db, actor: UserId, channel: Channel, userId: UserId, role: Role): (r: ChannelMember)
  {
    ChannelMember(|db.channelMembers| + 1, channel.id, userId, role, ModelMetaData.StampCreated(Blank, Some(actor)))
  }

  /**
   * Route binding of `{space}` and `{channel}`, `authorize('create', ...)`,
   * then the 422 the action answers when the user already has a live
   * membership of the channel.
   */
  function StoreGate(db: Db, actor: UserId, spaceId: nat, channelId: nat, userId: UserId, role: Role): (status: nat)
    ensures status == 200 ==> SpaceAt(db, spaceId).Some? && ChannelController.ChannelAt(db, actor, channelId).Some?
  {
    match SpaceAt(db, spaceId)
    case None => 404
    case Some(space) =>
      match ChannelController.ChannelAt(db, actor, channelId)
      case None => 404
      case Some(channel) =>
        var o := ChannelMemberPolicy.Create(db, actor, space, channel, userId, role);
        if o != Allow then RejectionStatus(o)
        else if ChannelMemberOf(db, channel.id, userId).Some? then 422
        else 200
  }

  /** `store`: insert the membership. */
  function StoreEffect(db: Db, actor: UserId, spaceId: nat, channelId: nat, userId: UserId, role: Role): (r: Response)
  {
    var status := StoreGate(db, actor, spaceId, channelId, userId, role);
    if status != 200 then Response(status, db)
    else Response(200, AddChannelMember(db, NewChannelMember(db, actor, db.channels[channelId - 1], userId, role)))
  }

  method Store(st: Store, actor: UserId, spaceId: nat, channelId: nat, userId: UserId, role: Role) returns (status: nat)
    modifies st
    ensures Response(status, st.Snapshot()) == StoreEffect(old(st.Snapshot()), actor, spaceId, channelId, userId, role)
  {
    var space := SpaceAt(st.Snapshot(), spaceId);
    if space.None? {
      return 404;
    }
    var channel := ChannelController.ChannelAt(st.Snapshot(), actor, channelId);
    if channel.None? {
      return 404;
    }
    var o := ChannelMemberPolicy.Create(st.Snapshot(), actor, space.value, channel.value, userId, role);
    if o != Allow {
      return RejectionStatus(o);
    }
    if ChannelMemberOf(st.Snapshot(), channel.value.id, userId).Some? {
      return 422;
    }
    var row := NewChannelMember(st.Snapshot(), actor, channel.value, userId, role);
    st.channelMembers := st.channelMembers + [row];
    status := 200;
  }

  // ---- update ----

  /** Route binding of `{space}`, `{channel}` and `{member}`, then `authorize('update', $member)`. */
  function UpdateGate(db: Db, actor: UserId, spaceId: nat, channelId: nat, memberId: nat, role: Role): (status: nat)
    ensures status == 200 ==>
      && SpaceAt(db, spaceId).Some? && ChannelController.ChannelAt(db, actor, channelId).Some?
      && ChannelMemberAt(db, memberId).Some?
      && ChannelMemberPolicy.Update(db, actor, db.spaces[spaceId - 1], db.channels[channelId - 1],
                                    db.channelMembers[memberId - 1], role) == Allow
  {
    match SpaceAt(db, spaceId)
    case None => 404
    case Some(space) =>
      match ChannelController.ChannelAt(db, actor, channelId)
      case None => 404
      case Some(channel) =>
        match ChannelMemberAt(db, memberId)
        case None => 404
        case Some(member) =>
          var o := ChannelMemberPolicy.Update(db, actor, space, channel, member, role);
          if o != Allow then RejectionStatus(o) else 200
  }

  /** `$member->fill(['role' => ...])->save()` on the row at position `k`: written only when the role changes. */
  function SaveChannelMember(db: Db, actor: UserId, k: nat, role: Role): (r: Db)
    requires k < |db.channelMembers|
  {
    var member := db.channelMembers[k];
    if role == member.role then db
    else SetChannelMember(db, k, member.(role := role, meta := ModelMetaData.StampUpdated(member.meta, Some(actor))))
  }

  /** `update`: set the member's role from the request. */
  function UpdateEffect(db: Db, actor: UserId, spaceId: nat, channelId: nat, memberId: nat, role: Role): (r: Response)
  {
    var status := UpdateGate(db, actor, spaceId, channelId, memberId, role);
    if status != 200 then Response(status, db)
    else Response(200, SaveChannelMember(db, actor, memberId - 1, role))
  }

  method Update(st: Store, actor: UserId, spaceId: nat, channelId: nat, memberId: nat, role: Role) returns (status: nat)
    modifies st
    ensures Response(status, st.Snapshot()) == UpdateEffect(old(st.Snapshot()), actor, spaceId, channelId, memberId, role)
  {
    status := UpdateGate(st.Snapshot(), actor, spaceId, channelId, memberId, role);
    if status != 200 {
      return;
    }
    var member := st.channelMembers[memberId - 1];
    if role != member.role {
      st.channelMembers := st.channelMembers[memberId - 1 := member.(role := role,
                                                                     meta := ModelMetaData.StampUpdated(member.meta, Some(actor)))];
    }
  }

  // ---- destroy ----

  /** Route binding of `{space}`, `{channel}` and `{member}`, then `authorize('delete', $member)`. */
  function DestroyGate(db: Db, actor: UserId, spaceId: nat, channelId: nat, memberId: nat): (status: nat)
    ensures status == 200 ==>
      SpaceAt(db, spaceId).Some? && ChannelController.ChannelAt(db, actor, channelId).Some?
      && ChannelMemberAt(db, memberId).Some?
  {
    match SpaceAt(db, spaceId)
    case None => 404
    case Some(space) =>
      match ChannelController.ChannelAt(db, actor, channelId)
      case None => 404
      case Some(channel) =>
        match ChannelMemberAt(db, memberId)
        case None => 404
        case Some(member) =>
          var o := ChannelMemberPolicy.Delete(db, actor, space, channel, member);
          if o != Allow then RejectionStatus(o) else 200
  }

  /** `destroy`: soft-delete the membership. */
  function DestroyEffect(db: Db, actor: UserId, spaceId: nat, channelId: nat, memberId: nat, now: Time): (r: Response)
  {
    var status := DestroyGate(db, actor, spaceId, channelId, memberId);
    if status != 200 then Response(status, db)
    else
      var k := memberId - 1;
      Response(204, SetChannelMember(db, k, db.channelMembers[k].(meta := Trashed(db.channelMembers[k].meta, now, actor))))
  }

  method Destroy(st: Store, actor: UserId, spaceId: nat, channelId: nat, memberId: nat, now: Time) returns (status: nat)
    modifies st
    ensures Response(status, st.Snapshot()) == DestroyEffect(old(st.Snapshot()), actor, spaceId, channelId, memberId, now)
  {
    status := DestroyGate(st.Snapshot(), actor, spaceId, channelId, memberId);
    if status != 200 {
      return;
    }
    var member := st.channelMembers[memberId - 1];
    st.channelMembers := st.channelMembers[memberId - 1 := member.(meta := Trashed(member.meta, now, actor))];
    status := 204;
  }
}
