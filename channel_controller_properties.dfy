/**
 * What the ChannelController actions guarantee: the invariants of the
 * tables survive every action, each action goes ahead exactly when its
 * policy allows it, and it changes only the rows it is meant to change.
 */
module ChannelControllerProperties {
  import opened Wrappers
  import opened Roles
  import opened Schema
  import opened Database
  import opened Invariants
  import ModelMetaData
  import ACL
  import ChannelScope
  import ChannelPolicy
  import opened ChannelController

  // ---- store ----

  /**
   * Any member of a live space may open a channel in it; nobody else
   * changes anything; and the invariants still hold afterwards.
   */
  lemma StoreRequiresMembership(db: Db, actor: UserId, spaceId: nat, privacy: Privacy, input: map<string, string>)
    requires Consistent(db)
    ensures var r := StoreEffect(db, actor, spaceId, privacy, input);
      && (r.status == 404 <==> SpaceAt(db, spaceId).None?)
      && (r.status == 200 <==> SpaceAt(db, spaceId).Some? && IsSpaceMember(db, spaceId, actor))
      && (r.status == 200 || r.status == 403 || r.status == 404)
      && (r.status != 200 ==> r.db == db)
      && Consistent(r.db)
  {
    if StoreGate(db, actor, spaceId) == 200 {
      AddOwnedChannelConsistent(db, NewChannel(db, actor, spaceId, privacy, input), NewOwner(db, actor));
    }
  }

  /**
   * A new channel belongs to the route space and is owned by its creator:
   * exactly one channel and one channel member are added, that member is
   * the channel's only member and an owner, and so the policies let the
   * creator edit and delete the channel.
   */
  lemma StoreMakesActorOwner(db: Db, actor: UserId, spaceId: nat, privacy: Privacy, input: map<string, string>)
    requires Consistent(db) && StoreGate(db, actor, spaceId) == 200
    ensures var r := StoreEffect(db, actor, spaceId, privacy, input);
      && |r.db.channels| == |db.channels| + 1 && r.db.channels[..|db.channels|] == db.channels
      && |r.db.channelMembers| == |db.channelMembers| + 1
      && r.db.channelMembers[..|db.channelMembers|] == db.channelMembers
      && r.db.spaces == db.spaces && r.db.members == db.members && r.db.roles == db.roles
      && var c, m := r.db.channels[|db.channels|], r.db.channelMembers[|db.channelMembers|];
         && c.id == |r.db.channels| && c.spaceId == spaceId && Live(c.meta)
         && c.privacy == privacy && c.attrs == Fill(map[], input, Fillable)
         && c.ownerId == Some(actor)
         && m.channelId == c.id && m.userId == actor && m.role == Owner && Live(m.meta)
         && (forall i :: 0 <= i < |r.db.channelMembers| && r.db.channelMembers[i].channelId == c.id ==>
               i == |db.channelMembers|)
         && ChannelMemberOf(r.db, c.id, actor) == Some(m)
         && ChannelPolicy.Update(r.db, actor, db.spaces[spaceId - 1], c) == Allow
         && ChannelPolicy.Delete(actor, c) == Allow
  {
    var r := StoreEffect(db, actor, spaceId, privacy, input);
    var c, m := NewChannel(db, actor, spaceId, privacy, input), NewOwner(db, actor);
    assert r.db == AddOwnedChannel(db, c, m);
    NewChannelOwnerFound(db, c, m);
    assert r.db.channels[..|db.channels|] == db.channels;
    assert r.db.channelMembers[..|db.channelMembers|] == db.channelMembers;
  }

  /** In the new channel, the owner membership is the only membership, so the lookup finds it. */
  lemma NewChannelOwnerFound(db: Db, c: Channel, m: ChannelMember)
    requires ChannelMembersInChannels(|db.channels|, db.channelMembers) && OwnedChannelRows(db, c, m)
    ensures var d := AddOwnedChannel(db, c, m);
      && (forall i :: 0 <= i < |d.channelMembers| && d.channelMembers[i].channelId == c.id ==> i == |db.channelMembers|)
      && ChannelMemberOf(d, c.id, m.userId) == Some(m)
  {
    var d := AddOwnedChannel(db, c, m);
    assert forall i :: 0 <= i < |db.channelMembers| ==>
      d.channelMembers[i] == db.channelMembers[i] && db.channelMembers[i].channelId != c.id;
    assert IsChannelMemberRow(d.channelMembers[|db.channelMembers|], c.id, m.userId);
    var found := ChannelMemberOf(d, c.id, m.userId).value;
    var i :| 0 <= i < |d.channelMembers| && d.channelMembers[i] == found;
    assert i == |db.channelMembers|;
  }

  // ---- update ----

  /**
   * Saving changes only row `k` of the channels, and that row only in its
   * fillable columns, its privacy and its `updated_by` stamp.
   */
  lemma SaveChannelEdits(db: Db, actor: UserId, k: nat, privacy: Option<Privacy>, input: map<string, string>)
    requires k < |db.channels|
    ensures var r := SaveChannel(db, actor, k, privacy, input);
      && r.spaces == db.spaces && r.members == db.members && r.roles == db.roles
      && r.channelMembers == db.channelMembers
      && |r.channels| == |db.channels|
      && (forall q :: 0 <= q < |db.channels| && q != k ==> r.channels[q] == db.channels[q])
      && var before, after := db.channels[k], r.channels[k];
         && after.id == before.id && after.spaceId == before.spaceId && after.ownerId == before.ownerId
         && after.meta.createdBy == before.meta.createdBy && Live(after.meta) == Live(before.meta)
         && after.attrs == Fill(before.attrs, input, Fillable)
         && after.privacy == privacy.GetOr(before.privacy)
  {
  }

  lemma SaveChannelConsistent(db: Db, actor: UserId, k: nat, privacy: Option<Privacy>, input: map<string, string>)
    requires Consistent(db) && k < |db.channels|
    ensures Consistent(SaveChannel(db, actor, k, privacy, input))
  {
    var channel := db.channels[k];
    SetChannelConsistent(db, k, channel.(privacy := privacy.GetOr(channel.privacy),
                                         attrs := Fill(channel.attrs, input, Fillable),
                                         meta := ModelMetaData.StampUpdated(channel.meta, Some(actor))));
  }

  /** An edit of a channel keeps the invariants. */
  lemma UpdateKeepsConsistent(db: Db, actor: UserId, spaceId: nat, channelId: nat, privacy: Option<Privacy>,
                              input: map<string, string>)
    requires Consistent(db)
    ensures Consistent(UpdateEffect(db, actor, spaceId, channelId, privacy, input).db)
  {
    if UpdateGate(db, actor, spaceId, channelId) == 200 {
      var k := channelId - 1;
      SaveChannelConsistent(db, actor, k, privacy, input);
    }
  }

  /**
   * An edit goes ahead exactly for a bound space and channel, the channel
   * in that space, and an owner or admin membership of the channel; a
   * channel of another space answers 404. A refused edit changes nothing.
   */
  lemma UpdateRequiresChannelManager(db: Db, actor: UserId, spaceId: nat, channelId: nat, privacy: Option<Privacy>,
                                     input: map<string, string>)
    requires SpacesKeyed(db.spaces) && ChannelsKeyed(db.channels)
    ensures var r := UpdateEffect(db, actor, spaceId, channelId, privacy, input);
      && (r.status == 404 <==>
            SpaceAt(db, spaceId).None? || ChannelAt(db, actor, channelId).None?
            || db.channels[channelId - 1].spaceId != spaceId)
      && (r.status == 200 <==>
            && SpaceAt(db, spaceId).Some? && ChannelAt(db, actor, channelId).Some?
            && db.channels[channelId - 1].spaceId == spaceId
            && var m := ChannelMemberOf(db, channelId, actor);
               m.Some? && IsManager(m.value.role))
      && (r.status == 200 || r.status == 403 || r.status == 404)
      && (r.status != 200 ==> r.db == db)
  {
    if SpaceAt(db, spaceId).Some? && ChannelAt(db, actor, channelId).Some? {
      assert db.spaces[spaceId - 1].id == spaceId;
      assert db.channels[channelId - 1].id == channelId;
    }
  }

  /**
   * An edit changes at most the bound channel's row, and never its id,
   * space, owner or deletion stamps; its fillable columns and privacy take
   * the request's values.
   */
  lemma UpdateTouchesOnlyTheChannel(db: Db, actor: UserId, spaceId: nat, channelId: nat, privacy: Option<Privacy>,
                                    input: map<string, string>)
    ensures var r := UpdateEffect(db, actor, spaceId, channelId, privacy, input);
      && r.db.spaces == db.spaces && r.db.channelMembers == db.channelMembers
      && |r.db.channels| == |db.channels|
      && (forall q :: 0 <= q < |db.channels| && q != channelId - 1 ==> r.db.channels[q] == db.channels[q])
      && (r.status == 200 ==>
            var before, after := db.channels[channelId - 1], r.db.channels[channelId - 1];
            && after.id == before.id && after.spaceId == before.spaceId && after.ownerId == before.ownerId
            && after.meta.createdBy == before.meta.createdBy && Live(after.meta)
            && after.attrs == Fill(before.attrs, input, Fillable)
            && after.privacy == privacy.GetOr(before.privacy))
  {
    if UpdateGate(db, actor, spaceId, channelId) == 200 {
      var k := channelId - 1;
      SaveChannelEdits(db, actor, k, privacy, input);
    }
  }

  // ---- destroy ----

  /**
   * Only the channel's owner (by `owner_id`) deletes it, whichever bound
   * space the route names. A refused delete changes nothing.
   */
  lemma DestroyRequiresOwner(db: Db, actor: UserId, spaceId: nat, channelId: nat, now: Time)
    ensures var r := DestroyEffect(db, actor, spaceId, channelId, now);
      && (r.status == 404 <==> SpaceAt(db, spaceId).None? || ChannelAt(db, actor, channelId).None?)
      && (r.status == 204 <==>
            SpaceAt(db, spaceId).Some? && ChannelAt(db, actor, channelId).Some?
            && LooseEq(actor, db.channels[channelId - 1].ownerId))
      && (r.status == 204 || r.status == 403 || r.status == 404)
      && (r.status != 204 ==> r.db == db)
  {
  }

  /**
   * After a delete the channel no longer binds and records who deleted it;
   * its memberships and every other row are untouched, and the invariants
   * hold.
   */
  lemma DestroyHidesTheChannel(db: Db, actor: UserId, spaceId: nat, channelId: nat, now: Time)
    requires Consistent(db)
    ensures var r := DestroyEffect(db, actor, spaceId, channelId, now);
      && Consistent(r.db)
      && (r.status == 204 ==>
            && ChannelAt(r.db, actor, channelId).None?
            && r.db.channels[channelId - 1].meta.deletedBy == Some(actor))
      && r.db.spaces == db.spaces && r.db.channelMembers == db.channelMembers
      && |r.db.channels| == |db.channels|
      && (forall q :: 0 <= q < |db.channels| && q != channelId - 1 ==> r.db.channels[q] == db.channels[q])
  {
    if DestroyGate(db, actor, spaceId, channelId) == 200 {
      var k := channelId - 1;
      SetChannelConsistent(db, k, db.channels[k].(meta := Trashed(db.channels[k].meta, now, actor)));
    }
  }
}
