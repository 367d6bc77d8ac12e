/**
 * What the ChannelMemberController actions guarantee: a user joins a channel
 * at most once and never as its owner; nobody grants a role above their own
 * channel role; the channel owner is neither demoted, replaced nor removed
 * by these actions; the invariants of the tables survive every action.
 */
module ChannelMemberControllerProperties {
  import opened Wrappers
  import opened Roles
  import opened Schema
  import opened Database
  import opened Invariants
  import ModelMetaData
  import ChannelMemberPolicy
  import ChannelController
  import opened ChannelMemberController

  /** The auto-increment keys of spaces and channels match their positions. */
  predicate Keyed(db: Db)
  {
    SpacesKeyed(db.spaces) && ChannelsKeyed(db.channels)
  }

  /** The route's channel and space are bound and the channel belongs to the space. */
  predicate ChannelRoute(db: Db, actor: UserId, spaceId: nat, channelId: nat)
  {
    SpaceAt(db, spaceId).Some? && ChannelController.ChannelAt(db, actor, channelId).Some?
    && db.channels[channelId - 1].spaceId == spaceId
  }

  // ---- store ----

  /**
   * `store` answers 404 for an unbound space or channel and for a channel of
   * another space, the policy's 403 next, then 422 when the user already
   * has a live membership of the channel; only then does it add one. A
   * refused request changes nothing.
   */
  lemma StoreFollowsPolicy(db: Db, actor: UserId, spaceId: nat, channelId: nat, userId: UserId, role: Role)
    requires Keyed(db)
    ensures var r := StoreEffect(db, actor, spaceId, channelId, userId, role);
      && (r.status == 404 <==> !ChannelRoute(db, actor, spaceId, channelId))
      && (r.status == 422 <==>
            ChannelRoute(db, actor, spaceId, channelId)
            && ChannelMemberPolicy.Create(db, actor, db.spaces[spaceId - 1], db.channels[channelId - 1], userId, role) == Allow
            && ChannelMemberOf(db, channelId, userId).Some?)
      && (r.status == 200 <==>
            ChannelRoute(db, actor, spaceId, channelId)
            && ChannelMemberPolicy.Create(db, actor, db.spaces[spaceId - 1], db.channels[channelId - 1], userId, role) == Allow
            && ChannelMemberOf(db, channelId, userId).None?)
      && (r.status == 200 || r.status == 403 || r.status == 404 || r.status == 422)
      && (r.status != 200 ==> r.db == db)
  {
    if SpaceAt(db, spaceId).Some? && ChannelController.ChannelAt(db, actor, channelId).Some? {
      assert db.spaces[spaceId - 1].id == spaceId && db.channels[channelId - 1].id == channelId;
    }
  }

  /**
   * Nobody is added above the one who adds them: an added membership is
   * never the owner, its user is a member of the space, and either the
   * actor joined a public channel themself as a plain member, or the actor
   * is a channel member above `member` whose role ranks at least as high as
   * the granted one.
   */
  lemma StoreNeverOutranksActor(db: Db, actor: UserId, spaceId: nat, channelId: nat, userId: UserId, role: Role)
    requires Keyed(db)
    requires StoreEffect(db, actor, spaceId, channelId, userId, role).status == 200
    ensures role != Owner && IsSpaceMember(db, spaceId, userId)
    ensures var auth := ChannelMemberOf(db, channelId, actor);
      if auth.None? then actor == userId && role == Member && db.channels[channelId - 1].privacy == Public
      else auth.value.role != Member && RanksAtLeast(auth.value.role, role)
  {
    StoreFollowsPolicy(db, actor, spaceId, channelId, userId, role);
    assert db.channels[channelId - 1].id == channelId;
  }

  /**
   * An added membership is the user's only live one in the channel, has the
   * requested role, and the channel's other memberships are untouched; the
   * invariants hold throughout.
   */
  lemma StoreAddsOneMembership(db: Db, actor: UserId, spaceId: nat, channelId: nat, userId: UserId, role: Role)
    requires Consistent(db)
    ensures var r := StoreEffect(db, actor, spaceId, channelId, userId, role);
      && Consistent(r.db)
      && r.db.spaces == db.spaces && r.db.channels == db.channels && r.db.roles == db.roles
      && (r.status == 200 ==>
            && |r.db.channelMembers| == |db.channelMembers| + 1
            && r.db.channelMembers[..|db.channelMembers|] == db.channelMembers
            && var m := r.db.channelMembers[|db.channelMembers|];
               && m.channelId == channelId && m.userId == userId && m.role == role && Live(m.meta)
               && ChannelMemberOf(r.db, channelId, userId) == Some(m))
  {
    var r := StoreEffect(db, actor, spaceId, channelId, userId, role);
    if StoreGate(db, actor, spaceId, channelId, userId, role) == 200 {
      var channel := db.channels[channelId - 1];
      assert channel.id == channelId;
      var m := NewChannelMember(db, actor, channel, userId, role);
      assert ChannelMemberRow(db, m);
      AddChannelMemberConsistent(db, m);
      assert r.db.channelMembers[..|db.channelMembers|] == db.channelMembers;
      assert forall i :: 0 <= i < |db.channelMembers| ==>
        r.db.channelMembers[i] == db.channelMembers[i] && !IsChannelMemberRow(db.channelMembers[i], channelId, userId);
      assert IsChannelMemberRow(r.db.channelMembers[|db.channelMembers|], channelId, userId);
      var found := ChannelMemberOf(r.db, channelId, userId).value;
      var i :| 0 <= i < |r.db.channelMembers| && r.db.channelMembers[i] == found;
      assert i == |db.channelMembers|;
    }
  }

  /** A user already in the channel is never added again, whoever asks. */
  lemma StoreNeverDuplicates(db: Db, actor: UserId, spaceId: nat, channelId: nat, userId: UserId, role: Role)
    requires Keyed(db) && ChannelMemberOf(db, channelId, userId).Some?
    ensures StoreEffect(db, actor, spaceId, channelId, userId, role).status != 200
    ensures StoreEffect(db, actor, spaceId, channelId, userId, role).db == db
  {
    StoreFollowsPolicy(db, actor, spaceId, channelId, userId, role);
  }

  // ---- update ----

  /**
   * An edit goes ahead exactly when the route matches and the policy's rank
   * rules hold: the actor is in the channel and ranks at least as high as
   * both the new role and the member's current one; an owner may not step
   * down; and a change to someone else needs an owner or admin and never
   * makes an owner. A refused edit changes nothing.
   */
  lemma UpdateFollowsPolicy(db: Db, actor: UserId, spaceId: nat, channelId: nat, memberId: nat, role: Role)
    requires Keyed(db)
    ensures var r := UpdateEffect(db, actor, spaceId, channelId, memberId, role);
      && (r.status == 200 <==>
            && ChannelRoute(db, actor, spaceId, channelId) && ChannelMemberAt(db, memberId).Some?
            && db.channelMembers[memberId - 1].channelId == channelId
            && var member, auth := db.channelMembers[memberId - 1], ChannelMemberOf(db, channelId, actor);
               && auth.Some?
               && RanksAtLeast(auth.value.role, role) && RanksAtLeast(auth.value.role, member.role)
               && if actor == member.userId then !(auth.value.role == Owner && role != Owner)
                  else role != Owner && IsManager(auth.value.role))
      && (r.status == 200 || r.status == 403 || r.status == 404)
      && (r.status != 200 ==> r.db == db)
  {
    if SpaceAt(db, spaceId).Some? && ChannelController.ChannelAt(db, actor, channelId).Some? {
      assert db.spaces[spaceId - 1].id == spaceId && db.channels[channelId - 1].id == channelId;
    }
  }

  /**
   * The rank rules of an edit, for the membership at `k` edited by the
   * actor whose membership of the same channel is at `p`, keep owner-ness:
   * for oneself by the step-down rule, and for anyone else because only an
   * owner ranks as high as an owner and the channel has one.
   */
  lemma RankRulesKeepOwner(cms: seq<ChannelMember>, channel: Channel, k: nat, p: nat, actor: UserId, role: Role)
    requires UniqueChannelMembers(cms) && SoleChannelOwner(cms, channel)
    requires k < |cms| && Live(cms[k].meta) && cms[k].channelId == channel.id
    requires p < |cms| && IsChannelMemberRow(cms[p], channel.id, actor)
    requires RanksAtLeast(cms[p].role, role) && RanksAtLeast(cms[p].role, cms[k].role)
    requires if actor == cms[k].userId then !(cms[p].role == Owner && role != Owner) else role != Owner
    ensures role == Owner <==> cms[k].role == Owner
  {
    var target, auth := cms[k], cms[p];
    if actor == target.userId {
      assert IsChannelMemberRow(auth, target.channelId, target.userId);
    } else {
      assert !(IsOwnerMember(target, channel.id) && IsOwnerMember(auth, channel.id));
    }
  }

  /** A permitted edit neither makes nor unmakes an owner. */
  lemma UpdateKeepsOwnership(db: Db, actor: UserId, spaceId: nat, channelId: nat, memberId: nat, role: Role)
    requires ChannelTables(|db.spaces|, db.channels, db.channelMembers)
    requires UpdateGate(db, actor, spaceId, channelId, memberId, role) == 200
    ensures role == Owner <==> db.channelMembers[memberId - 1].role == Owner
  {
    var cms := db.channelMembers;
    var q, k := channelId - 1, memberId - 1;
    var channel := db.channels[q];
    var auth := ChannelMemberOf(db, channel.id, actor).value;
    var p :| 0 <= p < |cms| && cms[p] == auth;
    assert SoleChannelOwner(cms, channel);
    RankRulesKeepOwner(cms, channel, k, p, actor, role);
  }

  /**
   * An edit changes only the role (and `updated_by`) of the route's
   * membership; the channel's owner stays its owner, and the invariants
   * hold.
   */
  lemma UpdateChangesOnlyRole(db: Db, actor: UserId, spaceId: nat, channelId: nat, memberId: nat, role: Role)
    requires Consistent(db)
    ensures var r := UpdateEffect(db, actor, spaceId, channelId, memberId, role);
      && Consistent(r.db)
      && r.db.spaces == db.spaces && r.db.channels == db.channels && r.db.roles == db.roles
      && |r.db.channelMembers| == |db.channelMembers|
      && (forall q :: 0 <= q < |db.channelMembers| && q != memberId - 1 ==> r.db.channelMembers[q] == db.channelMembers[q])
      && (r.status == 200 ==>
            var before, after := db.channelMembers[memberId - 1], r.db.channelMembers[memberId - 1];
            && after == before.(role := role, meta := after.meta)
            && Live(after.meta) && after.meta.createdBy == before.meta.createdBy
            && (after.role == Owner <==> before.role == Owner))
  {
    if UpdateGate(db, actor, spaceId, channelId, memberId, role) == 200 {
      UpdateKeepsOwnership(db, actor, spaceId, channelId, memberId, role);
      var k := memberId - 1;
      var member := db.channelMembers[k];
      if role != member.role {
        SetChannelMemberConsistent(db, k, member.(role := role, meta := ModelMetaData.StampUpdated(member.meta, Some(actor))));
      }
    }
  }

  // ---- destroy ----

  /**
   * A removal goes ahead exactly when the route matches, the member is not
   * the owner, and the actor is in the channel and either is that member
   * or holds a non-member role ranking at least as high. A refused removal
   * changes nothing.
   */
  lemma DestroyFollowsPolicy(db: Db, actor: UserId, spaceId: nat, channelId: nat, memberId: nat, now: Time)
    requires Keyed(db)
    ensures var r := DestroyEffect(db, actor, spaceId, channelId, memberId, now);
      && (r.status == 204 <==>
            && ChannelRoute(db, actor, spaceId, channelId) && ChannelMemberAt(db, memberId).Some?
            && db.channelMembers[memberId - 1].channelId == channelId
            && var member, auth := db.channelMembers[memberId - 1], ChannelMemberOf(db, channelId, actor);
               && member.role != Owner && auth.Some?
               && (actor == member.userId || (auth.value.role != Member && RanksAtLeast(auth.value.role, member.role))))
      && (r.status == 204 || r.status == 403 || r.status == 404)
      && (r.status != 204 ==> r.db == db)
  {
    if SpaceAt(db, spaceId).Some? && ChannelController.ChannelAt(db, actor, channelId).Some? {
      assert db.spaces[spaceId - 1].id == spaceId && db.channels[channelId - 1].id == channelId;
    }
  }

  /**
   * A removal soft-deletes that membership alone, stamping the actor as
   * deleter; afterwards the user is no longer in the channel, and the
   * invariants hold.
   */
  lemma DestroyRemovesMembership(db: Db, actor: UserId, spaceId: nat, channelId: nat, memberId: nat, now: Time)
    requires Consistent(db)
    ensures var r := DestroyEffect(db, actor, spaceId, channelId, memberId, now);
      && Consistent(r.db)
      && r.db.spaces == db.spaces && r.db.channels == db.channels && r.db.roles == db.roles
      && |r.db.channelMembers| == |db.channelMembers|
      && (forall q :: 0 <= q < |db.channelMembers| && q != memberId - 1 ==> r.db.channelMembers[q] == db.channelMembers[q])
      && (r.status == 204 ==>
            var before := db.channelMembers[memberId - 1];
            && r.db.channelMembers[memberId - 1].meta.deletedBy == Some(actor)
            && ChannelMemberOf(r.db, before.channelId, before.userId).None?)
  {
    if DestroyGate(db, actor, spaceId, channelId, memberId) == 200 {
      var k := memberId - 1;
      var member := db.channelMembers[k];
      SetChannelMemberConsistent(db, k, member.(meta := Trashed(member.meta, now, actor)));
      var r := DestroyEffect(db, actor, spaceId, channelId, memberId, now);
      forall i | 0 <= i < |r.db.channelMembers|
        ensures !IsChannelMemberRow(r.db.channelMembers[i], member.channelId, member.userId)
      {
        if i != k {
          assert r.db.channelMembers[i] == db.channelMembers[i];
        }
      }
    }
  }
}
