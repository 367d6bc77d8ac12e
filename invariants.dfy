/**
 * The row-level writes the controllers are made of, and for each the
 * conditions under which it keeps Database.Consistent. Each write touches
 * one group of tables; the lemmas reason about that group only.
 */
module Invariants {
  import opened Wrappers
  import opened Roles
  import opened Schema
  import opened Database

  // ---- More spaces never break a foreign key into the spaces ----

  lemma ChannelTablesGrow(n: nat, m: nat, channels: seq<Channel>, cms: seq<ChannelMember>)
    requires ChannelTables(n, channels, cms) && n <= m
    ensures ChannelTables(m, channels, cms)
  {
  }

  lemma ImageTablesGrow(n: nat, m: nat, slots: seq<ImageSlot>, files: seq<FileRow>)
    requires ImageTables(n, slots, files) && n <= m
    ensures ImageTables(m, slots, files)
  {
  }

  // ---- A space with its owner membership ----

  function AddOwnedSpace(db: Db, s: Space, m: SpaceMember, r: SpaceMemberRole): (res: Db)
  {
    db.(spaces := db.spaces + [s], members := db.members + [m], roles := db.roles + [r])
  }

  /** The rows `SpaceController@store` inserts: a space, the creator's membership and its owner role. */
  predicate OwnedSpaceRows(db: Db, s: Space, m: SpaceMember, r: SpaceMemberRole)
  {
    && s.id == |db.spaces| + 1 && s.ownerId == Some(m.userId)
    && m.id == |db.members| + 1 && m.spaceId == s.id && Live(m.meta)
    && r.id == |db.roles| + 1 && r.memberId == m.id && r.spaceId == s.id && r.userId == m.userId
    && r.role == Owner && Live(r.meta)
  }

  lemma AddOwnedSpaceAttached(db: Db, s: Space, m: SpaceMember, r: SpaceMemberRole)
    requires RolesAttached(db.members, db.roles) && OwnedSpaceRows(db, s, m, r)
    ensures RolesAttached(db.members + [m], db.roles + [r])
  {
    var ms, rs := db.members + [m], db.roles + [r];
    forall i | 0 <= i < |rs|
      ensures RoleAttached(ms, rs[i])
    {
      if i < |db.roles| {
        assert RoleAttached(db.members, db.roles[i]);
      }
    }
  }

  lemma AddOwnedSpaceUniqueMembers(db: Db, s: Space, m: SpaceMember, r: SpaceMemberRole)
    requires MembersInSpaces(|db.spaces|, db.members) && UniqueMembers(db.members) && OwnedSpaceRows(db, s, m, r)
    ensures UniqueMembers(db.members + [m])
  {
    var ms := db.members + [m];
    assert forall i :: 0 <= i < |db.members| ==> ms[i] == db.members[i] && db.members[i].spaceId != m.spaceId;
  }

  lemma AddOwnedSpaceUniqueRoles(db: Db, s: Space, m: SpaceMember, r: SpaceMemberRole)
    requires RolesAttached(db.members, db.roles) && UniqueRoles(db.roles) && OwnedSpaceRows(db, s, m, r)
    ensures UniqueRoles(db.roles + [r])
  {
    var rs := db.roles + [r];
    assert forall i :: 0 <= i < |db.roles| ==> rs[i] == db.roles[i] && RoleAttached(db.members, db.roles[i]);
  }

  lemma AddOwnedSpaceOwned(db: Db, s: Space, m: SpaceMember, r: SpaceMemberRole)
    requires MembersInSpaces(|db.spaces|, db.members) && RolesAttached(db.members, db.roles)
    requires SpacesOwned(db.spaces, db.roles) && OwnedSpaceRows(db, s, m, r)
    ensures SpacesOwned(db.spaces + [s], db.roles + [r])
  {
    var ss, rs := db.spaces + [s], db.roles + [r];
    forall k | 0 <= k < |ss| && Live(ss[k].meta)
      ensures SoleOwner(rs, ss[k])
    {
      var sp := ss[k];
      if k < |db.spaces| {
        assert SoleOwner(db.roles, sp);
        var w :| 0 <= w < |db.roles| && IsOwnerRole(db.roles[w], sp.id) && sp.ownerId == Some(db.roles[w].userId);
        assert rs[w] == db.roles[w];
        forall i, j | 0 <= i < |rs| && 0 <= j < |rs| && IsOwnerRole(rs[i], sp.id) && IsOwnerRole(rs[j], sp.id)
          ensures i == j
        {
          assert i < |db.roles| && j < |db.roles|;
        }
      } else {
        assert IsOwnerRole(rs[|db.roles|], sp.id);
        forall i | 0 <= i < |db.roles|
          ensures !IsOwnerRole(rs[i], sp.id)
        {
          assert RoleAttached(db.members, db.roles[i]);
        }
      }
    }
  }

  lemma AddOwnedSpaceConsistent(db: Db, s: Space, m: SpaceMember, r: SpaceMemberRole)
    requires Consistent(db) && OwnedSpaceRows(db, s, m, r)
    ensures Consistent(AddOwnedSpace(db, s, m, r))
  {
    AddOwnedSpaceAttached(db, s, m, r);
    AddOwnedSpaceUniqueMembers(db, s, m, r);
    AddOwnedSpaceUniqueRoles(db, s, m, r);
    AddOwnedSpaceOwned(db, s, m, r);
    ChannelTablesGrow(|db.spaces|, |db.spaces| + 1, db.channels, db.channelMembers);
    ImageTablesGrow(|db.spaces|, |db.spaces| + 1, db.slots, db.files);
  }

  /** In the new space, the creator's membership is found and its role reads owner. */
  lemma NewSpaceOwnerRole(db: Db, s: Space, m: SpaceMember, r: SpaceMemberRole)
    requires MembersInSpaces(|db.spaces|, db.members) && RolesAttached(db.members, db.roles)
    requires OwnedSpaceRows(db, s, m, r)
    ensures ActorRole(AddOwnedSpace(db, s, m, r), s.id, m.userId) == Some(Owner)
  {
    var d := AddOwnedSpace(db, s, m, r);
    assert forall i :: 0 <= i < |db.members| ==> d.members[i] == db.members[i] && db.members[i].spaceId != s.id;
    assert IsMemberRow(d.members[|db.members|], s.id, m.userId);
    var found := SpaceMemberOf(d, s.id, m.userId).value;
    var i :| 0 <= i < |d.members| && d.members[i] == found;
    assert i == |db.members|;
    assert forall i :: 0 <= i < |db.roles| ==> d.roles[i] == db.roles[i] && RoleAttached(db.members, db.roles[i]);
    assert IsRoleRow(d.roles[|db.roles|], m.id);
    var row := RoleRowOf(d, m.id).value;
    var j :| 0 <= j < |d.roles| && d.roles[j] == row;
    assert j == |db.roles|;
  }

  // ---- Editing a space ----

  function SetSpace(db: Db, k: nat, s: Space): (r: Db)
    requires k < |db.spaces|
  {
    db.(spaces := db.spaces[k := s])
  }

  /** An edit that keeps the key and the owner and never revives a deleted row. */
  predicate SpaceEdit(db: Db, k: nat, s: Space)
  {
    k < |db.spaces| && s.id == db.spaces[k].id && s.ownerId == db.spaces[k].ownerId
    && (Live(s.meta) ==> Live(db.spaces[k].meta))
  }

  lemma SetSpaceOwned(db: Db, k: nat, s: Space)
    requires SpacesOwned(db.spaces, db.roles) && SpaceEdit(db, k, s)
    ensures SpacesOwned(db.spaces[k := s], db.roles)
  {
    var ss := db.spaces[k := s];
    forall q | 0 <= q < |ss| && Live(ss[q].meta)
      ensures SoleOwner(db.roles, ss[q])
    {
      assert SoleOwner(db.roles, db.spaces[q]);
    }
  }

  lemma SetSpaceConsistent(db: Db, k: nat, s: Space)
    requires Consistent(db) && SpaceEdit(db, k, s)
    ensures Consistent(SetSpace(db, k, s))
  {
    SetSpaceOwned(db, k, s);
  }

  // ---- A channel with its owner membership ----

  function AddOwnedChannel(db: Db, c: Channel, m: ChannelMember): (r: Db)
  {
    db.(channels := db.channels + [c], channelMembers := db.channelMembers + [m])
  }

  /** The rows `ChannelController@store` inserts: a channel and its owner membership. */
  predicate OwnedChannelRows(db: Db, c: Channel, m: ChannelMember)
  {
    && c.id == |db.channels| + 1 && 1 <= c.spaceId <= |db.spaces| && c.ownerId == Some(m.userId)
    && m.id == |db.channelMembers| + 1 && m.channelId == c.id && m.role == Owner && Live(m.meta)
  }

  lemma AddOwnedChannelUnique(db: Db, c: Channel, m: ChannelMember)
    requires ChannelMembersInChannels(|db.channels|, db.channelMembers)
    requires UniqueChannelMembers(db.channelMembers) && OwnedChannelRows(db, c, m)
    ensures UniqueChannelMembers(db.channelMembers + [m])
  {
    var cms := db.channelMembers + [m];
    assert forall i :: 0 <= i < |db.channelMembers| ==>
      cms[i] == db.channelMembers[i] && db.channelMembers[i].channelId != c.id;
  }

  lemma AddOwnedChannelOwned(db: Db, c: Channel, m: ChannelMember)
    requires ChannelMembersInChannels(|db.channels|, db.channelMembers)
    requires ChannelsOwned(db.channels, db.channelMembers) && OwnedChannelRows(db, c, m)
    ensures ChannelsOwned(db.channels + [c], db.channelMembers + [m])
  {
    var cs, cms := db.channels + [c], db.channelMembers + [m];
    forall k | 0 <= k < |cs| && Live(cs[k].meta)
      ensures SoleChannelOwner(cms, cs[k])
    {
      var ch := cs[k];
      if k < |db.channels| {
        assert SoleChannelOwner(db.channelMembers, ch);
        var w :| 0 <= w < |db.channelMembers| && IsOwnerMember(db.channelMembers[w], ch.id)
          && ch.ownerId == Some(db.channelMembers[w].userId);
        assert cms[w] == db.channelMembers[w];
        forall i, j | 0 <= i < |cms| && 0 <= j < |cms| && IsOwnerMember(cms[i], ch.id) && IsOwnerMember(cms[j], ch.id)
          ensures i == j
        {
          assert i < |db.channelMembers| && j < |db.channelMembers|;
        }
      } else {
        assert IsOwnerMember(cms[|db.channelMembers|], ch.id);
        forall i | 0 <= i < |db.channelMembers|
          ensures !IsOwnerMember(cms[i], ch.id)
        {
          assert db.channelMembers[i].channelId <= |db.channels|;
        }
      }
    }
  }

  lemma AddOwnedChannelConsistent(db: Db, c: Channel, m: ChannelMember)
    requires Consistent(db) && OwnedChannelRows(db, c, m)
    ensures Consistent(AddOwnedChannel(db, c, m))
  {
    AddOwnedChannelUnique(db, c, m);
    AddOwnedChannelOwned(db, c, m);
  }

  // ---- Editing a channel ----

  function SetChannel(db: Db, k: nat, c: Channel): (r: Db)
    requires k < |db.channels|
  {
    db.(channels := db.channels[k := c])
  }

  /** An edit that keeps the key, the space and the owner and never revives a deleted row. */
  predicate ChannelEdit(db: Db, k: nat, c: Channel)
  {
    k < |db.channels| && c.id == db.channels[k].id && c.spaceId == db.channels[k].spaceId
    && c.ownerId == db.channels[k].ownerId && (Live(c.meta) ==> Live(db.channels[k].meta))
  }

  lemma SetChannelOwned(db: Db, k: nat, c: Channel)
    requires ChannelsOwned(db.channels, db.channelMembers) && ChannelEdit(db, k, c)
    ensures ChannelsOwned(db.channels[k := c], db.channelMembers)
  {
    var cs := db.channels[k := c];
    forall q | 0 <= q < |cs| && Live(cs[q].meta)
      ensures SoleChannelOwner(db.channelMembers, cs[q])
    {
      assert SoleChannelOwner(db.channelMembers, db.channels[q]);
    }
  }

  lemma SetChannelConsistent(db: Db, k: nat, c: Channel)
    requires Consistent(db) && ChannelEdit(db, k, c)
    ensures Consistent(SetChannel(db, k, c))
  {
    SetChannelOwned(db, k, c);
  }

  // ---- A new member with its default role ----

  function AddMember(db: Db, m: SpaceMember, r: SpaceMemberRole): (res: Db)
  {
    db.(members := db.members + [m], roles := db.roles + [r])
  }

  /** The rows `SpaceMemberController@store` inserts, for a user not yet in the space. */
  predicate MemberRows(db: Db, m: SpaceMember, r: SpaceMemberRole)
  {
    && m.id == |db.members| + 1 && 1 <= m.spaceId <= |db.spaces|
    && (forall i :: 0 <= i < |db.members| ==> !IsMemberRow(db.members[i], m.spaceId, m.userId))
    && r.id == |db.roles| + 1 && r.memberId == m.id && r.spaceId == m.spaceId && r.userId == m.userId
    && r.role != Owner
  }

  lemma AddMemberAttached(db: Db, m: SpaceMember, r: SpaceMemberRole)
    requires RolesAttached(db.members, db.roles) && MemberRows(db, m, r)
    ensures RolesAttached(db.members + [m], db.roles + [r])
  {
    var ms, rs := db.members + [m], db.roles + [r];
    forall i | 0 <= i < |rs|
      ensures RoleAttached(ms, rs[i])
    {
      if i < |db.roles| {
        assert RoleAttached(db.members, db.roles[i]);
      }
    }
  }

  lemma AddMemberUniqueMembers(db: Db, m: SpaceMember, r: SpaceMemberRole)
    requires UniqueMembers(db.members) && MemberRows(db, m, r)
    ensures UniqueMembers(db.members + [m])
  {
    var ms := db.members + [m];
    assert forall i :: 0 <= i < |db.members| ==>
      ms[i] == db.members[i] && !IsMemberRow(db.members[i], m.spaceId, m.userId);
  }

  lemma AddMemberUniqueRoles(db: Db, m: SpaceMember, r: SpaceMemberRole)
    requires RolesAttached(db.members, db.roles) && UniqueRoles(db.roles) && MemberRows(db, m, r)
    ensures UniqueRoles(db.roles + [r])
  {
    var rs := db.roles + [r];
    assert forall i :: 0 <= i < |db.roles| ==> rs[i] == db.roles[i] && RoleAttached(db.members, db.roles[i]);
  }

  /** Appending a role row that is not an owner leaves every space's owner as it was. */
  lemma AppendRoleOwned(spaces: seq<Space>, roles: seq<SpaceMemberRole>, r: SpaceMemberRole)
    requires SpacesOwned(spaces, roles) && r.role != Owner
    ensures SpacesOwned(spaces, roles + [r])
  {
    var rs := roles + [r];
    forall k | 0 <= k < |spaces| && Live(spaces[k].meta)
      ensures SoleOwner(rs, spaces[k])
    {
      var sp := spaces[k];
      assert SoleOwner(roles, sp);
      var w :| 0 <= w < |roles| && IsOwnerRole(roles[w], sp.id) && sp.ownerId == Some(roles[w].userId);
      assert rs[w] == roles[w];
      forall i, j | 0 <= i < |rs| && 0 <= j < |rs| && IsOwnerRole(rs[i], sp.id) && IsOwnerRole(rs[j], sp.id)
        ensures i == j
      {
        assert i < |roles| && j < |roles|;
      }
    }
  }

  lemma AddMemberConsistent(db: Db, m: SpaceMember, r: SpaceMemberRole)
    requires Consistent(db) && MemberRows(db, m, r)
    ensures Consistent(AddMember(db, m, r))
  {
    AddMemberAttached(db, m, r);
    AddMemberUniqueMembers(db, m, r);
    AddMemberUniqueRoles(db, m, r);
    AppendRoleOwned(db.spaces, db.roles, r);
  }

  // ---- Editing a member ----

  function SetMember(db: Db, k: nat, m: SpaceMember): (r: Db)
    requires k < |db.members|
  {
    db.(members := db.members[k := m])
  }

  /** An edit that keeps the key, space and user and never revives a deleted row. */
  predicate MemberEdit(db: Db, k: nat, m: SpaceMember)
  {
    k < |db.members| && m.id == db.members[k].id && m.spaceId == db.members[k].spaceId
    && m.userId == db.members[k].userId && (Live(m.meta) ==> Live(db.members[k].meta))
  }

  lemma SetMemberAttached(db: Db, k: nat, m: SpaceMember)
    requires RolesAttached(db.members, db.roles) && MemberEdit(db, k, m)
    ensures RolesAttached(db.members[k := m], db.roles)
  {
    var ms := db.members[k := m];
    forall i | 0 <= i < |db.roles|
      ensures RoleAttached(ms, db.roles[i])
    {
      assert RoleAttached(db.members, db.roles[i]);
    }
  }

  lemma SetMemberConsistent(db: Db, k: nat, m: SpaceMember)
    requires Consistent(db) && MemberEdit(db, k, m)
    ensures Consistent(SetMember(db, k, m))
  {
    SetMemberAttached(db, k, m);
  }

  // ---- A role for a member that has none ----

  function AddRole(db: Db, r: SpaceMemberRole): (res: Db)
  {
    db.(roles := db.roles + [r])
  }

  /** The row `SpaceMemberRoleController@store` inserts once the policy allowed it. */
  predicate RoleRow(db: Db, r: SpaceMemberRole)
  {
    r.id == |db.roles| + 1 && RoleAttached(db.members, r) && r.role != Owner
    && forall i :: 0 <= i < |db.roles| ==> !IsRoleRow(db.roles[i], r.memberId)
  }

  lemma AddRoleUnique(db: Db, r: SpaceMemberRole)
    requires UniqueRoles(db.roles) && RoleRow(db, r)
    ensures UniqueRoles(db.roles + [r])
  {
    var rs := db.roles + [r];
    assert forall i :: 0 <= i < |db.roles| ==> rs[i] == db.roles[i] && !IsRoleRow(db.roles[i], r.memberId);
  }

  lemma AddRoleConsistent(db: Db, r: SpaceMemberRole)
    requires Consistent(db) && RoleRow(db, r)
    ensures Consistent(AddRole(db, r))
  {
    var rs := db.roles + [r];
    assert RolesAttached(db.members, rs) by {
      assert forall i :: 0 <= i < |db.roles| ==> rs[i] == db.roles[i] && RoleAttached(db.members, db.roles[i]);
    }
    AddRoleUnique(db, r);
    AppendRoleOwned(db.spaces, db.roles, r);
  }

  // ---- Editing a role without touching ownership ----

  function SetRole(db: Db, k: nat, r: SpaceMemberRole): (res: Db)
    requires k < |db.roles|
  {
    db.(roles := db.roles[k := r])
  }

  /** A role is an owner role exactly when it is live and says owner. */
  predicate Owning(r: SpaceMemberRole)
  {
    Live(r.meta) && r.role == Owner
  }

  /**
   * An edit that keeps the key and the member, never revives a deleted row,
   * and neither makes nor unmakes an owner.
   */
  predicate RoleEdit(db: Db, k: nat, r: SpaceMemberRole)
  {
    k < |db.roles| && r.id == db.roles[k].id && r.memberId == db.roles[k].memberId
    && r.spaceId == db.roles[k].spaceId && r.userId == db.roles[k].userId
    && (Live(r.meta) ==> Live(db.roles[k].meta)) && Owning(r) == Owning(db.roles[k])
  }

  lemma SetRoleUnique(db: Db, k: nat, r: SpaceMemberRole)
    requires UniqueRoles(db.roles) && RoleEdit(db, k, r)
    ensures UniqueRoles(db.roles[k := r])
  {
    var rs := db.roles[k := r];
    forall i, j | 0 <= i < |rs| && 0 <= j < |rs| && Live(rs[i].meta) && IsRoleRow(rs[j], rs[i].memberId)
      ensures i == j
    {
      assert Live(db.roles[i].meta) && IsRoleRow(db.roles[j], db.roles[i].memberId);
    }
  }

  lemma SetRoleOwned(db: Db, k: nat, r: SpaceMemberRole)
    requires SpacesOwned(db.spaces, db.roles) && RoleEdit(db, k, r)
    ensures SpacesOwned(db.spaces, db.roles[k := r])
  {
    var rs := db.roles[k := r];
    forall q | 0 <= q < |db.spaces| && Live(db.spaces[q].meta)
      ensures SoleOwner(rs, db.spaces[q])
    {
      var sp := db.spaces[q];
      assert SoleOwner(db.roles, sp);
      var w :| 0 <= w < |db.roles| && IsOwnerRole(db.roles[w], sp.id) && sp.ownerId == Some(db.roles[w].userId);
      assert IsOwnerRole(rs[w], sp.id);
      forall i, j | 0 <= i < |rs| && 0 <= j < |rs| && IsOwnerRole(rs[i], sp.id) && IsOwnerRole(rs[j], sp.id)
        ensures i == j
      {
        assert IsOwnerRole(db.roles[i], sp.id) && IsOwnerRole(db.roles[j], sp.id);
      }
    }
  }

  lemma SetRoleConsistent(db: Db, k: nat, r: SpaceMemberRole)
    requires Consistent(db) && RoleEdit(db, k, r)
    ensures Consistent(SetRole(db, k, r))
  {
    assert RolesAttached(db.members, db.roles[k := r]) by {
      assert forall i :: 0 <= i < |db.roles| ==> RoleAttached(db.members, db.roles[i]);
    }
    SetRoleUnique(db, k, r);
    SetRoleOwned(db, k, r);
  }

  // ---- Deleting every role row of a member ----

  /** The builder-level delete `$member->role()->delete()`: every live role row of the member. */
  function RolesTrashed(roles: seq<SpaceMemberRole>, memberId: nat, now: Time, actor: UserId): (r: seq<SpaceMemberRole>)
  {
    seq(|roles|, i requires 0 <= i < |roles| =>
          if IsRoleRow(roles[i], memberId) then roles[i].(meta := Trashed(roles[i].meta, now, actor)) else roles[i])
  }

  function TrashRolesOf(db: Db, memberId: nat, now: Time, actor: UserId): (r: Db)
  {
    db.(roles := RolesTrashed(db.roles, memberId, now, actor))
  }

  lemma RolesTrashedUnique(roles: seq<SpaceMemberRole>, memberId: nat, now: Time, actor: UserId)
    requires UniqueRoles(roles)
    ensures UniqueRoles(RolesTrashed(roles, memberId, now, actor))
  {
    var rs := RolesTrashed(roles, memberId, now, actor);
    forall i, j | 0 <= i < |rs| && 0 <= j < |rs| && Live(rs[i].meta) && IsRoleRow(rs[j], rs[i].memberId)
      ensures i == j
    {
      assert Live(roles[i].meta) && IsRoleRow(roles[j], roles[i].memberId);
    }
  }

  lemma RolesTrashedOwned(spaces: seq<Space>, roles: seq<SpaceMemberRole>, memberId: nat, now: Time, actor: UserId)
    requires SpacesOwned(spaces, roles)
    requires forall i :: 0 <= i < |roles| && IsRoleRow(roles[i], memberId) ==> roles[i].role != Owner
    ensures SpacesOwned(spaces, RolesTrashed(roles, memberId, now, actor))
  {
    var rs := RolesTrashed(roles, memberId, now, actor);
    forall q | 0 <= q < |spaces| && Live(spaces[q].meta)
      ensures SoleOwner(rs, spaces[q])
    {
      var sp := spaces[q];
      assert SoleOwner(roles, sp);
      var w :| 0 <= w < |roles| && IsOwnerRole(roles[w], sp.id) && sp.ownerId == Some(roles[w].userId);
      assert IsOwnerRole(rs[w], sp.id);
      forall i, j | 0 <= i < |rs| && 0 <= j < |rs| && IsOwnerRole(rs[i], sp.id) && IsOwnerRole(rs[j], sp.id)
        ensures i == j
      {
        assert IsOwnerRole(roles[i], sp.id) && IsOwnerRole(roles[j], sp.id);
      }
    }
  }

  lemma TrashRolesOfConsistent(db: Db, memberId: nat, now: Time, actor: UserId)
    requires Consistent(db)
    requires forall i :: 0 <= i < |db.roles| && IsRoleRow(db.roles[i], memberId) ==> db.roles[i].role != Owner
    ensures Consistent(TrashRolesOf(db, memberId, now, actor))
  {
    var rs := RolesTrashed(db.roles, memberId, now, actor);
    assert RolesAttached(db.members, rs) by {
      assert forall i :: 0 <= i < |db.roles| ==> RoleAttached(db.members, db.roles[i]);
    }
    RolesTrashedUnique(db.roles, memberId, now, actor);
    RolesTrashedOwned(db.spaces, db.roles, memberId, now, actor);
  }

  // ---- A channel member ----

  function AddChannelMember(db: Db, m: ChannelMember): (r: Db)
  {
    db.(channelMembers := db.channelMembers + [m])
  }

  /** The row `ChannelMemberController@store` inserts once it checked for duplicates. */
  predicate ChannelMemberRow(db: Db, m: ChannelMember)
  {
    m.id == |db.channelMembers| + 1 && 1 <= m.channelId <= |db.channels| && m.role != Owner
    && forall i :: 0 <= i < |db.channelMembers| ==> !IsChannelMemberRow(db.channelMembers[i], m.channelId, m.userId)
  }

  lemma AddChannelMemberUnique(db: Db, m: ChannelMember)
    requires UniqueChannelMembers(db.channelMembers) && ChannelMemberRow(db, m)
    ensures UniqueChannelMembers(db.channelMembers + [m])
  {
    var cms := db.channelMembers + [m];
    assert forall i :: 0 <= i < |db.channelMembers| ==>
      cms[i] == db.channelMembers[i] && !IsChannelMemberRow(db.channelMembers[i], m.channelId, m.userId);
  }

  lemma AddChannelMemberOwned(db: Db, m: ChannelMember)
    requires ChannelsOwned(db.channels, db.channelMembers) && m.role != Owner
    ensures ChannelsOwned(db.channels, db.channelMembers + [m])
  {
    var cms := db.channelMembers + [m];
    forall k | 0 <= k < |db.channels| && Live(db.channels[k].meta)
      ensures SoleChannelOwner(cms, db.channels[k])
    {
      var ch := db.channels[k];
      assert SoleChannelOwner(db.channelMembers, ch);
      var w :| 0 <= w < |db.channelMembers| && IsOwnerMember(db.channelMembers[w], ch.id)
        && ch.ownerId == Some(db.channelMembers[w].userId);
      assert cms[w] == db.channelMembers[w];
      forall i, j | 0 <= i < |cms| && 0 <= j < |cms| && IsOwnerMember(cms[i], ch.id) && IsOwnerMember(cms[j], ch.id)
        ensures i == j
      {
        assert i < |db.channelMembers| && j < |db.channelMembers|;
      }
    }
  }

  lemma AddChannelMemberConsistent(db: Db, m: ChannelMember)
    requires Consistent(db) && ChannelMemberRow(db, m)
    ensures Consistent(AddChannelMember(db, m))
  {
    AddChannelMemberUnique(db, m);
    AddChannelMemberOwned(db, m);
  }

  // ---- Editing a channel member without touching ownership ----

  function SetChannelMember(db: Db, k: nat, m: ChannelMember): (r: Db)
    requires k < |db.channelMembers|
  {
    db.(channelMembers := db.channelMembers[k := m])
  }

  predicate OwningMember(m: ChannelMember)
  {
    Live(m.meta) && m.role == Owner
  }

  /**
   * An edit that keeps the key, channel and user, never revives a deleted
   * row, and neither makes nor unmakes an owner.
   */
  predicate ChannelMemberEdit(db: Db, k: nat, m: ChannelMember)
  {
    k < |db.channelMembers| && m.id == db.channelMembers[k].id && m.channelId == db.channelMembers[k].channelId
    && m.userId == db.channelMembers[k].userId && (Live(m.meta) ==> Live(db.channelMembers[k].meta))
    && OwningMember(m) == OwningMember(db.channelMembers[k])
  }

  lemma SetChannelMemberOwned(db: Db, k: nat, m: ChannelMember)
    requires ChannelsOwned(db.channels, db.channelMembers) && ChannelMemberEdit(db, k, m)
    ensures ChannelsOwned(db.channels, db.channelMembers[k := m])
  {
    var cms := db.channelMembers[k := m];
    forall q | 0 <= q < |db.channels| && Live(db.channels[q].meta)
      ensures SoleChannelOwner(cms, db.channels[q])
    {
      var ch := db.channels[q];
      assert SoleChannelOwner(db.channelMembers, ch);
      var w :| 0 <= w < |db.channelMembers| && IsOwnerMember(db.channelMembers[w], ch.id)
        && ch.ownerId == Some(db.channelMembers[w].userId);
      assert IsOwnerMember(cms[w], ch.id);
    }
  }

  lemma SetChannelMemberConsistent(db: Db, k: nat, m: ChannelMember)
    requires Consistent(db) && ChannelMemberEdit(db, k, m)
    ensures Consistent(SetChannelMember(db, k, m))
  {
    SetChannelMemberOwned(db, k, m);
  }

  // ---- Image slots and files ----

  function AddSlot(db: Db, s: ImageSlot): (r: Db)
  {
    db.(slots := db.slots + [s])
  }

  lemma AddSlotConsistent(db: Db, s: ImageSlot)
    requires Consistent(db) && s.id == |db.slots| + 1 && 1 <= s.spaceId <= |db.spaces|
    ensures Consistent(AddSlot(db, s))
  {
  }

  function SetFile(db: Db, k: nat, f: FileRow): (r: Db)
    requires k < |db.files|
  {
    db.(files := db.files[k := f])
  }

  lemma SetFileConsistent(db: Db, k: nat, f: FileRow)
    requires Consistent(db) && k < |db.files| && f.id == db.files[k].id && f.slotId == db.files[k].slotId
    requires Live(f.meta) ==> Live(db.files[k].meta)
    ensures Consistent(SetFile(db, k, f))
  {
  }

  function AddFile(db: Db, f: FileRow): (r: Db)
  {
    db.(files := db.files + [f])
  }

  lemma AddFileConsistent(db: Db, f: FileRow)
    requires Consistent(db) && f.id == |db.files| + 1 && 1 <= f.slotId <= |db.slots|
    requires forall j :: 0 <= j < |db.files| ==> !(Live(db.files[j].meta) && db.files[j].slotId == f.slotId)
    ensures Consistent(AddFile(db, f))
  {
    var fs := db.files + [f];
    assert forall i :: 0 <= i < |db.files| ==> fs[i] == db.files[i];
  }
}
