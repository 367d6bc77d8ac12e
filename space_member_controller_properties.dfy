/**
 * What the SpaceMemberController actions guarantee: a user is added at most
 * once per space and always with a `member` role row, an edit touches only
 * the member's own profile columns, and a removal deletes the role row
 * before the membership; the invariants of the tables survive every action.
 */
module SpaceMemberControllerProperties {
  import opened Wrappers
  import opened Roles
  import opened Schema
  import opened Database
  import opened Invariants
  import ModelMetaData
  import SpaceMemberPolicy
  import opened SpaceMemberController

  // ---- store ----

  /**
   * The new membership is the only live one of its user in the space, and
   * its role reads `member` through the role relation.
   */
  lemma NewMemberReadsAsMember(db: Db, m: SpaceMember, r: SpaceMemberRole)
    requires RolesAttached(db.members, db.roles) && MemberRows(db, m, r) && Live(m.meta) && Live(r.meta)
    requires r.role == Member
    ensures ActorRole(AddMember(db, m, r), m.spaceId, m.userId) == Some(Member)
  {
    var d := AddMember(db, m, r);
    assert forall i :: 0 <= i < |db.members| ==> d.members[i] == db.members[i];
    assert IsMemberRow(d.members[|db.members|], m.spaceId, m.userId);
    var found := SpaceMemberOf(d, m.spaceId, m.userId).value;
    var i :| 0 <= i < |d.members| && d.members[i] == found;
    assert i == |db.members|;
    assert forall j :: 0 <= j < |db.roles| ==>
      d.roles[j] == db.roles[j] && RoleAttached(db.members, db.roles[j]) && !IsRoleRow(db.roles[j], m.id);
    assert IsRoleRow(d.roles[|db.roles|], m.id);
    var row := RoleRowOf(d, m.id).value;
    var j :| 0 <= j < |d.roles| && d.roles[j] == row;
    assert j == |db.roles|;
  }

  /**
   * `store` answers 404 for an unbound space, the policy's 403 next, then
   * 422 when the requested user already has a live membership there; a
   * refused request changes nothing. Otherwise exactly one membership and
   * one role row are appended: the membership is for the request's user
   * (not the actor) in the route space, the role row says `member` and
   * repeats the membership's space and user, and the user's role in the
   * space now reads `member`. The invariants hold throughout.
   */
  lemma StoreAddsMemberWithDefaultRole(db: Db, actor: UserId, spaceId: nat, userId: UserId,
                                       input: map<string, string>)
    requires Consistent(db)
    ensures var r := StoreEffect(db, actor, spaceId, userId, input);
      && Consistent(r.db)
      && (r.status == 404 <==> SpaceAt(db, spaceId).None?)
      && (r.status == 422 <==>
            SpaceAt(db, spaceId).Some?
            && SpaceMemberPolicy.Create(db, actor, db.spaces[spaceId - 1], userId) == Allow
            && IsSpaceMember(db, spaceId, userId))
      && (r.status == 200 <==>
            SpaceAt(db, spaceId).Some?
            && SpaceMemberPolicy.Create(db, actor, db.spaces[spaceId - 1], userId) == Allow
            && !IsSpaceMember(db, spaceId, userId))
      && (r.status != 200 ==> r.db == db)
      && (r.status == 200 ==>
            && r.db.spaces == db.spaces && r.db.channels == db.channels
            && r.db.channelMembers == db.channelMembers
            && |r.db.members| == |db.members| + 1 && r.db.members[..|db.members|] == db.members
            && |r.db.roles| == |db.roles| + 1 && r.db.roles[..|db.roles|] == db.roles
            && var m, role := r.db.members[|db.members|], r.db.roles[|db.roles|];
               && m.spaceId == spaceId && m.userId == userId && Live(m.meta)
               && m.attrs == Fill(map[], input, Fillable)
               && role.memberId == m.id && role.spaceId == spaceId && role.userId == userId
               && role.role == Member && Live(role.meta)
               && ActorRole(r.db, spaceId, userId) == Some(Member))
  {
    var r := StoreEffect(db, actor, spaceId, userId, input);
    if SpaceAt(db, spaceId).Some? {
      assert db.spaces[spaceId - 1].id == spaceId;
    }
    if StoreGate(db, actor, spaceId, userId) == 200 {
      var m, role := NewMember(db, actor, spaceId, userId, input), DefaultRoleRow(db, actor, spaceId, userId);
      assert MemberRows(db, m, role);
      AddMemberConsistent(db, m, role);
      NewMemberReadsAsMember(db, m, role);
      assert r.db.members[..|db.members|] == db.members;
      assert r.db.roles[..|db.roles|] == db.roles;
    }
  }

  /** A user already in the space is never added a second time, whoever asks. */
  lemma StoreNeverDuplicates(db: Db, actor: UserId, spaceId: nat, userId: UserId, input: map<string, string>)
    requires Consistent(db) && IsSpaceMember(db, spaceId, userId)
    ensures StoreEffect(db, actor, spaceId, userId, input).status != 200
    ensures StoreEffect(db, actor, spaceId, userId, input).db == db
  {
    if SpaceAt(db, spaceId).Some? {
      assert db.spaces[spaceId - 1].id == spaceId;
    }
  }

  // ---- update ----

  /**
   * An edit goes ahead exactly when the bound member belongs to the bound
   * space and is the actor; a member of another space answers 404. A
   * refused edit changes nothing.
   */
  lemma UpdateOnlyBySelf(db: Db, actor: UserId, spaceId: nat, memberId: nat, input: map<string, string>)
    requires SpacesKeyed(db.spaces)
    ensures var r := UpdateEffect(db, actor, spaceId, memberId, input);
      && (r.status == 404 <==>
            SpaceAt(db, spaceId).None? || MemberAt(db, memberId).None?
            || db.members[memberId - 1].spaceId != spaceId)
      && (r.status == 200 <==>
            SpaceAt(db, spaceId).Some? && MemberAt(db, memberId).Some?
            && db.members[memberId - 1].spaceId == spaceId && db.members[memberId - 1].userId == actor)
      && (r.status == 200 || r.status == 403 || r.status == 404)
      && (r.status != 200 ==> r.db == db)
  {
    if SpaceAt(db, spaceId).Some? {
      assert db.spaces[spaceId - 1].id == spaceId;
    }
  }

  /**
   * An edit changes at most the bound member's row, and there only the
   * fillable columns (title, phone number, visibility) and the `updated_by`
   * stamp; the invariants hold afterwards.
   */
  lemma UpdateTouchesOnlyTheProfile(db: Db, actor: UserId, spaceId: nat, memberId: nat, input: map<string, string>)
    requires Consistent(db)
    ensures var r := UpdateEffect(db, actor, spaceId, memberId, input);
      && Consistent(r.db)
      && r.db.spaces == db.spaces && r.db.roles == db.roles && r.db.channels == db.channels
      && |r.db.members| == |db.members|
      && (forall q :: 0 <= q < |db.members| && q != memberId - 1 ==> r.db.members[q] == db.members[q])
      && (r.status == 200 ==>
            var before, after := db.members[memberId - 1], r.db.members[memberId - 1];
            && after.id == before.id && after.spaceId == before.spaceId && after.userId == before.userId
            && Live(after.meta) && after.meta.createdBy == before.meta.createdBy
            && after.attrs == Fill(before.attrs, input, Fillable))
  {
    if UpdateGate(db, actor, spaceId, memberId) == 200 {
      var k := memberId - 1;
      var member := db.members[k];
      var attrs := Fill(member.attrs, input, Fillable);
      if attrs != member.attrs {
        SetMemberConsistent(db, k, member.(attrs := attrs, meta := ModelMetaData.StampUpdated(member.meta, Some(actor))));
      }
    }
  }

  // ---- destroy ----

  /** Under unique role rows, a member's first live role row is its only one. */
  lemma OnlyRoleRow(db: Db, member: SpaceMember, i: nat)
    requires UniqueRoles(db.roles) && i < |db.roles| && IsRoleRow(db.roles[i], member.id)
    ensures RoleOf(db, member).role == db.roles[i].role
  {
    var row := RoleRowOf(db, member.id).value;
    var j :| 0 <= j < |db.roles| && db.roles[j] == row;
    assert i == j;
  }

  /** A removal goes ahead exactly for a bound space and member the policy lets the actor remove. */
  lemma DestroyFollowsPolicy(db: Db, actor: UserId, spaceId: nat, memberId: nat, now: Time)
    ensures var r := DestroyEffect(db, actor, spaceId, memberId, now);
      && (r.status == 404 <==> SpaceAt(db, spaceId).None? || MemberAt(db, memberId).None?)
      && (r.status == 204 <==>
            SpaceAt(db, spaceId).Some? && MemberAt(db, memberId).Some?
            && SpaceMemberPolicy.Delete(db, actor, db.members[memberId - 1]) == Allow)
      && (r.status == 204 || r.status == 403 || r.status == 404)
      && (r.status != 204 ==> r.db == db)
  {
  }

  /**
   * The policy never lets the owner be removed, so a removal keeps the
   * invariants, one owner per space included.
   */
  lemma DestroyKeepsConsistent(db: Db, actor: UserId, spaceId: nat, memberId: nat, now: Time)
    requires Consistent(db)
    ensures Consistent(DestroyEffect(db, actor, spaceId, memberId, now).db)
  {
    if DestroyGate(db, actor, spaceId, memberId) == 200 {
      var k := memberId - 1;
      var member := db.members[k];
      assert RoleOf(db, member).role != Owner;
      forall i | 0 <= i < |db.roles| && IsRoleRow(db.roles[i], member.id)
        ensures db.roles[i].role != Owner
      {
        OnlyRoleRow(db, member, i);
      }
      RemoveMemberConsistent(db, actor, k, now);
    }
  }

  /** Deleting a membership whose role rows are not owners, role rows first, keeps the invariants. */
  lemma RemoveMemberConsistent(db: Db, actor: UserId, k: nat, now: Time)
    requires Consistent(db) && k < |db.members|
    requires forall i :: 0 <= i < |db.roles| && IsRoleRow(db.roles[i], db.members[k].id) ==> db.roles[i].role != Owner
    ensures Consistent(RemoveMember(db, actor, k, now))
  {
    var member := db.members[k];
    TrashRolesOfConsistent(db, member.id, now, actor);
    var d := TrashRolesOf(db, member.id, now, actor);
    SetMemberConsistent(d, k, member.(meta := Trashed(member.meta, now, actor)));
  }

  /**
   * A removal soft-deletes every live role row of the member and then the
   * membership, stamping the actor as deleter; afterwards the user is no
   * longer a member of the space, and no other row changed.
   */
  lemma DestroyRemovesRoleThenMember(db: Db, actor: UserId, spaceId: nat, memberId: nat, now: Time)
    requires MembersKeyed(db.members) && UniqueMembers(db.members)
    ensures var r := DestroyEffect(db, actor, spaceId, memberId, now);
      && r.db.spaces == db.spaces && r.db.channels == db.channels
      && |r.db.members| == |db.members| && |r.db.roles| == |db.roles|
      && (forall q :: 0 <= q < |db.members| && q != memberId - 1 ==> r.db.members[q] == db.members[q])
      && (r.status == 204 ==>
            var before := db.members[memberId - 1];
            && r.db.members[memberId - 1].meta.deletedBy == Some(actor)
            && MemberAt(r.db, memberId).None?
            && !IsSpaceMember(r.db, before.spaceId, before.userId)
            && (forall i :: 0 <= i < |db.roles| ==>
                  if IsRoleRow(db.roles[i], memberId) then !Live(r.db.roles[i].meta) && r.db.roles[i].meta.deletedBy == Some(actor)
                  else r.db.roles[i] == db.roles[i]))
  {
    if DestroyGate(db, actor, spaceId, memberId) == 200 {
      var k := memberId - 1;
      var member := db.members[k];
      assert member.id == memberId;
      var r := DestroyEffect(db, actor, spaceId, memberId, now);
      forall i | 0 <= i < |r.db.members|
        ensures !IsMemberRow(r.db.members[i], member.spaceId, member.userId)
      {
        if i != k {
          assert r.db.members[i] == db.members[i];
        }
      }
    }
  }
}
