/**
 * What the SpaceMemberRoleController actions guarantee: a role row is given
 * only to a member without one, never the owner role; an edit changes only
 * the role; a transfer leaves the target as the space's one owner, the
 * former owner as admin and `owner_id` repointed; a removal leaves the
 * member reading as a plain member. The invariants survive every action.
 * The transfer as written is shown to lose the owner when the route names
 * the owner's own role row.
 */
module SpaceMemberRoleControllerProperties {
  import opened Wrappers
  import opened Roles
  import opened Schema
  import opened Database
  import opened Invariants
  import ModelMetaData
  import SpaceMemberRolePolicy
  import opened SpaceMemberRoleController

  /** Every auto-increment key matches its position, in the three space tables. */
  predicate Keyed(db: Db)
  {
    SpacesKeyed(db.spaces) && MembersKeyed(db.members) && RolesKeyed(db.roles)
  }

  /** The route's member belongs to the route space, and the route's role row to that member. */
  predicate RouteMatches(db: Db, spaceId: nat, memberId: nat, roleId: nat)
  {
    1 <= memberId <= |db.members| && 1 <= roleId <= |db.roles|
    && db.members[memberId - 1].spaceId == spaceId && db.roles[roleId - 1].memberId == memberId
  }

  // ---- store ----

  /**
   * A role row is added exactly when the route binds, the member is in the
   * route space, the actor manages the space, the requested role is not
   * owner and the member has no live role row yet; a mismatched member
   * answers 404 and any other refusal 403, changing nothing.
   */
  lemma StoreFollowsPolicy(db: Db, actor: UserId, spaceId: nat, memberId: nat, role: Option<Role>)
    requires Keyed(db)
    ensures var r := StoreEffect(db, actor, spaceId, memberId, role);
      && (r.status == 200 <==>
            SpaceAt(db, spaceId).Some? && MemberAt(db, memberId).Some?
            && db.members[memberId - 1].spaceId == spaceId
            && IsSpaceManager(db, spaceId, actor)
            && role != Some(Owner)
            && RoleRowOf(db, memberId).None?)
      && (r.status == 404 <==>
            SpaceAt(db, spaceId).None? || MemberAt(db, memberId).None? || db.members[memberId - 1].spaceId != spaceId)
      && (r.status == 200 || r.status == 403 || r.status == 404)
      && (r.status != 200 ==> r.db == db)
  {
    if SpaceAt(db, spaceId).Some? && MemberAt(db, memberId).Some? {
      assert db.spaces[spaceId - 1].id == spaceId && db.members[memberId - 1].id == memberId;
      var member := db.members[memberId - 1];
      if RoleRowOf(db, memberId).Some? {
        var row := RoleRowOf(db, memberId).value;
        var i :| 0 <= i < |db.roles| && db.roles[i] == row;
        assert row.id == i + 1;
      }
    }
  }

  /**
   * An added role row is attached to the route member, repeats its space
   * and user, carries the requested role (`member` when none was given), and
   * from then on is what the member's role reads; the invariants hold.
   */
  lemma StoreAttachesRole(db: Db, actor: UserId, spaceId: nat, memberId: nat, role: Option<Role>)
    requires Consistent(db)
    ensures var r := StoreEffect(db, actor, spaceId, memberId, role);
      && Consistent(r.db)
      && r.db.spaces == db.spaces && r.db.members == db.members
      && (r.status == 200 ==>
            && |r.db.roles| == |db.roles| + 1 && r.db.roles[..|db.roles|] == db.roles
            && var row := r.db.roles[|db.roles|];
               && row.memberId == memberId && row.spaceId == spaceId
               && row.userId == db.members[memberId - 1].userId
               && row.role == role.GetOr(Member) && row.role != Owner && Live(row.meta)
               && RoleOf(r.db, db.members[memberId - 1]) == RoleView(Some(row.id), row.role))
  {
    StoreFollowsPolicy(db, actor, spaceId, memberId, role);
    var r := StoreEffect(db, actor, spaceId, memberId, role);
    if r.status == 200 {
      var member := db.members[memberId - 1];
      var row := NewRole(db, actor, db.spaces[spaceId - 1], member, role);
      assert RoleRow(db, row);
      AddRoleConsistent(db, row);
      assert r.db.roles[..|db.roles|] == db.roles;
      assert forall i :: 0 <= i < |db.roles| ==> r.db.roles[i] == db.roles[i] && !IsRoleRow(db.roles[i], memberId);
      assert IsRoleRow(r.db.roles[|db.roles|], memberId);
      var found := RoleRowOf(r.db, memberId).value;
      var i :| 0 <= i < |r.db.roles| && r.db.roles[i] == found;
      assert i == |db.roles|;
    }
  }

  // ---- update ----

  /**
   * An edit goes ahead exactly when the route matches, the actor manages
   * the space, and neither the current nor the new role is owner; there is
   * no comparison of ranks between the actor and the member. A refused
   * edit changes nothing.
   */
  lemma UpdateFollowsPolicy(db: Db, actor: UserId, spaceId: nat, memberId: nat, roleId: nat, newRole: Option<Role>)
    requires Keyed(db)
    ensures var r := UpdateEffect(db, actor, spaceId, memberId, roleId, newRole);
      && (r.status == 200 <==>
            SpaceAt(db, spaceId).Some? && MemberAt(db, memberId).Some? && RoleAt(db, roleId).Some?
            && RouteMatches(db, spaceId, memberId, roleId)
            && IsSpaceManager(db, spaceId, actor)
            && db.roles[roleId - 1].role != Owner && newRole != Some(Owner))
      && (r.status == 200 || r.status == 403 || r.status == 404)
      && (r.status != 200 ==> r.db == db)
  {
    if SpaceAt(db, spaceId).Some? && MemberAt(db, memberId).Some? && RoleAt(db, roleId).Some? {
      assert db.spaces[spaceId - 1].id == spaceId && db.members[memberId - 1].id == memberId;
    }
  }

  /**
   * An edit changes only the `role` column (and `updated_by`) of the
   * route's role row, and keeps the invariants.
   */
  lemma UpdateChangesOnlyRole(db: Db, actor: UserId, spaceId: nat, memberId: nat, roleId: nat, newRole: Option<Role>)
    requires Consistent(db)
    ensures var r := UpdateEffect(db, actor, spaceId, memberId, roleId, newRole);
      && Consistent(r.db)
      && r.db.spaces == db.spaces && r.db.members == db.members && |r.db.roles| == |db.roles|
      && (forall q :: 0 <= q < |db.roles| && q != roleId - 1 ==> r.db.roles[q] == db.roles[q])
      && (r.status == 200 ==>
            var before, after := db.roles[roleId - 1], r.db.roles[roleId - 1];
            && after == before.(role := newRole.GetOr(before.role), meta := after.meta)
            && after.meta.createdBy == before.meta.createdBy && Live(after.meta))
  {
    if UpdateGate(db, actor, spaceId, memberId, roleId, newRole) == 200 {
      var k := roleId - 1;
      var row := db.roles[k];
      var value := newRole.GetOr(row.role);
      assert row.role != Owner && value != Owner;
      if value != row.role {
        SetRoleConsistent(db, k, row.(role := value, meta := ModelMetaData.StampUpdated(row.meta, Some(actor))));
      }
    }
  }

  // ---- transferOwnership ----

  /**
   * A transfer goes ahead exactly when the route matches and the actor's
   * role in the space is owner: an admin is refused. A refused transfer
   * changes nothing.
   */
  lemma TransferOnlyByOwner(db: Db, actor: UserId, spaceId: nat, memberId: nat, roleId: nat)
    requires Keyed(db)
    ensures var r := TransferEffect(db, actor, spaceId, memberId, roleId);
      && (r.status == 200 <==>
            SpaceAt(db, spaceId).Some? && MemberAt(db, memberId).Some? && RoleAt(db, roleId).Some?
            && RouteMatches(db, spaceId, memberId, roleId)
            && ActorRole(db, spaceId, actor) == Some(Owner))
      && (r.status == 200 || r.status == 403 || r.status == 404)
      && (r.status != 200 ==> r.db == db)
  {
    if SpaceAt(db, spaceId).Some? && MemberAt(db, memberId).Some? && RoleAt(db, roleId).Some? {
      assert db.spaces[spaceId - 1].id == spaceId && db.members[memberId - 1].id == memberId;
    }
  }

  /**
   * The owner's own role row is the space's owner role, and `owner_id`
   * names the owner.
   */
  lemma OwnerRowOfOwner(db: Db, spaceId: nat, actor: UserId, a: nat)
    requires SpaceTables(db.spaces, db.members, db.roles)
    requires 1 <= spaceId <= |db.spaces| && Live(db.spaces[spaceId - 1].meta)
    requires ActorRole(db, spaceId, actor) == Some(Owner) && OwnRoleIndex(db, spaceId, actor) == Some(a)
    ensures IsOwnerRole(db.roles[a], spaceId) && db.roles[a].userId == actor
    ensures db.spaces[spaceId - 1].ownerId == Some(actor)
  {
    var space := db.spaces[spaceId - 1];
    assert space.id == spaceId;
    var auth := SpaceMemberOf(db, spaceId, actor).value;
    assert IsRoleRow(db.roles[a], auth.id);
    var p :| 0 <= p < |db.members| && db.members[p] == auth;
    assert RoleAttached(db.members, db.roles[a]);
    assert db.members[db.roles[a].memberId - 1] == auth;
    assert SoleOwner(db.roles, space);
    var w :| 0 <= w < |db.roles| && IsOwnerRole(db.roles[w], spaceId) && space.ownerId == Some(db.roles[w].userId);
    assert w == a;
  }

  /** What a permitted transfer starts from, for the route's role row `t` and the actor's `a`. */
  lemma TransferFacts(db: Db, actor: UserId, spaceId: nat, memberId: nat, roleId: nat)
    requires SpaceTables(db.spaces, db.members, db.roles) && TransferGate(db, actor, spaceId, memberId, roleId) == 200
    ensures var s, t, a := spaceId - 1, roleId - 1, OwnRoleIndex(db, spaceId, actor).value;
      && db.spaces[s].id == spaceId && Live(db.spaces[s].meta)
      && IsOwnerRole(db.roles[a], spaceId) && db.roles[a].userId == actor
      && db.spaces[s].ownerId == Some(actor)
      && Live(db.roles[t].meta) && db.roles[t].spaceId == spaceId
      && db.roles[t].userId == db.members[memberId - 1].userId
      && (t == a <==> db.members[memberId - 1].userId == actor)
      && (t != a ==> db.roles[t].role != Owner)
  {
    var t := roleId - 1;
    var member := db.members[memberId - 1];
    assert db.spaces[spaceId - 1].id == spaceId && member.id == memberId;
    var a := OwnRoleIndex(db, spaceId, actor).value;
    OwnerRowOfOwner(db, spaceId, actor, a);
    var auth := SpaceMemberOf(db, spaceId, actor).value;
    assert IsRoleRow(db.roles[a], auth.id);
    assert RoleAttached(db.members, db.roles[t]);
    if member.userId == actor {
      var p :| 0 <= p < |db.members| && db.members[p] == auth;
      assert p == memberId - 1;
      assert IsRoleRow(db.roles[t], auth.id);
    } else {
      assert db.roles[t].memberId != db.roles[a].memberId;
    }
  }

  /** Which part of the invariant a transfer touches: the space tables. */
  lemma TransferConsistentFromTables(db: Db, d: Db)
    requires Consistent(db) && SpaceTables(d.spaces, d.members, d.roles)
    requires |d.spaces| == |db.spaces| && d.channels == db.channels && d.channelMembers == db.channelMembers
    requires d.slots == db.slots && d.files == db.files
    ensures Consistent(d)
  {
  }

  /** Edits that keep every role row's member and never revive a row keep role rows unique. */
  lemma KeysKeptUnique(roles: seq<SpaceMemberRole>, rs: seq<SpaceMemberRole>)
    requires UniqueRoles(roles) && |rs| == |roles|
    requires forall i :: 0 <= i < |rs| ==> rs[i].memberId == roles[i].memberId && (Live(rs[i].meta) ==> Live(roles[i].meta))
    ensures UniqueRoles(rs)
  {
    forall i, j | 0 <= i < |rs| && 0 <= j < |rs| && Live(rs[i].meta) && IsRoleRow(rs[j], rs[i].memberId)
      ensures i == j
    {
      assert Live(roles[i].meta) && IsRoleRow(roles[j], roles[i].memberId);
    }
  }

  /** The rows a transfer to another member writes: the demoted and promoted roles and the repointed space. */
  predicate OwnerSwap(db: Db, s: nat, a: nat, t: nat, dem: SpaceMemberRole, pro: SpaceMemberRole, sp: Space)
  {
    && s < |db.spaces| && a < |db.roles| && t < |db.roles| && a != t
    && Live(db.spaces[s].meta) && IsOwnerRole(db.roles[a], db.spaces[s].id)
    && Live(db.roles[t].meta) && db.roles[t].spaceId == db.spaces[s].id
    && dem == db.roles[a].(role := dem.role, meta := dem.meta) && Live(dem.meta) && dem.role != Owner
    && pro == db.roles[t].(role := Owner, meta := pro.meta) && Live(pro.meta)
    && sp == db.spaces[s].(ownerId := Some(pro.userId), meta := sp.meta) && Live(sp.meta)
  }

  /** After the swap, the space's only owner role is the promoted one, and `owner_id` names its user. */
  lemma SwapOwnedSpace(db: Db, s: nat, a: nat, t: nat, dem: SpaceMemberRole, pro: SpaceMemberRole, sp: Space)
    requires SpacesOwned(db.spaces, db.roles) && OwnerSwap(db, s, a, t, dem, pro, sp)
    ensures SoleOwner(db.roles[a := dem][t := pro], sp)
  {
    var rs := db.roles[a := dem][t := pro];
    assert SoleOwner(db.roles, db.spaces[s]);
    assert IsOwnerRole(rs[t], sp.id);
    forall i | 0 <= i < |rs| && i != t
      ensures !IsOwnerRole(rs[i], sp.id)
    {
      if i != a {
        assert rs[i] == db.roles[i];
      }
    }
  }

  /** Spaces other than the transferred one keep their owner. */
  lemma SwapOwnedOthers(db: Db, s: nat, a: nat, t: nat, dem: SpaceMemberRole, pro: SpaceMemberRole, sp: Space, q: nat)
    requires SpacesKeyed(db.spaces) && SpacesOwned(db.spaces, db.roles) && OwnerSwap(db, s, a, t, dem, pro, sp)
    requires q < |db.spaces| && q != s && Live(db.spaces[q].meta)
    ensures SoleOwner(db.roles[a := dem][t := pro], db.spaces[q])
  {
    var rs := db.roles[a := dem][t := pro];
    var other := db.spaces[q];
    assert other.id != db.spaces[s].id;
    assert SoleOwner(db.roles, other);
    var w :| 0 <= w < |db.roles| && IsOwnerRole(db.roles[w], other.id) && other.ownerId == Some(db.roles[w].userId);
    assert rs[w] == db.roles[w];
    forall i, j | 0 <= i < |rs| && 0 <= j < |rs| && IsOwnerRole(rs[i], other.id) && IsOwnerRole(rs[j], other.id)
      ensures i == j
    {
      assert rs[i] == db.roles[i] && rs[j] == db.roles[j];
    }
  }

  /** Demoting the owner, promoting another member of the space and repointing `owner_id` keeps the invariants. */
  lemma SwapOwnerConsistent(db: Db, s: nat, a: nat, t: nat, dem: SpaceMemberRole, pro: SpaceMemberRole, sp: Space)
    requires Consistent(db) && OwnerSwap(db, s, a, t, dem, pro, sp)
    ensures Consistent(SetSpace(SetRole(SetRole(db, a, dem), t, pro), s, sp))
  {
    var rs := db.roles[a := dem][t := pro];
    var ss := db.spaces[s := sp];
    KeysKeptUnique(db.roles, rs);
    assert RolesAttached(db.members, rs) by {
      forall i | 0 <= i < |rs|
        ensures RoleAttached(db.members, rs[i])
      {
        assert RoleAttached(db.members, db.roles[i]);
      }
    }
    forall q | 0 <= q < |ss| && Live(ss[q].meta)
      ensures SoleOwner(rs, ss[q])
    {
      if q == s {
        SwapOwnedSpace(db, s, a, t, dem, pro, sp);
      } else {
        SwapOwnedOthers(db, s, a, t, dem, pro, sp, q);
      }
    }
    TransferConsistentFromTables(db, SetSpace(SetRole(SetRole(db, a, dem), t, pro), s, sp));
  }

  /**
   * A transfer to another member keeps exactly one owner: afterwards the
   * actor's role is admin, the target's role is owner, the space's
   * `owner_id` is the target's user, and the invariants, one owner per
   * space included, still hold.
   */
  lemma TransferToOtherKeepsOneOwner(db: Db, actor: UserId, spaceId: nat, memberId: nat, roleId: nat, a: nat)
    requires Consistent(db) && TransferGate(db, actor, spaceId, memberId, roleId) == 200
    requires OwnRoleIndex(db, spaceId, actor) == Some(a)
    requires db.members[memberId - 1].userId != actor
    ensures var r := TransferEffect(db, actor, spaceId, memberId, roleId);
      && Consistent(r.db)
      && |r.db.roles| == |db.roles| && |r.db.spaces| == |db.spaces|
      && r.db.roles[a].role == Admin
      && r.db.roles[roleId - 1].role == Owner && Live(r.db.roles[roleId - 1].meta)
      && r.db.spaces[spaceId - 1].ownerId == Some(db.members[memberId - 1].userId)
      && SoleOwner(r.db.roles, r.db.spaces[spaceId - 1])
  {
    TransferFacts(db, actor, spaceId, memberId, roleId);
    var s, t := spaceId - 1, roleId - 1;
    var dem := db.roles[a].(role := Admin, meta := ModelMetaData.StampUpdated(db.roles[a].meta, Some(actor)));
    var d1 := SetRole(db, a, dem);
    var pro := d1.roles[t].(role := Owner, meta := ModelMetaData.StampUpdated(d1.roles[t].meta, Some(actor)));
    var d2 := SetRole(d1, t, pro);
    var sp := db.spaces[s].(ownerId := Some(db.members[memberId - 1].userId),
                             meta := ModelMetaData.StampUpdated(db.spaces[s].meta, Some(actor)));
    assert SaveRoleAs(db, actor, a, db.roles[a].role, Admin) == d1;
    assert d1.roles[t] == db.roles[t] && d1.spaces == db.spaces;
    assert SaveRoleAs(d1, actor, t, d1.roles[t].role, Owner) == d2;
    assert SaveOwner(d2, actor, s, db.members[memberId - 1].userId) == SetSpace(d2, s, sp);
    assert OwnerSwap(db, s, a, t, dem, pro, sp);
    SwapOwnerConsistent(db, s, a, t, dem, pro, sp);
  }

  /**
   * A transfer to oneself, in the corrected version, changes no ownership:
   * the actor's role row still says owner and the invariants hold.
   */
  lemma TransferToSelfKeepsOwner(db: Db, actor: UserId, spaceId: nat, memberId: nat, roleId: nat)
    requires Consistent(db) && TransferGate(db, actor, spaceId, memberId, roleId) == 200
    requires db.members[memberId - 1].userId == actor
    ensures var r := TransferEffect(db, actor, spaceId, memberId, roleId);
      && Consistent(r.db)
      && r.db.roles[roleId - 1].role == Owner
      && r.db.spaces == db.spaces
  {
    TransferFacts(db, actor, spaceId, memberId, roleId);
    var s, t := spaceId - 1, roleId - 1;
    var row := db.roles[t];
    var m1 := ModelMetaData.StampUpdated(row.meta, Some(actor));
    var m2 := ModelMetaData.StampUpdated(m1, Some(actor));
    var d1 := SetRole(db, t, row.(role := Admin, meta := m1));
    assert SaveRoleAs(db, actor, t, row.role, Admin) == d1;
    var d2 := SetRole(db, t, row.(meta := m2));
    assert d1.roles[t := d1.roles[t].(role := Owner, meta := m2)] == db.roles[t := row.(meta := m2)];
    assert SaveRoleAs(d1, actor, t, d1.roles[t].role, Owner) == d2;
    assert SaveOwner(d2, actor, s, db.members[memberId - 1].userId) == d2;
    SetRoleConsistent(db, t, row.(meta := m2));
  }

  /** A permitted transfer, whatever its target, keeps the invariants. */
  lemma TransferKeepsConsistent(db: Db, actor: UserId, spaceId: nat, memberId: nat, roleId: nat)
    requires Consistent(db)
    ensures Consistent(TransferEffect(db, actor, spaceId, memberId, roleId).db)
  {
    if TransferGate(db, actor, spaceId, memberId, roleId) == 200 {
      if db.members[memberId - 1].userId == actor {
        TransferToSelfKeepsOwner(db, actor, spaceId, memberId, roleId);
      } else {
        assert db.spaces[spaceId - 1].id == spaceId;
        TransferToOtherKeepsOneOwner(db, actor, spaceId, memberId, roleId, OwnRoleIndex(db, spaceId, actor).value);
      }
    }
  }

  /**
   * The code as written agrees with the corrected transfer whenever the
   * target is another member.
   */
  lemma AsWrittenAgreesForOthers(db: Db, actor: UserId, spaceId: nat, memberId: nat, roleId: nat)
    requires Consistent(db)
    requires TransferGate(db, actor, spaceId, memberId, roleId) == 200 ==> db.members[memberId - 1].userId != actor
    ensures TransferAsWrittenEffect(db, actor, spaceId, memberId, roleId) == TransferEffect(db, actor, spaceId, memberId, roleId)
  {
    if TransferGate(db, actor, spaceId, memberId, roleId) == 200 {
      TransferFacts(db, actor, spaceId, memberId, roleId);
    }
  }

  /**
   * The code as written, when the owner names their own membership and
   * role row as the target: the first save demotes that row to admin, the
   * second is skipped because the route's copy of the row already said
   * owner, and `owner_id` is left as it was. The space keeps no owner role
   * at all, breaking the one-owner invariant.
   */
  lemma AsWrittenSelfTransferLeavesNoOwner(db: Db, actor: UserId, spaceId: nat, memberId: nat, roleId: nat)
    requires Consistent(db) && TransferGate(db, actor, spaceId, memberId, roleId) == 200
    requires db.members[memberId - 1].userId == actor
    ensures var r := TransferAsWrittenEffect(db, actor, spaceId, memberId, roleId);
      && r.status == 200
      && Live(r.db.spaces[spaceId - 1].meta)
      && (forall i :: 0 <= i < |r.db.roles| ==> !IsOwnerRole(r.db.roles[i], spaceId))
      && !Consistent(r.db)
  {
    TransferFacts(db, actor, spaceId, memberId, roleId);
    var t := roleId - 1;
    var r := TransferAsWrittenEffect(db, actor, spaceId, memberId, roleId);
    forall i | 0 <= i < |r.db.roles|
      ensures !IsOwnerRole(r.db.roles[i], spaceId)
    {
      if i != t {
        assert r.db.roles[i] == db.roles[i];
      }
    }
    assert !SoleOwner(r.db.roles, r.db.spaces[spaceId - 1]);
  }

  // ---- destroy ----

  /**
   * A removal goes ahead exactly when the route matches, the role is not
   * owner and the actor manages the space; a refused removal changes
   * nothing.
   */
  lemma DestroyFollowsPolicy(db: Db, actor: UserId, spaceId: nat, memberId: nat, roleId: nat, now: Time)
    requires Keyed(db)
    ensures var r := DestroyEffect(db, actor, spaceId, memberId, roleId, now);
      && (r.status == 204 <==>
            SpaceAt(db, spaceId).Some? && MemberAt(db, memberId).Some? && RoleAt(db, roleId).Some?
            && RouteMatches(db, spaceId, memberId, roleId)
            && db.roles[roleId - 1].role != Owner && IsSpaceManager(db, spaceId, actor))
      && (r.status == 204 || r.status == 403 || r.status == 404)
      && (r.status != 204 ==> r.db == db)
  {
    if SpaceAt(db, spaceId).Some? && MemberAt(db, memberId).Some? && RoleAt(db, roleId).Some? {
      assert db.spaces[spaceId - 1].id == spaceId && db.members[memberId - 1].id == memberId;
    }
  }

  /**
   * A removal soft-deletes the route's role row alone, after which the
   * member's role reads as the default `member` without an id; the
   * invariants hold.
   */
  lemma DestroyLeavesDefaultRole(db: Db, actor: UserId, spaceId: nat, memberId: nat, roleId: nat, now: Time)
    requires Consistent(db)
    ensures var r := DestroyEffect(db, actor, spaceId, memberId, roleId, now);
      && Consistent(r.db)
      && r.db.spaces == db.spaces && r.db.members == db.members && |r.db.roles| == |db.roles|
      && (forall q :: 0 <= q < |db.roles| && q != roleId - 1 ==> r.db.roles[q] == db.roles[q])
      && (r.status == 204 ==>
            && r.db.roles[roleId - 1].meta.deletedBy == Some(actor)
            && RoleOf(r.db, db.members[memberId - 1]) == DefaultRole)
  {
    if DestroyGate(db, actor, spaceId, memberId, roleId) == 200 {
      var k := roleId - 1;
      var row := db.roles[k];
      var member := db.members[memberId - 1];
      assert member.id == memberId && row.memberId == memberId;
      SetRoleConsistent(db, k, row.(meta := Trashed(row.meta, now, actor)));
      var r := DestroyEffect(db, actor, spaceId, memberId, roleId, now);
      forall i | 0 <= i < |r.db.roles|
        ensures !IsRoleRow(r.db.roles[i], memberId)
      {
        if i != k {
          assert r.db.roles[i] == db.roles[i];
          assert IsRoleRow(db.roles[k], memberId);
        }
      }
    }
  }
}
