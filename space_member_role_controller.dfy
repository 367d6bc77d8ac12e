/**
 * SpaceMemberRoleController: giving a space member a role row, changing it,
 * handing the space's ownership to another member, and removing a role.
 * Each action is a transition of the tables and a method that performs it
 * on a Store. The route carries `{space}`, `{member}` and, except for
 * `store`, `{role}`; the policy is consulted before any write.
 */
module SpaceMemberRoleController {
  import opened Wrappers
  import opened Seqs
  import opened Roles
  import opened Schema
  import opened Database
  import opened Invariants
  import ModelMetaData
  import SpaceMemberRolePolicy

  // ---- store ----

  /**
   * The row `store` inserts: the requested role (the column defaults to
   * `member` when the body has none), the route space, the member's user,
   * attached to the route member.
   */
  function NewRole(db: Db, actor: UserId, space: Space, member: SpaceMember, role: Option<Role>): (r: SpaceMemberRole)
  {
    SpaceMemberRole(|db.roles| + 1, member.id, space.id, member.userId, role.GetOr(Member),
                    ModelMetaData.StampCreated(Blank, Some(actor)))
  }

  /** Route binding of `{space}` and `{member}`, then `authorize('create', ...)`. */
  function StoreGate(db: Db, actor: UserId, spaceId: nat, memberId: nat, role: Option<Role>): (status: nat)
    ensures status == 200 ==> SpaceAt(db, spaceId).Some? && MemberAt(db, memberId).Some?
  {
    match SpaceAt(db, spaceId)
    case None => 404
    case Some(space) =>
      match MemberAt(db, memberId)
      case None => 404
      case Some(member) =>
        var o := SpaceMemberRolePolicy.Create(db, actor, space, member, role);
        if o != Allow then RejectionStatus(o) else 200
  }

  /** `store`: insert the role row for the route member. */
  function StoreEffect(db: Db, actor: UserId, spaceId: nat, memberId: nat, role: Option<Role>): (r: Response)
  {
    var status := StoreGate(db, actor, spaceId, memberId, role);
    if status != 200 then Response(status, db)
    else Response(200, AddRole(db, NewRole(db, actor, db.spaces[spaceId - 1], db.members[memberId - 1], role)))
  }

  method Store(st: Store, actor: UserId, spaceId: nat, memberId: nat, role: Option<Role>) returns (status: nat)
    modifies st
    ensures Response(status, st.Snapshot()) == StoreEffect(old(st.Snapshot()), actor, spaceId, memberId, role)
  {
    var space := SpaceAt(st.Snapshot(), spaceId);
    if space.None? {
      return 404;
    }
    var member := MemberAt(st.Snapshot(), memberId);
    if member.None? {
      return 404;
    }
    var o := SpaceMemberRolePolicy.Create(st.Snapshot(), actor, space.value, member.value, role);
    if o != Allow {
      return RejectionStatus(o);
    }
    var row := NewRole(st.Snapshot(), actor, space.value, member.value, role);
    st.roles := st.roles + [row];
    status := 200;
  }

  // ---- update ----

  /** Route binding of `{space}`, `{member}` and `{role}`, then `authorize('update', $role)`. */
  function UpdateGate(db: Db, actor: UserId, spaceId: nat, memberId: nat, roleId: nat, newRole: Option<Role>): (status: nat)
    ensures status == 200 ==> SpaceAt(db, spaceId).Some? && MemberAt(db, memberId).Some? && RoleAt(db, roleId).Some?
  {
    match SpaceAt(db, spaceId)
    case None => 404
    case Some(space) =>
      match MemberAt(db, memberId)
      case None => 404
      case Some(member) =>
        match RoleAt(db, roleId)
        case None => 404
        case Some(role) =>
          var o := SpaceMemberRolePolicy.Update(db, actor, space, member, role, newRole);
          if o != Allow then RejectionStatus(o) else 200
  }

  /**
   * `$role->role = ...; $role->save()` on the row at position `k`, with the
   * value the row had when it was loaded as `before`: written, with the
   * `updated_by` stamp, only when the new value differs from `before`.
   */
  function SaveRoleAs(db: Db, actor: UserId, k: nat, before: Role, role: Role): (r: Db)
    requires k < |db.roles|
  {
    if role == before then db
    else SetRole(db, k, db.roles[k].(role := role, meta := ModelMetaData.StampUpdated(db.roles[k].meta, Some(actor))))
  }

  /** `update`: fill `role` from the body (left as it is when absent) and save. */
  function UpdateEffect(db: Db, actor: UserId, spaceId: nat, memberId: nat, roleId: nat, newRole: Option<Role>): (r: Response)
  {
    var status := UpdateGate(db, actor, spaceId, memberId, roleId, newRole);
    if status != 200 then Response(status, db)
    else
      var k := roleId - 1;
      Response(200, SaveRoleAs(db, actor, k, db.roles[k].role, newRole.GetOr(db.roles[k].role)))
  }

  method Update(st: Store, actor: UserId, spaceId: nat, memberId: nat, roleId: nat, newRole: Option<Role>)
    returns (status: nat)
    modifies st
    ensures Response(status, st.Snapshot()) == UpdateEffect(old(st.Snapshot()), actor, spaceId, memberId, roleId, newRole)
  {
    status := UpdateGate(st.Snapshot(), actor, spaceId, memberId, roleId, newRole);
    if status != 200 {
      return;
    }
    var row := st.roles[roleId - 1];
    var value := newRole.GetOr(row.role);
    if value != row.role {
      st.roles := st.roles[roleId - 1 := row.(role := value, meta := ModelMetaData.StampUpdated(row.meta, Some(actor)))];
    }
  }

  // ---- transferOwnership ----

  /**
   * `$space->members()->where('user_id', actor)->first()->role`: the
   * position of the actor's live role row in the space.
   */
  function OwnRoleIndex(db: Db, spaceId: nat, actor: UserId): (r: Option<nat>)
    ensures r.Some? <==> IsSpaceMember(db, spaceId, actor) && RoleRowOf(db, SpaceMemberOf(db, spaceId, actor).value.id).Some?
    ensures r.Some? ==> (r.value < |db.roles|
      && RoleRowOf(db, SpaceMemberOf(db, spaceId, actor).value.id) == Some(db.roles[r.value]))
  {
    match SpaceMemberOf(db, spaceId, actor)
    case None => None
    case Some(m) => FirstIndex(db.roles, (x: SpaceMemberRole) => IsRoleRow(x, m.id))
  }

  /** Route binding of `{space}`, `{member}` and `{role}`, then `authorize('transferOwnership', $role)`. */
  function TransferGate(db: Db, actor: UserId, spaceId: nat, memberId: nat, roleId: nat): (status: nat)
    ensures status == 200 ==>
      && SpaceAt(db, spaceId).Some? && MemberAt(db, memberId).Some? && RoleAt(db, roleId).Some?
      && OwnRoleIndex(db, db.spaces[spaceId - 1].id, actor).Some?
  {
    match SpaceAt(db, spaceId)
    case None => 404
    case Some(space) =>
      match MemberAt(db, memberId)
      case None => 404
      case Some(member) =>
        match RoleAt(db, roleId)
        case None => 404
        case Some(role) =>
          var o := SpaceMemberRolePolicy.TransferOwnership(db, actor, space, member, role);
          if o != Allow then RejectionStatus(o) else 200
  }

  /** `$space->owner_id = ...; $space->save()` on the row at position `k`: written only when it changes. */
  function SaveOwner(db: Db, actor: UserId, k: nat, owner: UserId): (r: Db)
    requires k < |db.spaces|
  {
    var space := db.spaces[k];
    if space.ownerId == Some(owner) then db
    else SetSpace(db, k, space.(ownerId := Some(owner), meta := ModelMetaData.StampUpdated(space.meta, Some(actor))))
  }

  /**
   * The three saves of `transferOwnership` as written. The actor's role row
   * is loaded afresh and saved as `admin`; then the route's role object,
   * loaded before that save, is set to `owner` and saved, which Eloquent
   * skips when that object already said `owner`; then the space's
   * `owner_id` is repointed. When the route names the actor's own role row,
   * the second save is skipped and the space is left without an owner.
   */
  function TransferAsWrittenEffect(db: Db, actor: UserId, spaceId: nat, memberId: nat, roleId: nat): (r: Response)
  {
    var status := TransferGate(db, actor, spaceId, memberId, roleId);
    if status != 200 then Response(status, db)
    else
      var s, t := spaceId - 1, roleId - 1;
      var a := OwnRoleIndex(db, db.spaces[s].id, actor).value;
      var d1 := SaveRoleAs(db, actor, a, db.roles[a].role, Admin);
      var d2 := SaveRoleAs(d1, actor, t, db.roles[t].role, Owner);
      Response(200, SaveOwner(d2, actor, s, db.members[memberId - 1].userId))
  }

  /**
   * The transfer as intended: the second save compares with the row as it
   * is after the first one, so the route's role ends as `owner` also when
   * it is the actor's own.
   */
  function TransferEffect(db: Db, actor: UserId, spaceId: nat, memberId: nat, roleId: nat): (r: Response)
  {
    var status := TransferGate(db, actor, spaceId, memberId, roleId);
    if status != 200 then Response(status, db)
    else
      var s, t := spaceId - 1, roleId - 1;
      var a := OwnRoleIndex(db, db.spaces[s].id, actor).value;
      var d1 := SaveRoleAs(db, actor, a, db.roles[a].role, Admin);
      var d2 := SaveRoleAs(d1, actor, t, d1.roles[t].role, Owner);
      Response(200, SaveOwner(d2, actor, s, db.members[memberId - 1].userId))
  }

  method TransferOwnership(st: Store, actor: UserId, spaceId: nat, memberId: nat, roleId: nat) returns (status: nat)
    modifies st
    ensures Response(status, st.Snapshot()) == TransferEffect(old(st.Snapshot()), actor, spaceId, memberId, roleId)
  {
    status := TransferGate(st.Snapshot(), actor, spaceId, memberId, roleId);
    if status != 200 {
      return;
    }
    var space := st.spaces[spaceId - 1];
    var a := OwnRoleIndex(st.Snapshot(), space.id, actor).value;
    var mine := st.roles[a];
    if mine.role != Admin {
      st.roles := st.roles[a := mine.(role := Admin, meta := ModelMetaData.StampUpdated(mine.meta, Some(actor)))];
    }
    var target := st.roles[roleId - 1];
    if target.role != Owner {
      st.roles := st.roles[roleId - 1 := target.(role := Owner, meta := ModelMetaData.StampUpdated(target.meta, Some(actor)))];
    }
    var owner := st.members[memberId - 1].userId;
    if space.ownerId != Some(owner) {
      st.spaces := st.spaces[spaceId - 1 := space.(ownerId := Some(owner),
                                                    meta := ModelMetaData.StampUpdated(space.meta, Some(actor)))];
    }
  }

  // ---- destroy ----

  /** Route binding of `{space}`, `{member}` and `{role}`, then `authorize('delete', $role)`. */
  function DestroyGate(db: Db, actor: UserId, spaceId: nat, memberId: nat, roleId: nat): (status: nat)
    ensures status == 200 ==> SpaceAt(db, spaceId).Some? && MemberAt(db, memberId).Some? && RoleAt(db, roleId).Some?
  {
    match SpaceAt(db, spaceId)
    case None => 404
    case Some(space) =>
      match MemberAt(db, memberId)
      case None => 404
      case Some(member) =>
        match RoleAt(db, roleId)
        case None => 404
        case Some(role) =>
          var o := SpaceMemberRolePolicy.Delete(db, actor, space, member, role);
          if o != Allow then RejectionStatus(o) else 200
  }

  /** `destroy`: soft-delete the role row. */
  function DestroyEffect(db: Db, actor: UserId, spaceId: nat, memberId: nat, roleId: nat, now: Time): (r: Response)
  {
    var status := DestroyGate(db, actor, spaceId, memberId, roleId);
    if status != 200 then Response(status, db)
    else
      var k := roleId - 1;
      Response(204, SetRole(db, k, db.roles[k].(meta := Trashed(db.roles[k].meta, now, actor))))
  }

  method Destroy(st: Store, actor: UserId, spaceId: nat, memberId: nat, roleId: nat, now: Time) returns (status: nat)
    modifies st
    ensures Response(status, st.Snapshot()) == DestroyEffect(old(st.Snapshot()), actor, spaceId, memberId, roleId, now)
  {
    status := DestroyGate(st.Snapshot(), actor, spaceId, memberId, roleId);
    if status != 200 {
      return;
    }
    var row := st.roles[roleId - 1];
    st.roles := st.roles[roleId - 1 := row.(meta := Trashed(row.meta, now, actor))];
    status := 204;
  }
}
