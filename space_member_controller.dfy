/**
 * SpaceMemberController: adding a user to a space together with a default
 * `member` role row, editing the membership profile, and removing it. Each
 * action is a transition of the tables and a method that performs it on a
 * Store.
 */
module SpaceMemberController {
  import opened Wrappers
  import opened Roles
  import opened Schema
  import opened Database
  import opened Invariants
  import ModelMetaData
  import SpaceMemberPolicy

  /** `SpaceMember::$fillable`. */
  const Fillable: set<string> := {"title", "phone_number", "space_visibility"}

  // ---- store ----

  /** The membership `store` inserts: the request's user, in the route space. */
  function NewMember(db: Db, actor: UserId, spaceId: nat, userId: UserId, input: map<string, string>): (r: SpaceMember)
  {
    SpaceMember(|db.members| + 1, spaceId, userId, Fill(map[], input, Fillable), ModelMetaData.StampCreated(Blank, Some(actor)))
  }

  /** The role row `store` inserts for the new membership: `member`, same space and user. */
  function DefaultRoleRow(db: Db, actor: UserId, spaceId: nat, userId: UserId): (r: SpaceMemberRole)
  {
    SpaceMemberRole(|db.roles| + 1, |db.members| + 1, spaceId, userId, Member, ModelMetaData.StampCreated(Blank, Some(actor)))
  }

  /**
   * Route binding of `{space}`, `authorize('create', SpaceMember::class)`,
   * then the duplicate check: 422 when the user already has a live
   * membership in the space.
   */
  function StoreGate(db: Db, actor: UserId, spaceId: nat, userId: UserId): (status: nat)
    ensures status == 200 ==> SpaceAt(db, spaceId).Some?
  {
    match SpaceAt(db, spaceId)
    case None => 404
    case Some(space) =>
      var o := SpaceMemberPolicy.Create(db, actor, space, userId);
      if o != Allow then RejectionStatus(o)
      else if SpaceMemberOf(db, space.id, userId).Some? then 422
      else 200
  }

  /** `store`: insert the membership, then its `member` role row. */
  function StoreEffect(db: Db, actor: UserId, spaceId: nat, userId: UserId, input: map<string, string>): (r: Response)
  {
    var status := StoreGate(db, actor, spaceId, userId);
    Response(status, if status == 200 then AddMember(db, NewMember(db, actor, spaceId, userId, input),
                                                     DefaultRoleRow(db, actor, spaceId, userId))
                     else db)
  }

  method Store(st: Store, actor: UserId, spaceId: nat, userId: UserId, input: map<string, string>)
    returns (status: nat)
    modifies st
    ensures Response(status, st.Snapshot()) == StoreEffect(old(st.Snapshot()), actor, spaceId, userId, input)
  {
    var bound := SpaceAt(st.Snapshot(), spaceId);
    if bound.None? {
      return 404;
    }
    var space := bound.value;
    var o := SpaceMemberPolicy.Create(st.Snapshot(), actor, space, userId);
    if o != Allow {
      return RejectionStatus(o);
    }
    var existing := SpaceMemberOf(st.Snapshot(), space.id, userId);
    if existing.Some? {
      return 422;
    }
    var member := NewMember(st.Snapshot(), actor, spaceId, userId, input);
    var role := DefaultRoleRow(st.Snapshot(), actor, spaceId, userId);
    st.members := st.members + [member];
    st.roles := st.roles + [role];
    status := 200;
  }

  // ---- update ----

  /** Route binding of `{space}` and `{member}`, then `authorize('update', $member)`. */
  function UpdateGate(db: Db, actor: UserId, spaceId: nat, memberId: nat): (status: nat)
    ensures status == 200 ==> SpaceAt(db, spaceId).Some? && MemberAt(db, memberId).Some?
  {
    match SpaceAt(db, spaceId)
    case None => 404
    case Some(space) =>
      match MemberAt(db, memberId)
      case None => 404
      case Some(member) =>
        var o := SpaceMemberPolicy.Update(actor, space, member);
        if o != Allow then RejectionStatus(o) else 200
  }

  /** `$member->fill(...)->save()` on the row at position `k`: written only when dirty. */
  function SaveMember(db: Db, actor: UserId, k: nat, input: map<string, string>): (r: Db)
    requires k < |db.members|
  {
    var member := db.members[k];
    var attrs := Fill(member.attrs, input, Fillable);
    if attrs == member.attrs then db
    else SetMember(db, k, member.(attrs := attrs, meta := ModelMetaData.StampUpdated(member.meta, Some(actor))))
  }

  /** `update`: fill the membership profile from the request and save it. */
  function UpdateEffect(db: Db, actor: UserId, spaceId: nat, memberId: nat, input: map<string, string>): (r: Response)
  {
    var status := UpdateGate(db, actor, spaceId, memberId);
    Response(status, if status == 200 then SaveMember(db, actor, memberId - 1, input) else db)
  }

  method Update(st: Store, actor: UserId, spaceId: nat, memberId: nat, input: map<string, string>)
    returns (status: nat)
    modifies st
    ensures Response(status, st.Snapshot()) == UpdateEffect(old(st.Snapshot()), actor, spaceId, memberId, input)
  {
    var space := SpaceAt(st.Snapshot(), spaceId);
    if space.None? {
      return 404;
    }
    var bound := MemberAt(st.Snapshot(), memberId);
    if bound.None? {
      return 404;
    }
    var member := bound.value;
    var o := SpaceMemberPolicy.Update(actor, space.value, member);
    if o != Allow {
      return RejectionStatus(o);
    }
    var attrs := Fill(member.attrs, input, Fillable);
    if attrs != member.attrs {
      st.members := st.members[memberId - 1 := member.(attrs := attrs,
                                                      meta := ModelMetaData.StampUpdated(member.meta, Some(actor)))];
    }
    status := 200;
  }

  // ---- destroy ----

  /**
   * Route binding of `{space}` and `{member}`, then `authorize('delete',
   * $member)`; the delete rule does not compare the member's space with the
   * route's.
   */
  function DestroyGate(db: Db, actor: UserId, spaceId: nat, memberId: nat): (status: nat)
    ensures status == 200 ==> SpaceAt(db, spaceId).Some? && MemberAt(db, memberId).Some?
  {
    if SpaceAt(db, spaceId).None? then 404
    else
      match MemberAt(db, memberId)
      case None => 404
      case Some(member) =>
        var o := SpaceMemberPolicy.Delete(db, actor, member);
        if o != Allow then RejectionStatus(o) else 200
  }

  /** `$member->role()->delete()` then `$member->delete()`. */
  function RemoveMember(db: Db, actor: UserId, k: nat, now: Time): (r: Db)
    requires k < |db.members|
  {
    var member := db.members[k];
    var d := TrashRolesOf(db, member.id, now, actor);
    SetMember(d, k, member.(meta := Trashed(member.meta, now, actor)))
  }

  /** `destroy`: soft-delete the member's role rows, then the membership. */
  function DestroyEffect(db: Db, actor: UserId, spaceId: nat, memberId: nat, now: Time): (r: Response)
  {
    var status := DestroyGate(db, actor, spaceId, memberId);
    if status != 200 then Response(status, db)
    else Response(204, RemoveMember(db, actor, memberId - 1, now))
  }

  method Destroy(st: Store, actor: UserId, spaceId: nat, memberId: nat, now: Time) returns (status: nat)
    modifies st
    ensures Response(status, st.Snapshot()) == DestroyEffect(old(st.Snapshot()), actor, spaceId, memberId, now)
  {
    if SpaceAt(st.Snapshot(), spaceId).None? {
      return 404;
    }
    var bound := MemberAt(st.Snapshot(), memberId);
    if bound.None? {
      return 404;
    }
    var member := bound.value;
    var o := SpaceMemberPolicy.Delete(st.Snapshot(), actor, member);
    if o != Allow {
      return RejectionStatus(o);
    }
    st.roles := RolesTrashed(st.roles, member.id, now, actor);
    st.members := st.members[memberId - 1 := member.(meta := Trashed(member.meta, now, actor))];
    status := 204;
  }
}
