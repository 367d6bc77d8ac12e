/** SpaceACL: the `creating` hook that names a new space's owner. */
module SpaceACL {
  import opened Wrappers
  import opened Schema
  import ACL

  /** `owner_id = ACL::getUserId() ?? created_by`. */
  function OwnerOnCreate(aclUser: Option<UserId>, createdBy: Option<UserId>): (r: Option<UserId>)
    ensures aclUser.Some? ==> r == aclUser
    ensures aclUser.None? ==> r == createdBy
  {
    OrElse(aclUser, createdBy)
  }

  /** A space being inserted. */
  class PendingSpace {
    var ownerId: Option<UserId>
    const createdBy: Option<UserId>

    constructor (creator: Option<UserId>)
      ensures createdBy == creator && ownerId.None?
    {
      createdBy := creator;
      ownerId := None;
    }

    method Creating(ctx: ACL.IdentityContext, w: ACL.World)
      modifies this`ownerId, ctx`user
      ensures ownerId == OwnerOnCreate(if old(ctx.user).Some? then old(ctx.user) else w.auth, createdBy)
      ensures old(ctx.Coherent(w)) ==> ctx.Coherent(w) && ownerId == OwnerOnCreate(w.auth, createdBy)
    {
      var id := ctx.GetUserId(w);
      ownerId := OrElse(id, createdBy);
    }
  }

  /** With an authenticated user the creator's identity decides the owner; a guest insert keeps `created_by`. */
  lemma OwnerIsActor(actor: UserId, createdBy: Option<UserId>)
    ensures OwnerOnCreate(Some(actor), createdBy) == Some(actor)
    ensures OwnerOnCreate(None, createdBy) == createdBy
  {
  }
}
