/**
 * UserProfileACL, UserSettingACL and UserPrivacySettingACL: the same three
 * hooks on a user's own records. Creating assigns the record to the ACL
 * user; updating and deleting abort with 403 unless the record is the ACL
 * user's.
 */
module UserOwnedACL {
  import opened Wrappers
  import opened Roles
  import opened Schema
  import ACL

  /** `user_id = ACL::getUserId() ?? user_id`. */
  function UserOnCreate(aclUser: Option<UserId>, given: Option<UserId>): (r: Option<UserId>)
    ensures aclUser.Some? ==> r == aclUser
    ensures aclUser.None? ==> r == given
  {
    OrElse(aclUser, given)
  }

  /**
   * The updating and deleting guard: `user_id != ACL::getUserId()` aborts
   * with 403. The comparison is PHP's loose one, so a null ACL user matches
   * only `user_id` 0.
   */
  function OwnerGuard(userId: UserId, aclUser: Option<UserId>): (r: Outcome)
    ensures r == Allow || r == Deny
    ensures aclUser.Some? ==> (r == Allow <==> aclUser.value == userId)
    ensures aclUser.None? ==> (r == Allow <==> userId == 0)
  {
    FromBool(LooseEq(userId, aclUser))
  }

  /** A user-owned record being inserted. */
  class PendingRecord {
    var userId: Option<UserId>

    constructor (given: Option<UserId>)
      ensures userId == given
    {
      userId := given;
    }

    method Creating(ctx: ACL.IdentityContext, w: ACL.World)
      modifies this`userId, ctx`user
      ensures userId == UserOnCreate(if old(ctx.user).Some? then old(ctx.user) else w.auth, old(userId))
      ensures old(ctx.Coherent(w)) ==> ctx.Coherent(w) && userId == UserOnCreate(w.auth, old(userId))
    {
      var id := ctx.GetUserId(w);
      userId := OrElse(id, userId);
    }
  }

  /** The `updating` hook (the `deleting` hook is the same guard). */
  method Guard(ctx: ACL.IdentityContext, w: ACL.World, userId: UserId) returns (o: Outcome)
    modifies ctx`user
    ensures o == OwnerGuard(userId, if old(ctx.user).Some? then old(ctx.user) else w.auth)
    ensures old(ctx.Coherent(w)) ==> ctx.Coherent(w) && o == OwnerGuard(userId, w.auth)
  {
    var id := ctx.GetUserId(w);
    o := OwnerGuard(userId, id);
  }

  /**
   * Without an actor, updating or deleting a stored record always aborts
   * (user ids start at 1); with one, only the record's own user passes.
   */
  lemma GuardAdmitsOnlyOwner(userId: UserId, actor: UserId)
    requires userId > 0
    ensures OwnerGuard(userId, None) == Deny
    ensures OwnerGuard(userId, Some(actor)) == Allow <==> actor == userId
  {
  }
}
