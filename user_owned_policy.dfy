/**
 * UserProfilePolicy, UserSettingPolicy and UserPrivacySettingPolicy: one user's
 * own records, reached through the route `{user}`. The three classes share
 * their rules except for `restore` and privacy-setting `create`, which get
 * functions of their own below.
 */
module UserOwnedPolicy {
  import opened Wrappers
  import opened Seqs
  import opened Roles
  import opened Schema
  import ACL

  /** Listing a user's record: the route user is among `ACL::getVisibleUserIds()`. */
  function ViewAny(routeUser: UserId, visible: seq<UserId>): (r: Outcome)
    ensures r == Allow <==> routeUser in visible
    ensures r == Allow || r == Deny
  {
    FromBool(routeUser in visible)
  }

  /** Viewing: the record must belong to the route user; then anyone may. */
  function View(routeUser: UserId, ownerId: UserId): (r: Outcome)
    ensures r == NotFound <==> routeUser != ownerId
    ensures r == Allow <==> routeUser == ownerId
  {
    if routeUser != ownerId then NotFound else Allow
  }

  /** Creating a record for the route user: only that user. */
  function Create(actor: UserId, routeUser: UserId): (r: Outcome)
    ensures r == Allow <==> actor == routeUser
    ensures r == Allow || r == Deny
  {
    FromBool(actor == routeUser)
  }

  /** Updating or deleting: the record belongs to the route user and to the actor. */
  function ModifyOwn(actor: UserId, routeUser: UserId, ownerId: UserId): (r: Outcome)
    ensures r == NotFound <==> routeUser != ownerId
    ensures r == Allow <==> routeUser == ownerId && actor == ownerId
    ensures r == Allow || r == Deny || r == NotFound
  {
    if routeUser != ownerId then NotFound else FromBool(actor == ownerId)
  }

  /** `UserProfilePolicy::restore` and `UserPrivacySettingPolicy::restore`. */
  function RestoreDenied(actor: UserId, ownerId: UserId): (r: Outcome)
  {
    Deny
  }

  /** `UserSettingPolicy::restore`: the setting's owner, with no route check. */
  function RestoreByOwner(actor: UserId, ownerId: UserId): (r: Outcome)
    ensures r == Allow <==> actor == ownerId
    ensures r == Allow || r == Deny
  {
    FromBool(actor == ownerId)
  }

  function ForceDelete(actor: UserId, ownerId: UserId): (r: Outcome)
  {
    Deny
  }

  /**
   * `UserPrivacySettingPolicy::create`: only for oneself, and a user who
   * already has a live setting gets 400 instead of a second one.
   */
  function CreatePrivacySetting(db: Db, actor: UserId, routeUser: UserId): (r: Outcome)
    ensures r == Allow <==> actor == routeUser && EmptyId(UserPrivacySettingId(db, actor))
    ensures r == BadRequest <==> actor == routeUser && !EmptyId(UserPrivacySettingId(db, actor))
    ensures r == Deny <==> actor != routeUser
  {
    if actor != routeUser then Deny
    else if !EmptyId(UserPrivacySettingId(db, actor)) then BadRequest
    else Allow
  }

  /** An authenticated user may always list their own records. */
  lemma OwnRecordsAlwaysListed(w: ACL.World)
    requires w.auth.Some?
    ensures ViewAny(w.auth.value, ACL.FreshVisibleUserIds(w)) == Allow
  {
    ACL.VisibleUsersIncludeSelfAndPublic(w, w.auth.value);
  }

  /** A public user's records may be listed by everyone. */
  lemma PublicUsersListedByAll(w: ACL.World, u: UserId)
    requires w.auth.Some? && ACL.PublicUser(w.db, u)
    ensures ViewAny(u, ACL.FreshVisibleUserIds(w)) == Allow
  {
    ACL.VisibleUsersIncludeSelfAndPublic(w, u);
  }

  /** No one but the owner may change, remove or create a user's records. */
  lemma OthersNeverModify(actor: UserId, routeUser: UserId, ownerId: UserId, db: Db)
    requires actor != ownerId
    ensures ModifyOwn(actor, routeUser, ownerId) != Allow
    ensures RestoreByOwner(actor, ownerId) == Deny
    ensures actor != routeUser ==> Create(actor, routeUser) == Deny && CreatePrivacySetting(db, actor, routeUser) == Deny
  {
  }
}
