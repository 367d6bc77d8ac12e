/** SpacePrivacySettingPolicy: who may manage a space's privacy setting. */
module SpacePrivacySettingPolicy {
  import opened Wrappers
  import opened Roles
  import opened Schema

  function ViewAny(actor: UserId): (r: Outcome)
  {
    Allow
  }

  function View(actor: UserId, setting: SpacePrivacySetting): (r: Outcome)
  {
    Allow
  }

  /**
   * Creating the setting: an owner or admin, and only while the space has
   * none (`$space->privacySetting` falls back to a default without an id).
   */
  function Create(db: Db, actor: UserId, space: Space): (r: Outcome)
    ensures r == Allow || r == Deny
    ensures r == Allow <==> IsSpaceManager(db, space.id, actor) && EmptyId(SpacePrivacySettingId(db, space.id))
  {
    var m := SpaceMemberOf(db, space.id, actor);
    if m.None? || !(RoleOf(db, m.value).role in [Owner, Admin]) then Deny
    else FromBool(EmptyId(SpacePrivacySettingId(db, space.id)))
  }

  /** Editing the setting of the route's space: an owner or admin. */
  function Update(db: Db, actor: UserId, space: Space, setting: SpacePrivacySetting): (r: Outcome)
    ensures r == NotFound <==> space.id != setting.spaceId
    ensures r == Allow <==> space.id == setting.spaceId && IsSpaceManager(db, space.id, actor)
    ensures r == Allow || r == Deny || r == NotFound
  {
    if space.id != setting.spaceId then NotFound
    else
      var m := SpaceMemberOf(db, space.id, actor);
      FromBool(m.Some? && RoleOf(db, m.value).role in [Owner, Admin])
  }

  /** Deleting the setting follows the same rule as editing it. */
  function Delete(db: Db, actor: UserId, space: Space, setting: SpacePrivacySetting): (r: Outcome)
    ensures r == Update(db, actor, space, setting)
  {
    if space.id != setting.spaceId then NotFound
    else
      var m := SpaceMemberOf(db, space.id, actor);
      FromBool(m.Some? && RoleOf(db, m.value).role in [Owner, Admin])
  }

  function Restore(actor: UserId, setting: SpacePrivacySetting): (r: Outcome)
  {
    Deny
  }

  function ForceDelete(actor: UserId, setting: SpacePrivacySetting): (r: Outcome)
  {
    Deny
  }

  /** Once a space has a live setting, no second one may be created. */
  lemma AtMostOneSetting(db: Db, actor: UserId, space: Space, i: nat)
    requires i < |db.spacePrivacySettings|
    requires db.spacePrivacySettings[i].spaceId == space.id && Live(db.spacePrivacySettings[i].meta)
    requires db.spacePrivacySettings[i].id > 0
    requires forall j :: 0 <= j < |db.spacePrivacySettings| ==> db.spacePrivacySettings[j].id > 0
    ensures Create(db, actor, space) == Deny
  {
  }

  /** Restoring and permanently deleting space privacy settings is never allowed. */
  lemma RestoreAndForceDeleteDenied(actor: UserId, setting: SpacePrivacySetting)
    ensures Restore(actor, setting) == Deny && ForceDelete(actor, setting) == Deny
  {
  }
}
