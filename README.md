# Access control of a multi-tenant spaces-and-channels API, in Dafny

The API lets users open **spaces**, join them as **space members**, and hold
a **role** in each space. The roles form a ladder: owner, admin, moderator,
member. Inside a space there are **channels**, which have their own
**channel members**, each with a role on the same ladder. Users also own
profiles, settings and privacy settings.

This project models the part of the API that decides who may do what, and
what each permitted action writes:

- **Policies.** One pure function per policy method. It answers `Allow`,
  `Deny` (403), `NotFound` (an `abort(404)`) or `BadRequest` (an
  `abort(400)`).
- **The identity context (`ACL`).** A class with the five memoised caches:
  user, joined spaces, joined channels, visible user ids and visible space
  ids. Beside them it holds the spaces and channels relations that
  `loadMissing` leaves loaded on the authenticated user, which `reset`
  does not clear. The model proves that a cache agreeing with the database keeps
  agreeing, and answers what a fresh computation would.
- **Row scoping and lifecycle hooks.**
  - the channel visibility scope;
  - the `creating` hooks that force `owner_id` and `user_id`;
  - the owner-only `updating`/`deleting` guards;
  - audit stamping (`created_by`, `updated_by`);
  - soft delete and restore, on one model and through the query builder;
  - the column-to-filter classification of `getFields`.
- **Controllers.** The state-changing actions of the space, channel, space
  member, space member role and channel member controllers. Each one has:
  - a transition function over a database snapshot `Db`, holding one
    sequence per table, with row ids equal to position plus one;
  - a method that performs it on a mutable `Store` and is proved to match
    the function.

  Lemmas connect every transition to its policy, say what it writes and
  what it leaves alone, and prove that it keeps the tables' invariants:
  - every row points at an existing parent;
  - at most one live membership per user and space (or channel), and one
    live role row per member;
  - every live space and channel has exactly one owner.
- **The resource serialiser (`ItemResource`).** It turns a model with its
  loaded relations into a JSON:API-flavoured document.
  - Functions specify the document.
  - Methods build it relation by relation and model by model, the way the
    class fills its `$data` array, and are proved to build the specified
    document.
- **Social sign-in (`SocialAccountsService::findOrCreate`).**
  - It looks up the linked account, then the user with that email, and
    otherwise registers a new user and profile.
  - It splits the provider's display name at the first space.
  - It links the provider account.
  - Where the code returns null from a method declared to return a `User`,
    the model returns a TypeError.
- **Saving a model instance.** `save` compares the instance with the
  attributes it last read or wrote, and writes only the dirty columns.
  `runSoftDelete` never refreshes those attributes. So `restore` on the
  instance that was just soft-deleted finds the deletion columns clean and
  leaves the row trashed (`BaseModel.RestoreAfterOwnDeleteLeavesRowTrashed`).

Files: one module per source component, plus a `*_properties` module beside
each controller, the serialiser and the service for the lemmas about it.

- `wrappers.dfy`, `seqs.dfy`: Option and list helpers. These include
  `array_unique`, `array_diff`, the first-match search and PHP string
  truthiness.
- `roles.dfy`, `schema.dfy`: the role ladder, privacy levels and outcomes;
  the table rows and the relation lookups the policies make.
- `database.dfy`, `invariants.dfy`: the `Db` snapshot, the `Store` class,
  the invariant `Consistent`, and one lemma per row-level write showing that
  the write keeps it.

## Model

| member | source | states |
|---|---|---|
| Roles.Index | app/Models/ChannelMember.php:11-16 | `array_search` over the role ladder: the role's position on the ladder, its first occurrence |
| Roles.IndexDeterminesRole | app/Models/SpaceMemberRole.php:12-17 | two roles have the same ladder position exactly when they are the same role |
| Roles.OnlyOwnerOutranksOwner | app/Policies/ChannelMemberPolicy.php:128-135 | only an owner ranks at least as high as an owner |
| Schema.SpaceMemberOf | app/Policies/SpacePolicy.php:57 | `$space->members()->where('user_id', ...)->first()`: a live member row of that user in that space, and none exactly when no such row exists |
| Schema.RoleRowOf | app/Models/SpaceMember.php:58-62 | the member's live role row, and none exactly when the member has no live role row |
| Schema.RoleOf | app/Models/SpaceMember.php:37-39 | `$member->role` with `withDefault`: the role row, or the default `member` role without an id when there is no row |
| Schema.ActorRole | app/Policies/SpacePolicy.php:57-61 | the actor's role in a space is defined exactly when the actor is a live member, and it is the role of the actor's membership |
| Schema.ChannelMemberOf | app/Policies/ChannelPolicy.php:71 | `$channel->members()->where('user_id', ...)->first()`: a live membership of that user in that channel, and none exactly when there is no such row |
| Schema.SpaceById | app/Policies/SpaceMemberPolicy.php:112-115 | `$member->space`: the live space with that id, and none exactly when none is live |
| Schema.SpacePrivacySettingId | app/Models/Space.php:73-78 | `$space->privacySetting->id`: the id of a live setting of the space, null exactly when the space has none (the default row has no id) |
| Schema.UserPrivacySettingId | app/Models/User.php:102-107 | `$user->privacySetting->id`: the id of a live setting of the user, null exactly when there is none |
| ChannelMemberPolicy.ViewAny | app/Policies/ChannelMemberPolicy.php:19-30 | 404 exactly when the channel is not in the route's space; otherwise allowed |
| ChannelMemberPolicy.View | app/Policies/ChannelMemberPolicy.php:39-53 | 404 exactly when the channel is not in the space or the member is not in the channel; otherwise allowed |
| ChannelMemberPolicy.Create | app/Policies/ChannelMemberPolicy.php:61-101 | 404 exactly on a channel/space mismatch. An allowed add has a target user who is a space member and a role other than owner. Either the actor joins a public channel themself as `member` while not yet in the channel, or the actor's channel role is above `member` and ranks at least as high as the granted role. Conversely, both situations are allowed |
| ChannelMemberPolicy.Update | app/Policies/ChannelMemberPolicy.php:110-153 | 404 exactly on a route mismatch. Allowed exactly when the actor is in the channel and ranks at least as high as both the new and the current role. On self-update an owner may not step down; otherwise the new role is not owner and the actor is owner or admin |
| ChannelMemberPolicy.Delete | app/Policies/ChannelMemberPolicy.php:162-200 | 404 exactly on a route mismatch. Allowed exactly when the member is not the owner, the actor is in the channel, and the actor either is the member or has a non-member role ranking at least as high |
| ChannelMemberPolicy.RouteMismatchIsNotFound | app/Policies/ChannelMemberPolicy.php:25-27 | every action answers 404 on a route mismatch, whatever the database holds |
| ChannelMemberPolicy.RestoreAndForceDeleteDenied | app/Policies/ChannelMemberPolicy.php:209-225 | restore and forceDelete always deny |
| ChannelPolicy.View | app/Policies/ChannelPolicy.php:31-39 | 404 exactly when the channel is not in the route's space, otherwise allowed |
| ChannelPolicy.Create | app/Policies/ChannelPolicy.php:47-53 | allowed exactly for a member of the route space, whatever its privacy |
| ChannelPolicy.Update | app/Policies/ChannelPolicy.php:62-76 | 404 on a space mismatch; otherwise allowed exactly when the actor's channel role is owner or admin |
| ChannelPolicy.Delete | app/Policies/ChannelPolicy.php:85-88 | allowed exactly when the actor equals `owner_id` under PHP's loose comparison |
| ChannelPolicy.Restore | app/Policies/ChannelPolicy.php:97-100 | the same answer as delete |
| ChannelPolicy.OnlyOwnerDeletes | app/Policies/ChannelPolicy.php:85-112 | with an owner recorded, only that user may delete or restore; forceDelete always denies |
| SpaceMemberPolicy.View | app/Policies/SpaceMemberPolicy.php:36-43 | 404 exactly when the member is not in the route space, otherwise allowed |
| SpaceMemberPolicy.Create | app/Policies/SpaceMemberPolicy.php:52-75 | as written: allowed exactly when the actor is a member of the space (any role), or is adding themself to a public space |
| SpaceMemberPolicy.CreateAsCommented | app/Policies/SpaceMemberPolicy.php:68-72 | the rule the comment describes: a plain member may not add others |
| SpaceMemberPolicy.CreateDiffersFromCommentOnlyForPlainMembers | app/Policies/SpaceMemberPolicy.php:70 | the code and the comment disagree exactly when the actor's role is `member` |
| SpaceMemberPolicy.Update | app/Policies/SpaceMemberPolicy.php:85-95 | 404 on a space mismatch; otherwise allowed exactly for the member themself |
| SpaceMemberPolicy.Delete | app/Policies/SpaceMemberPolicy.php:105-139 | allowed exactly when: the member's role is not owner, its space is live, and the actor is a member of that space who either is the member or holds a non-member role ranking at least as high |
| SpaceMemberPolicy.RestoreAndForceDeleteDenied | app/Policies/SpaceMemberPolicy.php:148-164 | restore and forceDelete always deny |
| SpaceMemberRolePolicy.View | app/Policies/SpaceMemberRolePolicy.php:31-41 | 404 exactly when the member is not in the space or the role row is not the member's; otherwise allowed |
| SpaceMemberRolePolicy.Create | app/Policies/SpaceMemberRolePolicy.php:49-73 | 404 exactly on a member/space mismatch. Allowed exactly when the actor is an owner or admin of the space, the role asked for is not owner, and the member's role has no id yet |
| SpaceMemberRolePolicy.Update | app/Policies/SpaceMemberRolePolicy.php:82-100 | 404 exactly on a route mismatch. Allowed exactly when the actor is owner or admin and neither the current nor the new role is owner; there is no rank comparison |
| SpaceMemberRolePolicy.TransferOwnership | app/Policies/SpaceMemberRolePolicy.php:109-126 | 404 exactly on a route mismatch; allowed exactly when the actor's space role is owner |
| SpaceMemberRolePolicy.Delete | app/Policies/SpaceMemberRolePolicy.php:135-158 | 404 exactly on a route mismatch; allowed exactly for a non-owner role and an owner or admin actor |
| SpaceMemberRolePolicy.OwnerRoleOnlyByTransfer | app/Policies/SpaceMemberRolePolicy.php:49-158 | create and update never grant owner, update and delete never touch an owner role, and only the current owner may transfer |
| SpaceMemberRolePolicy.RestoreAndForceDeleteDenied | app/Policies/SpaceMemberRolePolicy.php:167-182 | restore and forceDelete always deny |
| SpacePolicy.Update | app/Policies/SpacePolicy.php:55-62 | allowed exactly for a member whose role is owner or admin; a member without a role row reads as `member` and is denied |
| SpacePolicy.Delete | app/Policies/SpacePolicy.php:71-74 | allowed exactly when the actor loosely equals `owner_id` |
| SpacePolicy.Restore | app/Policies/SpacePolicy.php:83-86 | the same answer as delete |
| SpacePolicy.OpenAndClosedActions | app/Policies/SpacePolicy.php:19-98 | viewAny, view and create always allow; forceDelete always denies |
| SpacePrivacySettingPolicy.Create | app/Policies/SpacePrivacySettingPolicy.php:43-57 | allowed exactly for an owner or admin of a space whose setting has no id |
| SpacePrivacySettingPolicy.Update | app/Policies/SpacePrivacySettingPolicy.php:66-79 | 404 exactly when the setting is not the route space's; otherwise allowed exactly for an owner or admin |
| SpacePrivacySettingPolicy.Delete | app/Policies/SpacePrivacySettingPolicy.php:88-101 | the same answer as update |
| SpacePrivacySettingPolicy.AtMostOneSetting | app/Policies/SpacePrivacySettingPolicy.php:55-56 | once the space has a live, persisted setting, creating another is denied |
| SpacePrivacySettingPolicy.RestoreAndForceDeleteDenied | app/Policies/SpacePrivacySettingPolicy.php:110-126 | restore and forceDelete always deny |
| UserOwnedPolicy.ViewAny | app/Policies/UserProfilePolicy.php:20-26 | allowed exactly when the route user is among the visible user ids; the same in UserSettingPolicy and UserPrivacySettingPolicy |
| UserOwnedPolicy.View | app/Policies/UserProfilePolicy.php:35-44 | 404 exactly when the record is not the route user's, otherwise allowed |
| UserOwnedPolicy.Create | app/Policies/UserProfilePolicy.php:52-58 | allowed exactly when the actor is the route user |
| UserOwnedPolicy.ModifyOwn | app/Policies/UserProfilePolicy.php:67-94 | update and delete: 404 exactly on a route/owner mismatch, then allowed exactly for the owner |
| UserOwnedPolicy.RestoreByOwner | app/Policies/UserSettingPolicy.php:104-107 | a setting's restore is allowed exactly for its owner |
| UserOwnedPolicy.CreatePrivacySetting | app/Policies/UserPrivacySettingPolicy.php:52-69 | Deny exactly when the actor is not the route user. After that check, BadRequest (400) exactly when a persisted setting exists, and Allow exactly when none does |
| UserOwnedPolicy.OwnRecordsAlwaysListed | app/ACL/ACL.php:72-74 | an authenticated user may always list their own records |
| UserOwnedPolicy.PublicUsersListedByAll | app/ACL/ACL.php:69-70 | a public user's records may be listed by everyone |
| UserOwnedPolicy.OthersNeverModify | app/Policies/UserProfilePolicy.php:52-120 | no one but the owner may update, delete, restore or create a user's records |
| ACL.JoinedSpaceIds | app/ACL/ACL.php:46-52 | the ids of exactly the live spaces where the user has a live membership |
| ACL.JoinedChannelIds | app/ACL/ACL.php:54-60 | the ids of exactly the live channels where the user has a live membership |
| ACL.VisibleUserIds | app/ACL/ACL.php:62-77 | duplicate-free; contains exactly the user, every co-member of the given spaces and every public user |
| ACL.VisibleSpaceIds | app/ACL/ACL.php:79-91 | duplicate-free; contains exactly the joined spaces and every live public or protected space |
| ACL.IdentityContext.Reset | app/ACL/ACL.php:24-31 | all five caches are null, and the relations loaded on the user stay as they were |
| ACL.IdentityContext.GetUser | app/ACL/ACL.php:33-39 | returns the cached user, or the authenticated one, which is then cached; a coherent cache stays coherent and answers the authenticated user |
| ACL.IdentityContext.GetUserId | app/ACL/ACL.php:41-44 | null when nobody is authenticated, otherwise that user's id; keeps coherence |
| ACL.IdentityContext.GetSpaces | app/ACL/ACL.php:46-52 | a cached list is returned unchanged. Otherwise the spaces relation already loaded on the user is returned, even a stale one, or else the joined spaces are loaded and kept on the user; either way the answer is cached. A coherent cache answers the fresh list |
| ACL.IdentityContext.GetChannels | app/ACL/ACL.php:54-60 | likewise for the joined channels and the channels relation |
| ACL.IdentityContext.GetVisibleUserIds | app/ACL/ACL.php:62-77 | a truthy cache is returned and nothing else changes. Otherwise the answer is computed from the (possibly cached) spaces and user and then cached. A coherent cache answers the fresh value |
| ACL.IdentityContext.GetVisibleSpaceIds | app/ACL/ACL.php:79-91 | likewise for the visible space ids |
| ACL.ClearedIsCoherent | app/ACL/ACL.php:24-31 | after `reset` the context agrees with a database state exactly when the relations still loaded on the user do; with none loaded, it agrees with every state |
| ACL.StaleSpacesSurviveReset | app/ACL/ACL.php:24-52 | a spaces relation loaded before `reset` that no longer matches the memberships is still what `getSpaces` answers, so the context is not coherent |
| ACL.VisibleUsersIncludeSelfAndPublic | app/ACL/ACL.php:65-74 | the actor sees themself and every public user; a user is visible exactly when self, public or a co-member of a joined space |
| ACL.HiddenUserNotVisible | app/ACL/ACL.php:62-77 | a non-public user sharing no live space with the actor is not visible |
| ACL.VisibleSpaces | app/ACL/ACL.php:82-88 | every non-private space is visible; a visible private space is one the actor has joined |
| ChannelScope.Apply | app/Scopes/ChannelScope.php:19-30 | the surviving rows are exactly the rows whose space is joined and that are joined or not private |
| ChannelScope.ScopeByPrivacy | app/Scopes/ChannelScope.php:21-29 | a channel outside the joined spaces never survives. Inside them, a private channel survives exactly when it is joined, and a public or protected channel always survives |
| ChannelScope.ScopeMonotone | app/Scopes/ChannelScope.php:21-29 | joining more spaces or channels never hides a channel |
| ChannelACL.OwnerOnCreate | app/ACL/ChannelACL.php:16 | `owner_id` is the acting user when there is one, else `created_by` |
| ChannelACL.PendingChannel.Creating | app/ACL/ChannelACL.php:13-17 | the hook overwrites `owner_id` with the actor (from the cache) or `created_by`; under a coherent cache, the authenticated user |
| ChannelACL.ScopedChannels | app/ACL/ChannelACL.php:11 | every channel read is filtered by ChannelScope with the cached spaces and channels; under a coherent cache these are the joined ones |
| ChannelACL.PrivateChannelsOnlyForMembers | app/Scopes/ChannelScope.php:22-24 | through a coherent cache, a private channel is listed exactly to a member of it who is also in its space |
| SpaceACL.OwnerOnCreate | app/ACL/SpaceACL.php:16 | `owner_id` is the acting user when there is one, else `created_by`; a client-supplied value never survives |
| SpaceACL.PendingSpace.Creating | app/ACL/SpaceACL.php:13-17 | the hook sets `owner_id` from the cached or authenticated user |
| SpaceACL.OwnerIsActor | app/ACL/SpaceACL.php:16 | with an actor the owner is the actor; without one it is `created_by` |
| UserOwnedACL.UserOnCreate | app/ACL/UserProfileACL.php:16 | `user_id` is the actor, or the supplied value when there is no actor; the same in UserSettingACL and UserPrivacySettingACL |
| UserOwnedACL.OwnerGuard | app/ACL/UserProfileACL.php:22-24 | 403 unless `user_id` loosely equals the actor; a null actor matches only 0 |
| UserOwnedACL.PendingRecord.Creating | app/ACL/UserProfileACL.php:13-17 | the creating hook writes `user_id` from the cached or authenticated user, keeping the supplied one without an actor; a coherent cache stays coherent, and the actor is then the authenticated user |
| UserOwnedACL.Guard | app/ACL/UserProfileACL.php:19-33 | the updating and deleting hooks answer the guard for the cached or authenticated user |
| UserOwnedACL.GuardAdmitsOnlyOwner | app/ACL/UserProfileACL.php:22-32 | without an actor a stored record never passes; with one, only its owner passes |
| ModelMetaData.StampCreated | app/Traits/ModelMetaData.php:11-15 | `created_by` is the actor, else the previous value, else 0; `updated_by` equals it; deletion columns untouched |
| ModelMetaData.StampUpdated | app/Traits/ModelMetaData.php:17-27 | `updated_by` is the actor, else the previous value, else 0; `created_by` and deletion columns untouched |
| ModelMetaData.StampsIdempotent | app/Traits/ModelMetaData.php:9-28 | stamping again for the same request changes nothing |
| ModelMetaData.LastThree | app/Traits/ModelMetaData.php:65 | `substr($col, -3)`: the last three characters, or the whole of a shorter string |
| ModelMetaData.FieldFor | app/Models/BaseModel.php:29-33 | a column becomes an exact filter exactly when it is `id` or ends in `_id` or `_by`. The filter is unqualified exactly for a joined column, and table-qualified otherwise |
| ModelMetaData.Fields | app/Models/BaseModel.php:19-36 | one entry per listed column, in the order of the raw then joined columns with the hidden ones removed |
| ModelMetaData.FieldsRespectHidden | app/Models/BaseModel.php:21-33 | no hidden column is offered, every offered column is raw or joined, and key columns are exact filters, table-qualified unless joined |
| ModelMetaData.FieldsListVisibleColumns | app/Models/BaseModel.php:21-27 | a column is offered exactly when it is a raw or joined column and not hidden |
| BaseModel.Model.Creating | app/Traits/ModelMetaData.php:11-15 | the instance's audit columns become the `creating` stamps |
| BaseModel.Model.Updating | app/Traits/ModelMetaData.php:17-27 | the instance's audit columns become the `updating` stamps |
| BaseModel.Model.Save | app/Traits/ModelMetaData.php:9-28 | a new instance is stamped as created and inserted. An existing one that differs from its original attributes is stamped as updated, gets `updated_at` = now unless that column is already dirty, and only its dirty columns are written over the stored row. A clean one is left alone. The original attributes then equal the instance |
| BaseModel.Model.RunSoftDelete | app/Traits/MySoftDeletes.php:16-33 | the instance and only the stored row with its key get `deleted_at` = now, `deleted_by` = the actor, and `updated_at` = now when timestamps are on; the original attributes are left as they were |
| BaseModel.Model.Restore | app/Traits/MySoftDeletes.php:35-57 | a vetoed restore returns false and changes nothing. Otherwise it returns true, and the instance and the row are what `RestoreOutcome` gives: the deletion columns cleared on the instance, then saved |
| BaseModel.WriteDirty | app/Traits/MySoftDeletes.php:52 | the update of the dirty columns: with nothing dirty the stored row is kept; when the stored row equals the original attributes, it becomes the instance |
| BaseModel.RestoreOutcome | app/Traits/MySoftDeletes.php:35-57 | the instance ends live with no deleter and its creator kept. When the stored row equals the original attributes, as for a freshly loaded instance, the row becomes the instance. When the instance and its original were both live, the row keeps its own `deleted_at` |
| BaseModel.RestoreAfterOwnDeleteLeavesRowTrashed | app/Traits/MySoftDeletes.php:16-57 | after `delete()` and then `restore()` on the same live instance, the instance reads as live and the row is still trashed at the delete's time |
| BaseModel.GetFields | app/Models/BaseModel.php:19-36 | the loop over the columns builds exactly the filter list `Fields` describes |
| MySoftDeletes.SoftDeleted | app/Traits/MySoftDeletes.php:19-31 | the row is trashed at `now` by the deleter, audit stamps are kept, and `updated_at` is now when timestamps are on |
| MySoftDeletes.Restored | app/Traits/MySoftDeletes.php:44-45 | the row is live with no deleter, and audit stamps are kept |
| MySoftDeletes.RestoreUndoesSoftDelete | app/Scopes/MySoftDeletingScope.php:15-34 | the builder's delete followed by the builder's restore gives a live row every audit column it had before, `updated_at` aside |
| MySoftDeletingScope.Builder.IncludeTrashed | app/Scopes/MySoftDeletingScope.php:29 | the query now includes trashed rows |
| MySoftDeletingScope.Builder.OnDelete | app/Scopes/MySoftDeletingScope.php:10-23 | every matched row is soft-deleted by the actor at `now`; no row leaves the table; unmatched rows are unchanged |
| MySoftDeletingScope.Builder.Restore | app/Scopes/MySoftDeletingScope.php:24-34 | the query is widened to trashed rows and every selected row gets its deletion columns cleared |
| MySoftDeletingScope.DeleteKeepsRowsRestoreRevives | app/Scopes/MySoftDeletingScope.php:10-34 | a builder delete keeps every key; a following restore revives every selected row with its creator |
| SpaceController.Store | app/Http/Controllers/SpaceController.php:75-97 | the store ends in the state `StoreEffect` describes: space, then the actor's membership, then an owner role |
| SpaceController.UpdateGate | app/Http/Controllers/SpaceController.php:194-197 | the action goes ahead only for a bound live space |
| SpaceController.Update | app/Http/Controllers/SpaceController.php:194-201 | the store ends in the state `UpdateEffect` describes |
| SpaceController.Destroy | app/Http/Controllers/SpaceController.php:211-215 | the store ends in the state `DestroyEffect` describes |
| SpaceController.DisplayState | app/Http/Controllers/SpaceController.php:112 | a missing display state reads as `normal` |
| SpaceController.UploadImages | app/Http/Controllers/SpaceController.php:107-156 | the store ends in the state `UploadImagesEffect` describes |
| SpaceController.StoreImage | app/Http/Controllers/SpaceController.php:111-130 | one image on the store: the state `ReplaceImage` describes |
| SpaceController.StoreSlot | app/Http/Controllers/SpaceController.php:113-116 | `firstOrCreate` on the store: the slot and state `SlotFor` describes |
| SpaceController.StoreFile | app/Http/Controllers/SpaceController.php:118-129 | dropping the slot's file and attaching the upload: the state `FillSlot` describes |
| SpaceControllerProperties.StoreMakesActorOwner | app/Http/Controllers/SpaceController.php:77-92 | one space, one member and one role are appended. The space has the request's privacy, `owner_id` is the actor and the actor's role in it is owner. The policies let the actor edit and delete it, and the invariants hold |
| SpaceControllerProperties.SaveSpaceEdits | app/Http/Controllers/SpaceController.php:196-198 | a save changes only that space, and only its fillable columns, privacy and `updated_by` |
| SpaceControllerProperties.SaveSpaceConsistent | app/Http/Controllers/SpaceController.php:196-198 | a save keeps the invariants |
| SpaceControllerProperties.UpdateKeepsConsistent | app/Http/Controllers/SpaceController.php:194-201 | an edit keeps the invariants |
| SpaceControllerProperties.UpdateTouchesOnlyTheSpace | app/Http/Controllers/SpaceController.php:194-201 | 404 exactly for an unbound space, 200 exactly for an owner or admin. A refused edit changes nothing; a permitted one changes only that row's fillable columns and privacy |
| SpaceControllerProperties.DestroyHidesTheSpace | app/Http/Controllers/SpaceController.php:211-215 | 204 exactly for the `owner_id` user; the space is then trashed by the actor and no longer binds; nothing else changes; the invariants hold |
| SpaceControllerProperties.AttachFileConsistent | app/Http/Controllers/SpaceController.php:122-129 | attaching a file to an empty slot keeps the invariants |
| SpaceControllerProperties.SlotForFindsOrAdds | app/Http/Controllers/SpaceController.php:113-116 | the result is a live slot of that space, kind and state; an existing slot is reused, and one is added exactly when there was none |
| SpaceControllerProperties.DropSlotFileEmptiesSlot | app/Http/Controllers/SpaceController.php:118-120 | afterwards the slot holds no live file and no other table changed |
| SpaceControllerProperties.ImageIfGivenFrame | app/Http/Controllers/SpaceController.php:111 | handling one optional image touches only slots and files |
| SpaceControllerProperties.ReplaceImageFrame | app/Http/Controllers/SpaceController.php:111-130 | replacing one image touches only slots and files |
| SpaceControllerProperties.FillSlotConsistent | app/Http/Controllers/SpaceController.php:118-129 | dropping and attaching keeps the invariants |
| SpaceControllerProperties.ReplaceImageConsistent | app/Http/Controllers/SpaceController.php:111-130 | replacing an image of a live space keeps the invariants |
| SpaceControllerProperties.ReplaceImageKeepsOneFile | app/Http/Controllers/SpaceController.php:111-130 | the upload lands in a live slot of that kind and state, a slot is added only when none existed, and the upload is the slot's only live file |
| SpaceControllerProperties.FillSlotHoldsOneFile | app/Http/Controllers/SpaceController.php:118-129 | the slot's only live file is the one just attached |
| SpaceControllerProperties.UploadKeepsConsistent | app/Http/Controllers/SpaceController.php:107-156 | an upload keeps the invariants |
| SpaceControllerProperties.UploadRequiresUpdateRight | app/Http/Controllers/SpaceController.php:109 | 200 exactly when the actor may edit the space; a refused upload changes nothing; an upload changes only slots and files |
| ChannelController.ChannelAt | app/Scopes/ChannelScope.php:19-30 | route binding of a channel yields the live row with that id, as the scope lets the actor see it |
| ChannelController.StoreGate | app/Http/Controllers/ChannelController.php:71-75 | the action goes ahead only for a bound live space |
| ChannelController.Store | app/Http/Controllers/ChannelController.php:71-88 | the store ends in the state `StoreEffect` describes: the channel, then the owner membership |
| ChannelController.UpdateGate | app/Http/Controllers/ChannelController.php:126-128 | the action goes ahead only for a bound space and channel |
| ChannelController.Update | app/Http/Controllers/ChannelController.php:126-132 | the store ends in the state `UpdateEffect` describes |
| ChannelController.DestroyGate | app/Http/Controllers/ChannelController.php:143-145 | the action goes ahead only for a bound space and channel |
| ChannelController.Destroy | app/Http/Controllers/ChannelController.php:143-147 | the store ends in the state `DestroyEffect` describes |
| ChannelControllerProperties.StoreRequiresMembership | app/Http/Controllers/ChannelController.php:71-88 | 404 exactly for an unbound space and 200 exactly for a member of it. A refused request changes nothing, and the invariants hold |
| ChannelControllerProperties.StoreMakesActorOwner | app/Http/Controllers/ChannelController.php:73-83 | one channel, in the route space, with `owner_id` = actor, and one membership (actor, owner) are appended. That membership is the channel's only one, and the actor may edit and delete the channel |
| ChannelControllerProperties.NewChannelOwnerFound | app/Http/Controllers/ChannelController.php:79-83 | in a new channel the owner membership is the only one, and the lookup finds it |
| ChannelControllerProperties.SaveChannelEdits | app/Http/Controllers/ChannelController.php:128-129 | a save changes only that channel, and only its fillable columns, privacy and `updated_by` |
| ChannelControllerProperties.SaveChannelConsistent | app/Http/Controllers/ChannelController.php:128-129 | a save keeps the invariants |
| ChannelControllerProperties.UpdateKeepsConsistent | app/Http/Controllers/ChannelController.php:126-132 | an edit keeps the invariants |
| ChannelControllerProperties.UpdateRequiresChannelManager | app/Http/Controllers/ChannelController.php:126-132 | 404 exactly for an unbound route or a channel of another space; 200 exactly for an owner or admin of the channel; a refused edit changes nothing |
| ChannelControllerProperties.UpdateTouchesOnlyTheChannel | app/Http/Controllers/ChannelController.php:128-129 | at most the bound channel changes, never its id, space, owner or deletion stamps; it takes the request's fillable values and privacy |
| ChannelControllerProperties.DestroyRequiresOwner | app/Http/Controllers/ChannelController.php:143-147 | 204 exactly for the `owner_id` user, whichever bound space the route names; a refused delete changes nothing |
| ChannelControllerProperties.DestroyHidesTheChannel | app/Http/Controllers/ChannelController.php:145 | a deleted channel no longer binds and records its deleter; memberships and other rows stay; the invariants hold |
| SpaceMemberController.StoreGate | app/Http/Controllers/SpaceMemberController.php:71-87 | the action goes ahead only for a bound live space |
| SpaceMemberController.Store | app/Http/Controllers/SpaceMemberController.php:71-104 | the store ends in the state `StoreEffect` describes: the membership, then its `member` role |
| SpaceMemberController.UpdateGate | app/Http/Controllers/SpaceMemberController.php:142-144 | the action goes ahead only for a bound space and member |
| SpaceMemberController.Update | app/Http/Controllers/SpaceMemberController.php:142-150 | the store ends in the state `UpdateEffect` describes |
| SpaceMemberController.DestroyGate | app/Http/Controllers/SpaceMemberController.php:161-163 | the action goes ahead only for a bound space and member |
| SpaceMemberController.Destroy | app/Http/Controllers/SpaceMemberController.php:161-166 | the store ends in the state `DestroyEffect` describes: role rows, then the membership |
| SpaceMemberControllerProperties.NewMemberReadsAsMember | app/Http/Controllers/SpaceMemberController.php:95-99 | the new member's role reads `member` |
| SpaceMemberControllerProperties.StoreAddsMemberWithDefaultRole | app/Http/Controllers/SpaceMemberController.php:71-104 | 404, the policy's 403, then 422 for a user already in the space, and 200 otherwise; a refused request changes nothing. On success one membership is appended, for the request's user, along with one `member` role row for it. The invariants hold |
| SpaceMemberControllerProperties.StoreNeverDuplicates | app/Http/Controllers/SpaceMemberController.php:73-87 | a user already in the space is never added again, and nothing changes |
| SpaceMemberControllerProperties.UpdateOnlyBySelf | app/Http/Controllers/SpaceMemberController.php:142-150 | 404 exactly for an unbound route or a member of another space; 200 exactly for the member themself; a refused edit changes nothing |
| SpaceMemberControllerProperties.UpdateTouchesOnlyTheProfile | app/Http/Controllers/SpaceMemberController.php:144-145 | only the bound member's fillable columns and `updated_by` change; the invariants hold |
| SpaceMemberControllerProperties.OnlyRoleRow | app/Models/SpaceMember.php:58-62 | under unique role rows, any live role row of a member is the one its role reads |
| SpaceMemberControllerProperties.DestroyFollowsPolicy | app/Http/Controllers/SpaceMemberController.php:161-166 | 204 exactly for a bound route the delete policy allows; a refused removal changes nothing |
| SpaceMemberControllerProperties.DestroyKeepsConsistent | app/Http/Controllers/SpaceMemberController.php:161-166 | a removal keeps the invariants, one owner per space included |
| SpaceMemberControllerProperties.RemoveMemberConsistent | app/Http/Controllers/SpaceMemberController.php:163-164 | deleting a membership without an owner role, role rows first, keeps the invariants |
| SpaceMemberControllerProperties.DestroyRemovesRoleThenMember | app/Http/Controllers/SpaceMemberController.php:163-164 | every live role row of the member and then the membership are trashed by the actor; the user is no longer in the space; nothing else changes |
| SpaceMemberRoleController.StoreGate | app/Http/Controllers/SpaceMemberRoleController.php:58-60 | the action goes ahead only for a bound space and member |
| SpaceMemberRoleController.Store | app/Http/Controllers/SpaceMemberRoleController.php:58-71 | the store ends in the state `StoreEffect` describes |
| SpaceMemberRoleController.UpdateGate | app/Http/Controllers/SpaceMemberRoleController.php:100-102 | the action goes ahead only for a bound space, member and role |
| SpaceMemberRoleController.Update | app/Http/Controllers/SpaceMemberRoleController.php:100-108 | the store ends in the state `UpdateEffect` describes |
| SpaceMemberRoleController.OwnRoleIndex | app/Http/Controllers/SpaceMemberRoleController.php:124-126 | the actor's own live role row in the space, present exactly when the actor is a member with a role row |
| SpaceMemberRoleController.TransferGate | app/Http/Controllers/SpaceMemberRoleController.php:120-122 | a transfer goes ahead only for a bound route and an actor with a role row |
| SpaceMemberRoleController.TransferOwnership | app/Http/Controllers/SpaceMemberRoleController.php:120-138 | the store ends in the state of the corrected transfer `TransferEffect` (see Findings) |
| SpaceMemberRoleController.DestroyGate | app/Http/Controllers/SpaceMemberRoleController.php:150-152 | the action goes ahead only for a bound space, member and role |
| SpaceMemberRoleController.Destroy | app/Http/Controllers/SpaceMemberRoleController.php:150-154 | the store ends in the state `DestroyEffect` describes |
| SpaceMemberRoleControllerProperties.StoreFollowsPolicy | app/Http/Controllers/SpaceMemberRoleController.php:58-71 | 200 exactly when the route binds and matches, the actor manages the space, the role is not owner and the member has no role row; 404 exactly on a bad route; a refused request changes nothing |
| SpaceMemberRoleControllerProperties.StoreAttachesRole | app/Http/Controllers/SpaceMemberRoleController.php:60-66 | the new row belongs to the route member, repeats its space and user, carries the requested role or `member`, and is what the member's role then reads; the invariants hold |
| SpaceMemberRoleControllerProperties.UpdateFollowsPolicy | app/Http/Controllers/SpaceMemberRoleController.php:100-108 | 200 exactly when the route matches, the actor manages the space and neither role is owner; a refused edit changes nothing |
| SpaceMemberRoleControllerProperties.UpdateChangesOnlyRole | app/Http/Controllers/SpaceMemberRoleController.php:102-103 | only the route row's `role` and `updated_by` change; the invariants hold |
| SpaceMemberRoleControllerProperties.TransferOnlyByOwner | app/Http/Controllers/SpaceMemberRoleController.php:122 | 200 exactly when the route matches and the actor is the owner, before any write; a refused transfer changes nothing |
| SpaceMemberRoleControllerProperties.OwnerRowOfOwner | app/Http/Controllers/SpaceMemberRoleController.php:124-126 | the owner's own role row is the space's owner role, and `owner_id` names the owner |
| SpaceMemberRoleControllerProperties.TransferFacts | app/Http/Controllers/SpaceMemberRoleController.php:120-133 | a permitted transfer starts from the owner's row and a live target row of the route member; the two are the same row exactly when the target is the actor |
| SpaceMemberRoleControllerProperties.SwapOwnerConsistent | app/Http/Controllers/SpaceMemberRoleController.php:124-133 | demoting the owner, promoting another member and repointing `owner_id` keeps the invariants |
| SpaceMemberRoleControllerProperties.TransferToOtherKeepsOneOwner | app/Http/Controllers/SpaceMemberRoleController.php:124-133 | to another member: the actor ends as admin, the target as owner, `owner_id` becomes the target's user, the space has exactly one owner, and the invariants hold |
| SpaceMemberRoleControllerProperties.TransferToSelfKeepsOwner | app/Http/Controllers/SpaceMemberRoleController.php:124-133 | corrected transfer to oneself: the actor stays owner, spaces are unchanged, and the invariants hold |
| SpaceMemberRoleControllerProperties.TransferKeepsConsistent | app/Http/Controllers/SpaceMemberRoleController.php:120-138 | every corrected transfer keeps the invariants |
| SpaceMemberRoleControllerProperties.AsWrittenAgreesForOthers | app/Http/Controllers/SpaceMemberRoleController.php:124-133 | the code as written and the corrected transfer agree whenever the target is another member |
| SpaceMemberRoleControllerProperties.AsWrittenSelfTransferLeavesNoOwner | app/Http/Controllers/SpaceMemberRoleController.php:124-130 | as written, a transfer to one's own role row answers 200 and leaves the live space with no owner role, breaking the invariants |
| SpaceMemberRoleControllerProperties.DestroyFollowsPolicy | app/Http/Controllers/SpaceMemberRoleController.php:150-154 | 204 exactly when the route matches, the role is not owner and the actor manages the space; a refused removal changes nothing |
| SpaceMemberRoleControllerProperties.DestroyLeavesDefaultRole | app/Http/Controllers/SpaceMemberRoleController.php:152 | only the route role row is trashed, by the actor, and the member's role then reads as the default `member` without an id; the invariants hold |
| ChannelMemberController.StoreGate | app/Http/Controllers/ChannelMemberController.php:73-88 | the action goes ahead only for a bound space and channel |
| ChannelMemberController.Store | app/Http/Controllers/ChannelMemberController.php:73-100 | the store ends in the state `StoreEffect` describes |
| ChannelMemberController.UpdateGate | app/Http/Controllers/ChannelMemberController.php:139-141 | the action goes ahead only for a bound route whose update the policy allows |
| ChannelMemberController.Update | app/Http/Controllers/ChannelMemberController.php:139-147 | the store ends in the state `UpdateEffect` describes |
| ChannelMemberController.DestroyGate | app/Http/Controllers/ChannelMemberController.php:159-161 | the action goes ahead only for a bound space, channel and member |
| ChannelMemberController.Destroy | app/Http/Controllers/ChannelMemberController.php:159-163 | the store ends in the state `DestroyEffect` describes |
| ChannelMemberControllerProperties.StoreFollowsPolicy | app/Http/Controllers/ChannelMemberController.php:73-100 | 404 exactly for a bad route, then the policy, then 422 exactly for a user already in the channel, and 200 otherwise; a refused request changes nothing |
| ChannelMemberControllerProperties.StoreNeverOutranksActor | app/Policies/ChannelMemberPolicy.php:81-100 | an added membership is never owner, its user is in the space, and it never outranks the actor (or it is a self-join of a public channel as `member`) |
| ChannelMemberControllerProperties.StoreAddsOneMembership | app/Http/Controllers/ChannelMemberController.php:90-95 | one membership of the route channel is appended, for the request's user and role, and it is that user's only live one; the invariants hold |
| ChannelMemberControllerProperties.StoreNeverDuplicates | app/Http/Controllers/ChannelMemberController.php:75-88 | a user already in the channel is never added again, and nothing changes |
| ChannelMemberControllerProperties.UpdateFollowsPolicy | app/Http/Controllers/ChannelMemberController.php:139-147 | 200 exactly when the route matches and the policy's rank rules hold; a refused edit changes nothing |
| ChannelMemberControllerProperties.RankRulesKeepOwner | app/Policies/ChannelMemberPolicy.php:121-151 | under the rank rules, the new role is owner exactly when the old one was |
| ChannelMemberControllerProperties.UpdateKeepsOwnership | app/Policies/ChannelMemberPolicy.php:110-153 | a permitted edit neither makes nor unmakes an owner |
| ChannelMemberControllerProperties.UpdateChangesOnlyRole | app/Http/Controllers/ChannelMemberController.php:141-142 | only the route membership's role and `updated_by` change; ownership is kept; the invariants hold |
| ChannelMemberControllerProperties.DestroyFollowsPolicy | app/Http/Controllers/ChannelMemberController.php:159-163 | 204 exactly when the route matches and the delete policy holds; a refused removal changes nothing |
| ChannelMemberControllerProperties.DestroyRemovesMembership | app/Http/Controllers/ChannelMemberController.php:161 | only that membership is trashed, by the actor; the user is no longer in the channel; the invariants hold |
| ItemResource.KeyStringRoundTrip | app/Http/Resources/ItemResource.php:27 | `(string) getKey()` is all digits, reads back as the key, and is empty exactly for a null key |
| ItemResource.SelfLink | app/Http/Resources/ItemResource.php:33-37 | `links.self` is present exactly for a truthy link, and is that link |
| ItemResource.ToArray | app/Http/Resources/ItemResource.php:12-17 | the document of the resource's own model under its morph class, linked to the request URL |
| ItemResource.FormatResource | app/Http/Resources/ItemResource.php:19-42 | builds exactly the document `Format` specifies |
| ItemResource.ProcessRelations | app/Http/Resources/ItemResource.php:44-66 | the loop over the loaded relations builds exactly `RelationsData`: each relation except `pivot`, in order |
| ItemResource.ProcessCollection | app/Http/Resources/ItemResource.php:68-88 | the loop over a collection appends exactly its step: identifiers and includes of its non-pivot models, in order |
| ItemResource.ProcessModel | app/Http/Resources/ItemResource.php:90-108 | a single relation appends exactly its step, using the related prototype for a null relation |
| ItemResourceProperties.FormatHeader | app/Http/Resources/ItemResource.php:25-37 | `type` is the name and `attributes` the model's. `id` is all digits, reads back as the key, and is empty exactly for a null key. `links.self` is present exactly for a truthy link |
| ItemResourceProperties.RelationStepAddsKey | app/Http/Resources/ItemResource.php:68-108 | a relation's step adds exactly one key, its name |
| ItemResourceProperties.RelationshipKeys | app/Http/Resources/ItemResource.php:53-63 | `relationships` has one key per loaded relation except `pivot`, in load order |
| ItemResourceProperties.PivotNeverServed | app/Http/Resources/ItemResource.php:55-57 | no relation is ever serialised under `pivot` |
| ItemResourceProperties.CollectionServesEachModel | app/Http/Resources/ItemResource.php:76-87 | for each non-pivot model, in order, one identifier of it and one include formatting it without a link; an empty collection gives `data: []` |
| ItemResourceProperties.LinkageMatchesIncludes | app/Http/Resources/ItemResource.php:84-85 | the i-th identifier has the type and the stringified id of the i-th include |
| ItemResourceProperties.NullRelationUsesPrototype | app/Http/Resources/ItemResource.php:98-106 | a null single relation yields an identifier with a null id and an include of a blank instance of the related class |
| SocialAccountsService.FirstSpace | app/Services/SocialAccountsService.php:46 | the position of the first space, with no space before it; none exactly when there is no space |
| SocialAccountsService.SplitName | app/Services/SocialAccountsService.php:45-52 | the first name has no space. With a space in the name, first + " " + last is the name; without one, the first name is the whole name and the last is empty |
| SocialAccountsService.ProfileOwner | app/ACL/UserProfileACL.php:16 | the new profile belongs to the actor when there is one, else to the new user |
| SocialAccountsService.FindOrCreateEffect | app/Services/SocialAccountsService.php:21-67 | a TypeError writes nothing; a returned user is never trashed |
| SocialAccountsService.AccountStore.FindOrCreate | app/Services/SocialAccountsService.php:21-67 | the result and the new tables are those `FindOrCreateEffect` gives for the actor the profile hook reads from the cache or the session; a coherent cache stays coherent |
| SocialAccountsServiceProperties.LinkedUserKeyed | app/Services/SocialAccountsService.php:28 | `->user` is the account's user row, or null when that user is trashed (which `findOrCreate` then returns as a TypeError) |
| SocialAccountsServiceProperties.FindLinkAppended | app/Services/SocialAccountsService.php:23-25 | a link added after a search found none is what the next search finds |
| SocialAccountsServiceProperties.ExistingLinkDecides | app/Services/SocialAccountsService.php:23-28 | an existing link for (provider, provider id) decides the result: its user, or a TypeError when that user is trashed; nothing is written |
| SocialAccountsServiceProperties.NoEmailNoUser | app/Services/SocialAccountsService.php:31-37 | with no link and no usable email, the null return fails the declared `User` return type: a TypeError, and nothing is written |
| SocialAccountsServiceProperties.KnownEmailOnlyLinks | app/Services/SocialAccountsService.php:34-39 | the first live user with that email is returned; no user or profile is created; exactly one link to that user is appended |
| SocialAccountsServiceProperties.NewEmailRegisters | app/Services/SocialAccountsService.php:39-63 | a new live user with that email is appended, with a profile named from the split display name and owned by the actor if there is one, else by the new user, and exactly one link to it |
| SocialAccountsServiceProperties.RegisteringAddsOneLink | app/Services/SocialAccountsService.php:60-65 | every path past the early returns appends exactly one link, for this provider account, to the returned user |
| SocialAccountsServiceProperties.FindOrCreateKeepsValid | app/Services/SocialAccountsService.php:21-67 | given an actor that is an existing user, ids stay keyed by position, and every profile and link points at an existing user |
| SocialAccountsServiceProperties.SignInAgainFindsSameUser | app/Services/SocialAccountsService.php:23-28 | when a sign-in returns a user, signing in again with the same provider account returns that user and writes nothing |

## Left out

- File storage is not modelled: S3 uploads, MIME sniffing and base64 decoding are foreign calls. An upload is modelled as a new live file row in its slot.
- Authentication, e-mail verification, password reset and mail are not modelled. The authenticated user is the `auth` parameter of the identity context.
- The thin controllers (user profile, user setting, user privacy setting, space privacy setting) are not modelled. They fill and save one row, and their rules live in the policies and hooks that are modelled.
- The `index` and `show` actions are not modelled. They are query-builder listings and single reads that change nothing.
- The global scopes whose source is not part of this model (SpaceScope, SpaceMemberScope, ChannelMemberScope, the user-owned scopes) are left out. Route binding of those rows is modelled as "the live row with that id".
- The ORM relation wiring is taken as given lookups over the tables. The role ladder, the privacy levels and the default rows are taken as data.
- Request validation is taken as the types of the inputs: a role is one of the ladder, and a privacy level is one of the three.
- The ownership transfer's three saves are not wrapped in a transaction. They are modelled in sequence; races are out of scope.
- Timestamps are opaque values passed in as `now`.
- `abort(...)` is modelled as an outcome value and an HTTP status, not as an exception.
- app/ACL/ACL.php:67 passes the list of joined space ids to `where`, not `whereIn`. The model uses the intended reading: members of any joined space.
- app/Scopes/MySoftDeletingScope.php:30 calls `$model()` as a function. The model uses the intended reading: the restore clears `deleted_at` and `deleted_by`.
- app/Policies/SpaceMemberPolicy.php:70 compares the role relation object with `'member'`, so that guard never fires. The model follows the code: any member may add users. `SpaceMemberPolicy.CreateAsCommented` states the rule the comment describes, and `SpaceMemberPolicy.CreateDiffersFromCommentOnlyForPlainMembers` shows where the two differ.
- The `updating` and `deleting` hooks of app/ACL/SpaceACL.php:19-33 are empty, as are all the hooks of SpaceMemberACL, SpaceMemberRoleACL, SpacePrivacySettingACL and ChannelMemberACL. ChannelACL registers only `creating`. So only the `creating` hooks are modelled, and an edit or delete of those rows goes through the controllers' effects unchanged.
- ACL.IdentityContext.GetSpaces: requires an authenticated user, because with none the source dereferences a null user. The same holds for GetChannels, GetVisibleUserIds, GetVisibleSpaceIds and ChannelACL.ScopedChannels.
- ItemResource.ProcessCollection: the `isset` merge of two relations with the same name is not modelled, because relation names are array keys in PHP and so are unique.
- ItemResource.ProcessCollection: a null entry inside a collection is not modelled. Its fallback calls a relation method on the collection itself.
- ItemResource.FormatResource: attribute casting, hidden attributes and the exact JSON encoding are not modelled. Attributes are a map from names to strings.
- SocialAccountsService.AccountStore.FindOrCreate: the random password hash is the parameter `password`.
- SocialAccountsService.AccountStore.FindOrCreate: a TypeError is a result value, not an exception; the caller would answer it with a server error.
- SocialAccountsService.AccountStore.FindOrCreate: the audit stamps of the rows created at sign-in are not modelled.
- SocialAccountsService.AccountStore.FindOrCreate: the LinkedSocialAccount model is not part of this model, so the links table is read without a scope.
- SocialAccountsService.NewProfile: a missing provider name is split as the empty string.
- The localisation middleware, listeners, mail, routes, migrations (beyond their unique keys), factories, seeders and providers are not modelled.

## Findings

| source | as written | input that shows it | evidently intended | confidence | as-written member | corrected member |
|---|---|---|---|---|---|---|
| app/Http/Controllers/SpaceMemberRoleController.php:120-138 | `transferOwnership` first saves the actor's role row, freshly loaded, as `admin`. It then sets the route's role object, loaded before that save, to `owner` and saves it; Eloquent skips that save when the object already said `owner`. | The owner transfers ownership to their own membership and role row. The row ends as `admin` and the space has no owner role. | A transfer to oneself leaves the owner as owner, so every space keeps exactly one owner. | not executed | SpaceMemberRoleControllerProperties.AsWrittenSelfTransferLeavesNoOwner | SpaceMemberRoleControllerProperties.TransferToSelfKeepsOwner |
