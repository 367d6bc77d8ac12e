/**
 * SpaceController: creating a space together with its owner membership,
 * editing it, uploading its avatar and banner, and deleting it. Each action
 * is a transition of the tables (a function returning the status and the
 * new tables) and a method that performs it on a Store.
 */
module SpaceController {
  import opened Wrappers
  import opened Seqs
  import opened Roles
  import opened Schema
  import opened Database
  import opened Invariants
  import ModelMetaData
  import SpaceACL
  import SpacePolicy

  /** `Space::$fillable` apart from `privacy`, which the model keeps as its own column. */
  const Fillable: set<string> := {"name", "bio", "website", "phone_number", "latitude", "longitude", "address"}

  // ---- store ----

  /** The space `store` inserts: created by the actor, owner forced by the `creating` hook. */
  function NewSpace(db: Db, actor: UserId, privacy: Privacy, input: map<string, string>): (r: Space)
  {
    var meta := ModelMetaData.StampCreated(Blank.(createdBy := Some(actor)), Some(actor));
    Space(|db.spaces| + 1, privacy, SpaceACL.OwnerOnCreate(Some(actor), meta.createdBy),
          Fill(map[], input, Fillable), meta)
  }

  /**
   * `store`: insert the space, then the actor's membership of it, then an
   * owner role for that membership. Creating a space is open to everybody.
   */
  function StoreEffect(db: Db, actor: UserId, privacy: Privacy, input: map<string, string>): (r: Response)
  {
    var space := NewSpace(db, actor, privacy, input);
    var member := SpaceMember(|db.members| + 1, space.id, actor, map[], ModelMetaData.StampCreated(Blank, Some(actor)));
    var role := SpaceMemberRole(|db.roles| + 1, member.id, space.id, member.userId, Owner,
                                ModelMetaData.StampCreated(Blank, Some(actor)));
    Response(200, AddOwnedSpace(db, space, member, role))
  }

  method Store(st: Store, actor: UserId, privacy: Privacy, input: map<string, string>) returns (status: nat)
    modifies st
    ensures Response(status, st.Snapshot()) == StoreEffect(old(st.Snapshot()), actor, privacy, input)
  {
    var space := NewSpace(st.Snapshot(), actor, privacy, input);
    st.spaces := st.spaces + [space];
    var member := SpaceMember(|st.members| + 1, space.id, actor, map[], ModelMetaData.StampCreated(Blank, Some(actor)));
    st.members := st.members + [member];
    var role := SpaceMemberRole(|st.roles| + 1, member.id, space.id, member.userId, Owner,
                                ModelMetaData.StampCreated(Blank, Some(actor)));
    st.roles := st.roles + [role];
    status := 200;
  }

  // ---- update ----

  /**
   * `update`: fill the space from the request and save it, which writes
   * (and stamps `updated_by`) only when something changed.
   */
  function UpdateEffect(db: Db, actor: UserId, spaceId: nat, privacy: Option<Privacy>,
                        input: map<string, string>): (r: Response)
  {
    var status := UpdateGate(db, actor, spaceId);
    Response(status, if status == 200 then SaveSpace(db, actor, spaceId - 1, privacy, input) else db)
  }

  /**
   * Route binding of `{space}`, then `authorize('update', $space)`: the
   * status of the answer, 200 when the action goes ahead.
   */
  function UpdateGate(db: Db, actor: UserId, spaceId: nat): (status: nat)
    ensures status == 200 ==> SpaceAt(db, spaceId).Some?
  {
    match SpaceAt(db, spaceId)
    case None => 404
    case Some(space) =>
      var o := SpacePolicy.Update(db, actor, space);
      if o != Allow then RejectionStatus(o) else 200
  }

  /** `$space->fill(...)->save()` on the row at position `k`: written only when dirty. */
  function SaveSpace(db: Db, actor: UserId, k: nat, privacy: Option<Privacy>, input: map<string, string>): (r: Db)
    requires k < |db.spaces|
  {
    var space := db.spaces[k];
    var attrs := Fill(space.attrs, input, Fillable);
    var newPrivacy := privacy.GetOr(space.privacy);
    if attrs == space.attrs && newPrivacy == space.privacy then db
    else SetSpace(db, k, space.(privacy := newPrivacy, attrs := attrs,
                               meta := ModelMetaData.StampUpdated(space.meta, Some(actor))))
  }

  method Update(st: Store, actor: UserId, spaceId: nat, privacy: Option<Privacy>, input: map<string, string>)
    returns (status: nat)
    modifies st
    ensures Response(status, st.Snapshot()) == UpdateEffect(old(st.Snapshot()), actor, spaceId, privacy, input)
  {
    var bound := SpaceAt(st.Snapshot(), spaceId);
    if bound.None? {
      return 404;
    }
    var space := bound.value;
    var o := SpacePolicy.Update(st.Snapshot(), actor, space);
    if o != Allow {
      return RejectionStatus(o);
    }
    var attrs := Fill(space.attrs, input, Fillable);
    var newPrivacy := privacy.GetOr(space.privacy);
    if attrs != space.attrs || newPrivacy != space.privacy {
      st.spaces := st.spaces[spaceId - 1 := space.(privacy := newPrivacy, attrs := attrs,
                                                    meta := ModelMetaData.StampUpdated(space.meta, Some(actor)))];
    }
    status := 200;
  }

  // ---- destroy ----

  /** `destroy`: soft-delete the space if the actor is its owner; members and channels stay. */
  function DestroyEffect(db: Db, actor: UserId, spaceId: nat, now: Time): (r: Response)
  {
    match SpaceAt(db, spaceId)
    case None => Response(404, db)
    case Some(space) =>
      var o := SpacePolicy.Delete(actor, space);
      if o != Allow then Response(RejectionStatus(o), db)
      else Response(204, SetSpace(db, spaceId - 1, space.(meta := Trashed(space.meta, now, actor))))
  }

  method Destroy(st: Store, actor: UserId, spaceId: nat, now: Time) returns (status: nat)
    modifies st
    ensures Response(status, st.Snapshot()) == DestroyEffect(old(st.Snapshot()), actor, spaceId, now)
  {
    var bound := SpaceAt(st.Snapshot(), spaceId);
    if bound.None? {
      return 404;
    }
    var space := bound.value;
    var o := SpacePolicy.Delete(actor, space);
    if o != Allow {
      return RejectionStatus(o);
    }
    st.spaces := st.spaces[spaceId - 1 := space.(meta := Trashed(space.meta, now, actor))];
    status := 204;
  }

  // ---- uploadImages ----

  /** `$request->input('avatar_display_state', 'normal') ?? 'normal'`. */
  function DisplayState(given: Option<string>): (s: string)
    ensures given.None? ==> s == "normal"
    ensures given.Some? ==> s == given.value
  {
    given.GetOr("normal")
  }

  predicate IsSlot(s: ImageSlot, kind: ImageKind, spaceId: nat, state: string)
  {
    Live(s.meta) && s.kind == kind && s.spaceId == spaceId && s.displayState == state
  }

  /**
   * `firstOrCreate`: the position of the space's first live slot of this
   * kind and display state, inserting one when there is none.
   */
  function SlotFor(db: Db, actor: UserId, kind: ImageKind, spaceId: nat, state: string): (Db, nat)
  {
    match FirstIndex(db.slots, (s: ImageSlot) => IsSlot(s, kind, spaceId, state))
    case Some(i) => (db, i)
    case None =>
      (AddSlot(db, ImageSlot(|db.slots| + 1, kind, spaceId, state, ModelMetaData.StampCreated(Blank, Some(actor)))),
       |db.slots|)
  }

  predicate IsSlotFile(f: FileRow, slotId: nat)
  {
    Live(f.meta) && f.slotId == slotId
  }

  /** `if ($avatar->file) $avatar->file->delete()`: soft-delete the slot's live file, if any. */
  function DropSlotFile(db: Db, actor: UserId, slotId: nat, now: Time): (r: Db)
  {
    match FirstIndex(db.files, (f: FileRow) => IsSlotFile(f, slotId))
    case Some(j) => SetFile(db, j, db.files[j].(meta := Trashed(db.files[j].meta, now, actor)))
    case None => db
  }

  /**
   * One image of an upload: find or create the slot, soft-delete the file
   * it holds, and attach the uploaded file to it.
   */
  function ReplaceImage(db: Db, actor: UserId, kind: ImageKind, spaceId: nat, state: string, now: Time): (r: Db)
  {
    var found := SlotFor(db, actor, kind, spaceId, state);
    FillSlot(found.0, actor, found.1, now)
  }

  /** The slot at position `slot` gets the uploaded file in place of the one it held. */
  function FillSlot(db: Db, actor: UserId, slot: nat, now: Time): (r: Db)
  {
    AttachFile(DropSlotFile(db, actor, slot + 1, now), actor, slot + 1)
  }

  /** `$avatar->file()->create(...)`: a new live file row in the slot. */
  function AttachFile(db: Db, actor: UserId, slotId: nat): (r: Db)
  {
    AddFile(db, FileRow(|db.files| + 1, slotId, ModelMetaData.StampCreated(Blank, Some(actor))))
  }

  /**
   * `uploadImages`: authorised like an edit of the space; then the avatar
   * and the banner, each only when the request carries one.
   */
  function UploadImagesEffect(db: Db, actor: UserId, spaceId: nat, avatar: bool, avatarState: Option<string>,
                              banner: bool, bannerState: Option<string>, now: Time): (r: Response)
  {
    var status := UpdateGate(db, actor, spaceId);
    if status != 200 then Response(status, db)
    else
      var db1 := ImageIfGiven(db, avatar, actor, AvatarImage, spaceId, DisplayState(avatarState), now);
      Response(200, ImageIfGiven(db1, banner, actor, BannerImage, spaceId, DisplayState(bannerState), now))
  }

  /** `if ($request->hasFile(...))`: replace that image only when one was uploaded. */
  function ImageIfGiven(db: Db, given: bool, actor: UserId, kind: ImageKind, spaceId: nat, state: string, now: Time): (r: Db)
  {
    if given then ReplaceImage(db, actor, kind, spaceId, state, now) else db
  }

  method UploadImages(st: Store, actor: UserId, spaceId: nat, avatar: bool, avatarState: Option<string>,
                      banner: bool, bannerState: Option<string>, now: Time) returns (status: nat)
    modifies st
    ensures Response(status, st.Snapshot())
         == UploadImagesEffect(old(st.Snapshot()), actor, spaceId, avatar, avatarState, banner, bannerState, now)
  {
    var bound := SpaceAt(st.Snapshot(), spaceId);
    if bound.None? {
      return 404;
    }
    var o := SpacePolicy.Update(st.Snapshot(), actor, bound.value);
    if o != Allow {
      return RejectionStatus(o);
    }
    if avatar {
      StoreImage(st, actor, AvatarImage, spaceId, DisplayState(avatarState), now);
    }
    if banner {
      StoreImage(st, actor, BannerImage, spaceId, DisplayState(bannerState), now);
    }
    status := 200;
  }

  /** One image of an upload, on the store. */
  method StoreImage(st: Store, actor: UserId, kind: ImageKind, spaceId: nat, state: string, now: Time)
    modifies st
    ensures st.Snapshot() == ReplaceImage(old(st.Snapshot()), actor, kind, spaceId, state, now)
  {
    var slot := StoreSlot(st, actor, kind, spaceId, state);
    StoreFile(st, actor, slot, now);
  }

  /** `firstOrCreate` on the store: the slot's position, inserted when missing. */
  method StoreSlot(st: Store, actor: UserId, kind: ImageKind, spaceId: nat, state: string) returns (slot: nat)
    modifies st
    ensures (st.Snapshot(), slot) == SlotFor(old(st.Snapshot()), actor, kind, spaceId, state)
  {
    match FirstIndex(st.slots, (s: ImageSlot) => IsSlot(s, kind, spaceId, state)) {
      case Some(i) =>
        slot := i;
      case None =>
        slot := |st.slots|;
        st.slots := st.slots + [ImageSlot(|st.slots| + 1, kind, spaceId, state,
                                          ModelMetaData.StampCreated(Blank, Some(actor)))];
    }
  }

  /** Drop the slot's file and attach the uploaded one, on the store. */
  method StoreFile(st: Store, actor: UserId, slot: nat, now: Time)
    modifies st
    ensures st.Snapshot() == FillSlot(old(st.Snapshot()), actor, slot, now)
  {
    match FirstIndex(st.files, (f: FileRow) => IsSlotFile(f, slot + 1)) {
      case Some(j) =>
        st.files := st.files[j := st.files[j].(meta := Trashed(st.files[j].meta, now, actor))];
      case None =>
    }
    st.files := st.files + [FileRow(|st.files| + 1, slot + 1, ModelMetaData.StampCreated(Blank, Some(actor)))];
  }
}
