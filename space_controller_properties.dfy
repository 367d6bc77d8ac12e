/**
 * What the SpaceController actions guarantee: the invariants of the tables
 * survive every action, each action answers 200/204 exactly when its
 * policy allows it, and it changes only the rows it is meant to change.
 */
module SpaceControllerProperties {
  import opened Wrappers
  import opened Seqs
  import opened Roles
  import opened Schema
  import opened Database
  import opened Invariants
  import ModelMetaData
  import SpacePolicy
  import opened SpaceController

  // ---- store ----

  /**
   * A new space is owned by its creator: exactly one space, one member and
   * one role row are added; the actor is the space's only owner, so the
   * policies let them edit and delete it; and the invariants still hold.
   */
  lemma StoreMakesActorOwner(db: Db, actor: UserId, privacy: Privacy, input: map<string, string>)
    requires Consistent(db)
    ensures var r := StoreEffect(db, actor, privacy, input);
      && r.status == 200
      && Consistent(r.db)
      && |r.db.spaces| == |db.spaces| + 1 && r.db.spaces[..|db.spaces|] == db.spaces
      && |r.db.members| == |db.members| + 1 && r.db.members[..|db.members|] == db.members
      && |r.db.roles| == |db.roles| + 1 && r.db.roles[..|db.roles|] == db.roles
      && r.db.channels == db.channels && r.db.channelMembers == db.channelMembers
      && r.db.slots == db.slots && r.db.files == db.files
      && var space := r.db.spaces[|db.spaces|];
         && SpaceAt(r.db, space.id) == Some(space)
         && space.privacy == privacy
         && space.ownerId == Some(actor)
         && ActorRole(r.db, space.id, actor) == Some(Owner)
         && SpacePolicy.Update(r.db, actor, space) == Allow
         && SpacePolicy.Delete(actor, space) == Allow
  {
    var r := StoreEffect(db, actor, privacy, input);
    var space := NewSpace(db, actor, privacy, input);
    var member := r.db.members[|db.members|];
    var role := r.db.roles[|db.roles|];
    assert OwnedSpaceRows(db, space, member, role);
    AddOwnedSpaceConsistent(db, space, member, role);
    NewSpaceOwnerRole(db, space, member, role);
    assert r.db.roles[..|db.roles|] == db.roles;
    assert r.db.members[..|db.members|] == db.members;
    assert r.db.spaces[..|db.spaces|] == db.spaces;
  }

  // ---- update ----

  /**
   * Saving changes only row `k` of the spaces, and that row only in its
   * fillable columns, its privacy and its `updated_by` stamp.
   */
  lemma SaveSpaceEdits(db: Db, actor: UserId, k: nat, privacy: Option<Privacy>, input: map<string, string>)
    requires k < |db.spaces|
    ensures var r := SaveSpace(db, actor, k, privacy, input);
      && r.members == db.members && r.roles == db.roles && r.channels == db.channels
      && |r.spaces| == |db.spaces|
      && (forall q :: 0 <= q < |db.spaces| && q != k ==> r.spaces[q] == db.spaces[q])
      && var before, after := db.spaces[k], r.spaces[k];
         && after.id == before.id && after.ownerId == before.ownerId
         && after.meta.createdBy == before.meta.createdBy && Live(after.meta) == Live(before.meta)
         && after.attrs == Fill(before.attrs, input, Fillable)
         && after.privacy == privacy.GetOr(before.privacy)
  {
  }

  lemma SaveSpaceConsistent(db: Db, actor: UserId, k: nat, privacy: Option<Privacy>, input: map<string, string>)
    requires Consistent(db) && k < |db.spaces|
    ensures Consistent(SaveSpace(db, actor, k, privacy, input))
  {
    var space := db.spaces[k];
    SetSpaceConsistent(db, k, space.(privacy := privacy.GetOr(space.privacy),
                                     attrs := Fill(space.attrs, input, Fillable),
                                     meta := ModelMetaData.StampUpdated(space.meta, Some(actor))));
  }

  /** An edit of a space keeps the invariants. */
  lemma UpdateKeepsConsistent(db: Db, actor: UserId, spaceId: nat, privacy: Option<Privacy>,
                              input: map<string, string>)
    requires Consistent(db)
    ensures Consistent(UpdateEffect(db, actor, spaceId, privacy, input).db)
  {
    if UpdateGate(db, actor, spaceId) == 200 {
      var k := spaceId - 1;
      SaveSpaceConsistent(db, actor, k, privacy, input);
    }
  }

  /**
   * An edit succeeds exactly for a live space and an owner or admin; it
   * changes at most that space's row, and never its id, owner or deletion
   * stamps.
   */
  lemma UpdateTouchesOnlyTheSpace(db: Db, actor: UserId, spaceId: nat, privacy: Option<Privacy>,
                                  input: map<string, string>)
    requires SpacesKeyed(db.spaces)
    ensures var r := UpdateEffect(db, actor, spaceId, privacy, input);
      && (r.status == 404 <==> SpaceAt(db, spaceId).None?)
      && (r.status == 200 <==> SpaceAt(db, spaceId).Some? && IsSpaceManager(db, spaceId, actor))
      && (r.status == 200 || r.status == 403 || r.status == 404)
      && (r.status != 200 ==> r.db == db)
      && r.db.members == db.members && r.db.roles == db.roles && r.db.channels == db.channels
      && |r.db.spaces| == |db.spaces|
      && (forall k :: 0 <= k < |db.spaces| && k != spaceId - 1 ==> r.db.spaces[k] == db.spaces[k])
      && (r.status == 200 ==>
            var before := db.spaces[spaceId - 1];
            var after := r.db.spaces[spaceId - 1];
            && after.id == before.id && after.ownerId == before.ownerId
            && after.meta.createdBy == before.meta.createdBy && Live(after.meta)
            && after.attrs == Fill(before.attrs, input, Fillable)
            && after.privacy == privacy.GetOr(before.privacy))
  {
    if UpdateGate(db, actor, spaceId) == 200 {
      var k := spaceId - 1;
      SaveSpaceEdits(db, actor, k, privacy, input);
    }
  }

  // ---- destroy ----

  /**
   * Only the space's owner (by `owner_id`) deletes it; afterwards the space
   * no longer binds, nothing else changed, and the invariants hold.
   */
  lemma DestroyHidesTheSpace(db: Db, actor: UserId, spaceId: nat, now: Time)
    requires Consistent(db)
    ensures var r := DestroyEffect(db, actor, spaceId, now);
      && Consistent(r.db)
      && (r.status == 404 <==> SpaceAt(db, spaceId).None?)
      && (r.status == 204 <==> SpaceAt(db, spaceId).Some? && LooseEq(actor, db.spaces[spaceId - 1].ownerId))
      && (r.status == 204 || r.status == 403 || r.status == 404)
      && (r.status != 204 ==> r.db == db)
      && (r.status == 204 ==> SpaceAt(r.db, spaceId).None? && r.db.spaces[spaceId - 1].meta.deletedBy == Some(actor))
      && r.db.members == db.members && r.db.roles == db.roles && r.db.channels == db.channels
      && (forall k :: 0 <= k < |db.spaces| && k != spaceId - 1 ==> r.db.spaces[k] == db.spaces[k])
  {
    if SpaceAt(db, spaceId).Some? && LooseEq(actor, db.spaces[spaceId - 1].ownerId) {
      var k := spaceId - 1;
      SetSpaceConsistent(db, k, db.spaces[k].(meta := Trashed(db.spaces[k].meta, now, actor)));
    }
  }

  // ---- uploadImages ----

  lemma AttachFileConsistent(db: Db, actor: UserId, slotId: nat)
    requires Consistent(db) && 1 <= slotId <= |db.slots|
    requires forall j :: 0 <= j < |db.files| ==> !IsSlotFile(db.files[j], slotId)
    ensures Consistent(AttachFile(db, actor, slotId))
  {
    AddFileConsistent(db, FileRow(|db.files| + 1, slotId, ModelMetaData.StampCreated(Blank, Some(actor))));
  }

  /** firstOrCreate reuses a live slot when there is one and otherwise adds exactly one. */
  lemma SlotForFindsOrAdds(db: Db, actor: UserId, kind: ImageKind, spaceId: nat, state: string)
    requires Consistent(db) && SpaceAt(db, spaceId).Some?
    ensures var (d, slot) := SlotFor(db, actor, kind, spaceId, state);
      && Consistent(d)
      && slot < |d.slots| && IsSlot(d.slots[slot], kind, spaceId, state)
      && d.files == db.files && d.spaces == db.spaces && d.members == db.members && d.roles == db.roles
      && d.channels == db.channels && d.channelMembers == db.channelMembers
      && ((exists i :: 0 <= i < |db.slots| && IsSlot(db.slots[i], kind, spaceId, state)) <==> d.slots == db.slots)
  {
    if FirstIndex(db.slots, (s: ImageSlot) => IsSlot(s, kind, spaceId, state)).None? {
      AddSlotConsistent(db, ImageSlot(|db.slots| + 1, kind, spaceId, state, ModelMetaData.StampCreated(Blank, Some(actor))));
    }
  }

  /** After the old file is dropped the slot holds no live file. */
  lemma DropSlotFileEmptiesSlot(db: Db, actor: UserId, slotId: nat, now: Time)
    requires Consistent(db)
    ensures var d := DropSlotFile(db, actor, slotId, now);
      && Consistent(d)
      && d.slots == db.slots && |d.files| == |db.files|
      && d.spaces == db.spaces && d.members == db.members && d.roles == db.roles
      && d.channels == db.channels && d.channelMembers == db.channelMembers
      && forall j :: 0 <= j < |d.files| ==> !IsSlotFile(d.files[j], slotId)
  {
    match FirstIndex(db.files, (f: FileRow) => IsSlotFile(f, slotId))
    case Some(j) =>
      SetFileConsistent(db, j, db.files[j].(meta := Trashed(db.files[j].meta, now, actor)));
    case None =>
  }

  lemma ImageIfGivenFrame(db: Db, given: bool, actor: UserId, kind: ImageKind, spaceId: nat, state: string, now: Time)
    ensures var r := ImageIfGiven(db, given, actor, kind, spaceId, state, now);
      && r.spaces == db.spaces && r.members == db.members && r.roles == db.roles
      && r.channels == db.channels && r.channelMembers == db.channelMembers
  {
    if given {
      ReplaceImageFrame(db, actor, kind, spaceId, state, now);
    }
  }

  /** Replacing one image touches only image slots and files. */
  lemma ReplaceImageFrame(db: Db, actor: UserId, kind: ImageKind, spaceId: nat, state: string, now: Time)
    ensures var r := ReplaceImage(db, actor, kind, spaceId, state, now);
      && r.spaces == db.spaces && r.members == db.members && r.roles == db.roles
      && r.channels == db.channels && r.channelMembers == db.channelMembers
  {
  }

  /** Once the slot exists, dropping its file and attaching the new one keeps the invariants. */
  lemma FillSlotConsistent(db: Db, actor: UserId, slot: nat, now: Time)
    requires Consistent(db) && slot < |db.slots|
    ensures Consistent(FillSlot(db, actor, slot, now))
  {
    DropSlotFileEmptiesSlot(db, actor, slot + 1, now);
    AttachFileConsistent(DropSlotFile(db, actor, slot + 1, now), actor, slot + 1);
  }

  /** Replacing one image of a live space keeps the invariants. */
  lemma ReplaceImageConsistent(db: Db, actor: UserId, kind: ImageKind, spaceId: nat, state: string, now: Time)
    requires Consistent(db) && SpaceAt(db, spaceId).Some?
    ensures Consistent(ReplaceImage(db, actor, kind, spaceId, state, now))
  {
    var found := SlotFor(db, actor, kind, spaceId, state);
    assert Consistent(found.0) && found.1 < |found.0.slots| by {
      SlotForFindsOrAdds(db, actor, kind, spaceId, state);
    }
    FillSlotConsistent(found.0, actor, found.1, now);
  }

  /**
   * One image replaced: the slot used is a live slot of that space, kind
   * and display state; an existing one is reused, so a slot is added only
   * when there was none; and the uploaded file is the only live file of
   * that slot.
   */
  lemma ReplaceImageKeepsOneFile(db: Db, actor: UserId, kind: ImageKind, spaceId: nat, state: string, now: Time)
    requires Consistent(db) && SpaceAt(db, spaceId).Some?
    ensures var r := ReplaceImage(db, actor, kind, spaceId, state, now);
      && ((exists i :: 0 <= i < |db.slots| && IsSlot(db.slots[i], kind, spaceId, state)) <==> r.slots == db.slots)
      && |r.files| > 0
      && var f := r.files[|r.files| - 1];
         && 1 <= f.slotId <= |r.slots| && IsSlot(r.slots[f.slotId - 1], kind, spaceId, state) && Live(f.meta)
         && (forall j :: 0 <= j < |r.files| && IsSlotFile(r.files[j], f.slotId) ==> j == |r.files| - 1)
  {
    var found := SlotFor(db, actor, kind, spaceId, state);
    SlotForFindsOrAdds(db, actor, kind, spaceId, state);
    FillSlotHoldsOneFile(found.0, actor, found.1, now);
  }

  /** After filling, the slot's only live file is the one just attached. */
  lemma FillSlotHoldsOneFile(db: Db, actor: UserId, slot: nat, now: Time)
    requires Consistent(db)
    ensures var r := FillSlot(db, actor, slot, now);
      && r.slots == db.slots && |r.files| == |db.files| + 1
      && var f := r.files[|db.files|];
         && f.slotId == slot + 1 && Live(f.meta)
         && (forall j :: 0 <= j < |r.files| && IsSlotFile(r.files[j], slot + 1) ==> j == |db.files|)
  {
    DropSlotFileEmptiesSlot(db, actor, slot + 1, now);
  }

  /** An upload keeps the invariants. */
  lemma UploadKeepsConsistent(db: Db, actor: UserId, spaceId: nat, avatar: bool, avatarState: Option<string>,
                              banner: bool, bannerState: Option<string>, now: Time)
    requires Consistent(db)
    ensures Consistent(UploadImagesEffect(db, actor, spaceId, avatar, avatarState, banner, bannerState, now).db)
  {
    if UpdateGate(db, actor, spaceId) == 200 {
      var db1 := ImageIfGiven(db, avatar, actor, AvatarImage, spaceId, DisplayState(avatarState), now);
      assert Consistent(db1) && SpaceAt(db1, spaceId).Some? by {
        if avatar {
          ReplaceImageConsistent(db, actor, AvatarImage, spaceId, DisplayState(avatarState), now);
          ReplaceImageFrame(db, actor, AvatarImage, spaceId, DisplayState(avatarState), now);
        }
      }
      if banner {
        ReplaceImageConsistent(db1, actor, BannerImage, spaceId, DisplayState(bannerState), now);
      }
    }
  }

  /**
   * Nothing is touched unless the actor could edit the space, and an
   * upload only ever changes image slots and files.
   */
  lemma UploadRequiresUpdateRight(db: Db, actor: UserId, spaceId: nat, avatar: bool, avatarState: Option<string>,
                                  banner: bool, bannerState: Option<string>, now: Time)
    requires SpacesKeyed(db.spaces)
    ensures var r := UploadImagesEffect(db, actor, spaceId, avatar, avatarState, banner, bannerState, now);
      && (r.status == 200 <==> SpaceAt(db, spaceId).Some? && IsSpaceManager(db, spaceId, actor))
      && (r.status == 404 <==> SpaceAt(db, spaceId).None?)
      && (r.status == 200 || r.status == 403 || r.status == 404)
      && (r.status != 200 ==> r.db == db)
      && r.db.spaces == db.spaces && r.db.members == db.members && r.db.roles == db.roles
      && r.db.channels == db.channels && r.db.channelMembers == db.channelMembers
  {
    if SpaceAt(db, spaceId).Some? && IsSpaceManager(db, spaceId, actor) {
      var db1 := ImageIfGiven(db, avatar, actor, AvatarImage, spaceId, DisplayState(avatarState), now);
      ImageIfGivenFrame(db, avatar, actor, AvatarImage, spaceId, DisplayState(avatarState), now);
      ImageIfGivenFrame(db1, banner, actor, BannerImage, spaceId, DisplayState(bannerState), now);
    }
  }
}
