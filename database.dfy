/**
 * The tables the controllers write, as an in-memory store, and the
 * invariants the controllers keep on them: keys assigned in insertion
 * order, foreign keys that point at existing rows, at most one live row per
 * membership and per member role, and one owner per live space and per live
 * channel.
 *
 * The migrations declare those unique keys with `deleted_at` as their last
 * column, and a unique index does not treat two NULLs as equal, so the
 * database never rejects a second live row; uniqueness rests on the
 * controllers' own checks before they insert.
 */
module Database {
  import opened Wrappers
  import opened Roles
  import opened Schema
  import MySoftDeletes

  /** What a controller action answers: the HTTP status and the tables afterwards. */
  datatype Response = Response(status: nat, db: Db)

  // ---- Keys ----
  // Auto-increment keys: the row at position `i` has id `i + 1`, and rows are never removed.

  predicate SpacesKeyed(t: seq<Space>)
  {
    forall i :: 0 <= i < |t| ==> t[i].id == i + 1
  }

  predicate MembersKeyed(t: seq<SpaceMember>)
  {
    forall i :: 0 <= i < |t| ==> t[i].id == i + 1
  }

  predicate RolesKeyed(t: seq<SpaceMemberRole>)
  {
    forall i :: 0 <= i < |t| ==> t[i].id == i + 1
  }

  predicate ChannelsKeyed(t: seq<Channel>)
  {
    forall i :: 0 <= i < |t| ==> t[i].id == i + 1
  }

  predicate ChannelMembersKeyed(t: seq<ChannelMember>)
  {
    forall i :: 0 <= i < |t| ==> t[i].id == i + 1
  }

  predicate SlotsKeyed(t: seq<ImageSlot>)
  {
    forall i :: 0 <= i < |t| ==> t[i].id == i + 1
  }

  predicate FilesKeyed(t: seq<FileRow>)
  {
    forall i :: 0 <= i < |t| ==> t[i].id == i + 1
  }

  // ---- Foreign keys: every one names an existing row ----

  predicate MembersInSpaces(spaceCount: nat, members: seq<SpaceMember>)
  {
    forall i :: 0 <= i < |members| ==> 1 <= members[i].spaceId <= spaceCount
  }

  /** A role row hangs off an existing member and repeats that member's space and user. */
  predicate RoleAttached(members: seq<SpaceMember>, r: SpaceMemberRole)
  {
    1 <= r.memberId <= |members|
    && members[r.memberId - 1].spaceId == r.spaceId
    && members[r.memberId - 1].userId == r.userId
  }

  predicate RolesAttached(members: seq<SpaceMember>, roles: seq<SpaceMemberRole>)
  {
    forall i :: 0 <= i < |roles| ==> RoleAttached(members, roles[i])
  }

  predicate ChannelsInSpaces(spaceCount: nat, channels: seq<Channel>)
  {
    forall i :: 0 <= i < |channels| ==> 1 <= channels[i].spaceId <= spaceCount
  }

  predicate ChannelMembersInChannels(channelCount: nat, cms: seq<ChannelMember>)
  {
    forall i :: 0 <= i < |cms| ==> 1 <= cms[i].channelId <= channelCount
  }

  predicate SlotsInSpaces(spaceCount: nat, slots: seq<ImageSlot>)
  {
    forall i :: 0 <= i < |slots| ==> 1 <= slots[i].spaceId <= spaceCount
  }

  predicate FilesInSlots(slotCount: nat, files: seq<FileRow>)
  {
    forall i :: 0 <= i < |files| ==> 1 <= files[i].slotId <= slotCount
  }

  // ---- Unique keys (space_members, space_member_roles, channel_members) ----

  /** At most one live membership per (space, user). */
  predicate UniqueMembers(members: seq<SpaceMember>)
  {
    forall i, j | 0 <= i < |members| && 0 <= j < |members| && Live(members[i].meta)
      && IsMemberRow(members[j], members[i].spaceId, members[i].userId) :: i == j
  }

  /** At most one live role row per member. */
  predicate UniqueRoles(roles: seq<SpaceMemberRole>)
  {
    forall i, j | 0 <= i < |roles| && 0 <= j < |roles| && Live(roles[i].meta)
      && IsRoleRow(roles[j], roles[i].memberId) :: i == j
  }

  /** At most one live channel membership per (channel, user). */
  predicate UniqueChannelMembers(cms: seq<ChannelMember>)
  {
    forall i, j | 0 <= i < |cms| && 0 <= j < |cms| && Live(cms[i].meta)
      && IsChannelMemberRow(cms[j], cms[i].channelId, cms[i].userId) :: i == j
  }

  /** At most one live file per image slot (the slot's `file` relation). */
  predicate UniqueSlotFiles(files: seq<FileRow>)
  {
    forall i, j | 0 <= i < |files| && 0 <= j < |files| && Live(files[i].meta) && Live(files[j].meta)
      && files[i].slotId == files[j].slotId :: i == j
  }

  // ---- Ownership ----

  predicate IsOwnerRole(r: SpaceMemberRole, spaceId: nat)
  {
    Live(r.meta) && r.spaceId == spaceId && r.role == Owner
  }

  /** The space has exactly one live owner role, and `owner_id` names its user. */
  predicate SoleOwner(roles: seq<SpaceMemberRole>, s: Space)
  {
    && (exists i :: 0 <= i < |roles| && IsOwnerRole(roles[i], s.id) && s.ownerId == Some(roles[i].userId))
    && (forall i, j | 0 <= i < |roles| && 0 <= j < |roles|
          && IsOwnerRole(roles[i], s.id) && IsOwnerRole(roles[j], s.id) :: i == j)
  }

  predicate SpacesOwned(spaces: seq<Space>, roles: seq<SpaceMemberRole>)
  {
    forall k :: 0 <= k < |spaces| && Live(spaces[k].meta) ==> SoleOwner(roles, spaces[k])
  }

  predicate IsOwnerMember(m: ChannelMember, channelId: nat)
  {
    Live(m.meta) && m.channelId == channelId && m.role == Owner
  }

  /** The channel has exactly one live owner member, and `owner_id` names its user. */
  predicate SoleChannelOwner(cms: seq<ChannelMember>, c: Channel)
  {
    && (exists i :: 0 <= i < |cms| && IsOwnerMember(cms[i], c.id) && c.ownerId == Some(cms[i].userId))
    && (forall i, j | 0 <= i < |cms| && 0 <= j < |cms|
          && IsOwnerMember(cms[i], c.id) && IsOwnerMember(cms[j], c.id) :: i == j)
  }

  predicate ChannelsOwned(channels: seq<Channel>, cms: seq<ChannelMember>)
  {
    forall k :: 0 <= k < |channels| && Live(channels[k].meta) ==> SoleChannelOwner(cms, channels[k])
  }

  // ---- The invariant, one part per group of tables ----

  /** Spaces, their memberships and role rows. */
  predicate SpaceTables(spaces: seq<Space>, members: seq<SpaceMember>, roles: seq<SpaceMemberRole>)
  {
    && SpacesKeyed(spaces) && MembersKeyed(members) && RolesKeyed(roles)
    && MembersInSpaces(|spaces|, members) && RolesAttached(members, roles)
    && UniqueMembers(members) && UniqueRoles(roles)
    && SpacesOwned(spaces, roles)
  }

  /** Channels of the `spaceCount` spaces and their memberships. */
  predicate ChannelTables(spaceCount: nat, channels: seq<Channel>, cms: seq<ChannelMember>)
  {
    && ChannelsKeyed(channels) && ChannelMembersKeyed(cms)
    && ChannelsInSpaces(spaceCount, channels) && ChannelMembersInChannels(|channels|, cms)
    && UniqueChannelMembers(cms)
    && ChannelsOwned(channels, cms)
  }

  /** Image slots of the `spaceCount` spaces and their files. */
  predicate ImageTables(spaceCount: nat, slots: seq<ImageSlot>, files: seq<FileRow>)
  {
    && SlotsKeyed(slots) && FilesKeyed(files)
    && SlotsInSpaces(spaceCount, slots) && FilesInSlots(|slots|, files)
    && UniqueSlotFiles(files)
  }

  /** Everything the controllers preserve. */
  predicate Consistent(db: Db)
  {
    match db
    case Db(spaces, members, roles, channels, channelMembers, _, _, slots, files) =>
      && SpaceTables(spaces, members, roles)
      && ChannelTables(|spaces|, channels, channelMembers)
      && ImageTables(|spaces|, slots, files)
  }

  // ---- Route model binding ----

  /** `{space}`: the live space with that id. */
  function SpaceAt(db: Db, id: nat): (r: Option<Space>)
  {
    if 1 <= id <= |db.spaces| && Live(db.spaces[id - 1].meta) then Some(db.spaces[id - 1]) else None
  }

  /** `{member}` of a space. */
  function MemberAt(db: Db, id: nat): (r: Option<SpaceMember>)
  {
    if 1 <= id <= |db.members| && Live(db.members[id - 1].meta) then Some(db.members[id - 1]) else None
  }

  /** `{role}` of a space member. */
  function RoleAt(db: Db, id: nat): (r: Option<SpaceMemberRole>)
  {
    if 1 <= id <= |db.roles| && Live(db.roles[id - 1].meta) then Some(db.roles[id - 1]) else None
  }

  /** `{member}` of a channel. */
  function ChannelMemberAt(db: Db, id: nat): (r: Option<ChannelMember>)
  {
    if 1 <= id <= |db.channelMembers| && Live(db.channelMembers[id - 1].meta) then Some(db.channelMembers[id - 1]) else None
  }

  /**
   * With auto-increment keys, binding by position finds the same space as
   * the search the policies use.
   */
  lemma SpaceAtIsSpaceById(db: Db, id: nat)
    requires SpacesKeyed(db.spaces)
    ensures SpaceAt(db, id) == SpaceById(db, id)
  {
    if SpaceById(db, id).Some? {
      var s := SpaceById(db, id).value;
      var i :| 0 <= i < |db.spaces| && db.spaces[i] == s;
      assert i == id - 1;
    }
  }

  // ---- Writes ----

  /** A model `delete()`: `deleted_at` and `deleted_by` stamped, nothing else. */
  function Trashed(m: Meta, now: Time, actor: UserId): (r: Meta)
    ensures !Live(r) && r.deletedBy == Some(actor)
    ensures r.createdBy == m.createdBy && r.updatedBy == m.updatedBy
  {
    MySoftDeletes.SoftDeleted(MySoftDeletes.StoredRow(m, None), now, Some(actor), false).meta
  }

  /** The tables, updated in place by the controller actions. */
  class Store {
    var spaces: seq<Space>
    var members: seq<SpaceMember>
    var roles: seq<SpaceMemberRole>
    var channels: seq<Channel>
    var channelMembers: seq<ChannelMember>
    var spacePrivacySettings: seq<SpacePrivacySetting>
    var userPrivacySettings: seq<UserPrivacySetting>
    var slots: seq<ImageSlot>
    var files: seq<FileRow>

    function Snapshot(): (r: Db)
      reads this
    {
      Db(spaces, members, roles, channels, channelMembers, spacePrivacySettings, userPrivacySettings, slots, files)
    }

    constructor (db: Db)
      ensures Snapshot() == db
    {
      spaces, members, roles := db.spaces, db.members, db.roles;
      channels, channelMembers := db.channels, db.channelMembers;
      spacePrivacySettings, userPrivacySettings := db.spacePrivacySettings, db.userPrivacySettings;
      slots, files := db.slots, db.files;
    }
  }
}
