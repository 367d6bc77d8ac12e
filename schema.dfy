/**
 * The persisted entities (app/Models and the migrations) as rows, a snapshot
 * of the tables, and the relation lookups the policies perform.
 */
module Schema {
  import opened Wrappers
  import opened Seqs
  import opened Roles

  type UserId = nat
  type Time = nat

  /**
   * The audit and soft-delete columns every BaseModel row carries:
   * `created_by`, `updated_by`, `deleted_at`, `deleted_by`.
   */
  datatype Meta = Meta(createdBy: Option<UserId>, updatedBy: Option<UserId>,
                       deletedAt: Option<Time>, deletedBy: Option<UserId>)

  /** The soft-deleting scope hides rows whose `deleted_at` is set. */
  predicate Live(m: Meta)
  {
    m.deletedAt.None?
  }

  /** A row about to be inserted: nothing stamped yet. */
  const Blank := Meta(None, None, None, None)

  /** Mass-assignable columns no access rule reads (name, bio, title, ...). */
  type Attributes = map<string, string>

  datatype Space = Space(id: nat, privacy: Privacy, ownerId: Option<UserId>,
                         attrs: Attributes, meta: Meta)
  datatype SpaceMember = SpaceMember(id: nat, spaceId: nat, userId: UserId,
                                     attrs: Attributes, meta: Meta)
  datatype SpaceMemberRole = SpaceMemberRole(id: nat, memberId: nat, spaceId: nat,
                                             userId: UserId, role: Role, meta: Meta)
  datatype Channel = Channel(id: nat, spaceId: nat, privacy: Privacy, ownerId: Option<UserId>,
                             attrs: Attributes, meta: Meta)
  datatype ChannelMember = ChannelMember(id: nat, channelId: nat, userId: UserId,
                                         role: Role, meta: Meta)
  datatype SpacePrivacySetting = SpacePrivacySetting(id: nat, spaceId: nat, meta: Meta)
  datatype UserPrivacySetting = UserPrivacySetting(id: nat, userId: UserId, isPublic: bool, meta: Meta)

  /** An avatar or banner slot of a space, keyed by its display state. */
  datatype ImageKind = AvatarImage | BannerImage
  datatype ImageSlot = ImageSlot(id: nat, kind: ImageKind, spaceId: nat, displayState: string, meta: Meta)
  /** A stored file attached to an image slot. */
  datatype FileRow = FileRow(id: nat, slotId: nat, meta: Meta)

  /** A snapshot of every table the access rules read. */
  datatype Db = Db(spaces: seq<Space>, members: seq<SpaceMember>, roles: seq<SpaceMemberRole>,
                   channels: seq<Channel>, channelMembers: seq<ChannelMember>,
                   spacePrivacySettings: seq<SpacePrivacySetting>,
                   userPrivacySettings: seq<UserPrivacySetting>,
                   slots: seq<ImageSlot>, files: seq<FileRow>)

  /** PHP's loose `==` between an id and a nullable id: null equals only 0. */
  predicate LooseEq(a: nat, b: Option<nat>)
  {
    match b
    case Some(v) => a == v
    case None => a == 0
  }

  /** PHP's `empty($id)` and `!$id` on a nullable id: null or zero. */
  predicate EmptyId(id: Option<nat>)
  {
    id.None? || id.value == 0
  }

  /**
   * Eloquent's `fill`: the input keys that are fillable overwrite the
   * attributes; every other key is ignored.
   */
  function Fill(attrs: Attributes, input: map<string, string>, fillable: set<string>): (r: Attributes)
    ensures forall k :: k in r <==> k in attrs || (k in input && k in fillable)
    ensures forall k :: k in input && k in fillable ==> r[k] == input[k]
    ensures forall k :: k in attrs && !(k in input && k in fillable) ==> r[k] == attrs[k]
  {
    attrs + map k | k in input.Keys && k in fillable :: input[k]
  }

  // ---- `$space->members()->where('user_id', $id)->first()` and friends ----

  predicate IsMemberRow(m: SpaceMember, spaceId: nat, userId: UserId)
  {
    Live(m.meta) && m.spaceId == spaceId && m.userId == userId
  }

  /** The first live member row of a user in a space. */
  function SpaceMemberOf(db: Db, spaceId: nat, userId: UserId): (r: Option<SpaceMember>)
    ensures r.Some? ==> r.value in db.members && IsMemberRow(r.value, spaceId, userId)
    ensures r.None? <==> forall i :: 0 <= i < |db.members| ==> !IsMemberRow(db.members[i], spaceId, userId)
  {
    match FirstIndex(db.members, (m: SpaceMember) => IsMemberRow(m, spaceId, userId))
    case None => None
    case Some(i) => Some(db.members[i])
  }

  /** `->exists()`: some live member row of the user in the space. */
  predicate IsSpaceMember(db: Db, spaceId: nat, userId: UserId)
  {
    SpaceMemberOf(db, spaceId, userId).Some?
  }

  predicate IsRoleRow(r: SpaceMemberRole, memberId: nat)
  {
    Live(r.meta) && r.memberId == memberId
  }

  /** A member's role as `$member->role` reads it (id and role name). */
  datatype RoleView = RoleView(id: Option<nat>, role: Role)

  /** `SpaceMember::DEFAULT_ROLE`: what `withDefault` yields when no row exists. */
  const DefaultRole := RoleView(None, Member)

  /** The first live role row of a member. */
  function RoleRowOf(db: Db, memberId: nat): (r: Option<SpaceMemberRole>)
    ensures r.Some? ==> r.value in db.roles && IsRoleRow(r.value, memberId)
    ensures r.None? <==> forall i :: 0 <= i < |db.roles| ==> !IsRoleRow(db.roles[i], memberId)
  {
    match FirstIndex(db.roles, (x: SpaceMemberRole) => IsRoleRow(x, memberId))
    case None => None
    case Some(i) => Some(db.roles[i])
  }

  /** `$member->role`: the member's role row, or the default `member` role without an id. */
  function RoleOf(db: Db, m: SpaceMember): (r: RoleView)
    ensures r.id.None? <==> RoleRowOf(db, m.id).None?
    ensures r.id.None? ==> r == DefaultRole
    ensures r.id.Some? ==> r.id.value == RoleRowOf(db, m.id).value.id && r.role == RoleRowOf(db, m.id).value.role
  {
    match RoleRowOf(db, m.id)
    case None => DefaultRole
    case Some(row) => RoleView(Some(row.id), row.role)
  }

  /** The role of the actor in a space, when the actor is a member. */
  function ActorRole(db: Db, spaceId: nat, actor: UserId): (r: Option<Role>)
    ensures r.Some? <==> IsSpaceMember(db, spaceId, actor)
    ensures r.Some? ==> r.value == RoleOf(db, SpaceMemberOf(db, spaceId, actor).value).role
  {
    match SpaceMemberOf(db, spaceId, actor)
    case None => None
    case Some(m) => Some(RoleOf(db, m).role)
  }

  /** An actor who is a member of the space with role owner or admin. */
  predicate IsSpaceManager(db: Db, spaceId: nat, actor: UserId)
  {
    var r := ActorRole(db, spaceId, actor);
    r.Some? && IsManager(r.value)
  }

  predicate IsChannelMemberRow(m: ChannelMember, channelId: nat, userId: UserId)
  {
    Live(m.meta) && m.channelId == channelId && m.userId == userId
  }

  /** `$channel->members()->where('user_id', $id)->first()`. */
  function ChannelMemberOf(db: Db, channelId: nat, userId: UserId): (r: Option<ChannelMember>)
    ensures r.Some? ==> r.value in db.channelMembers && IsChannelMemberRow(r.value, channelId, userId)
    ensures r.None? <==> forall i :: 0 <= i < |db.channelMembers| ==> !IsChannelMemberRow(db.channelMembers[i], channelId, userId)
  {
    match FirstIndex(db.channelMembers, (m: ChannelMember) => IsChannelMemberRow(m, channelId, userId))
    case None => None
    case Some(i) => Some(db.channelMembers[i])
  }

  /** `$member->space`, and route binding of `{space}`: the live space with that id. */
  function SpaceById(db: Db, id: nat): (r: Option<Space>)
    ensures r.Some? ==> r.value in db.spaces && r.value.id == id && Live(r.value.meta)
    ensures r.None? <==> forall i :: 0 <= i < |db.spaces| ==> !(db.spaces[i].id == id && Live(db.spaces[i].meta))
  {
    match FirstIndex(db.spaces, (s: Space) => s.id == id && Live(s.meta))
    case None => None
    case Some(i) => Some(db.spaces[i])
  }

  /** `$space->privacySetting->id`: the id of the space's live setting, null for the default. */
  function SpacePrivacySettingId(db: Db, spaceId: nat): (r: Option<nat>)
    ensures r.None? <==> forall i :: 0 <= i < |db.spacePrivacySettings| ==>
      !(db.spacePrivacySettings[i].spaceId == spaceId && Live(db.spacePrivacySettings[i].meta))
    ensures r.Some? ==> (exists i :: 0 <= i < |db.spacePrivacySettings| && db.spacePrivacySettings[i].id == r.value
                           && db.spacePrivacySettings[i].spaceId == spaceId && Live(db.spacePrivacySettings[i].meta))
  {
    match FirstIndex(db.spacePrivacySettings, (s: SpacePrivacySetting) => s.spaceId == spaceId && Live(s.meta))
    case None => None
    case Some(i) => Some(db.spacePrivacySettings[i].id)
  }

  /** `$user->privacySetting->id`: the id of the user's live setting, null for the default. */
  function UserPrivacySettingId(db: Db, userId: UserId): (r: Option<nat>)
    ensures r.None? <==> forall i :: 0 <= i < |db.userPrivacySettings| ==>
      !(db.userPrivacySettings[i].userId == userId && Live(db.userPrivacySettings[i].meta))
    ensures r.Some? ==> (exists i :: 0 <= i < |db.userPrivacySettings| && db.userPrivacySettings[i].id == r.value
                           && db.userPrivacySettings[i].userId == userId && Live(db.userPrivacySettings[i].meta))
  {
    match FirstIndex(db.userPrivacySettings, (s: UserPrivacySetting) => s.userId == userId && Live(s.meta))
    case None => None
    case Some(i) => Some(db.userPrivacySettings[i].id)
  }
}
