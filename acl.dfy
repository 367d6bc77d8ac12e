/**
 * ACL: the per-process identity cache. Each getter fills its static field on
 * first use and answers from it afterwards, until `reset` clears all five.
 */
module ACL {
  import opened Wrappers
  import opened Seqs
  import opened Roles
  import opened Schema

  /** What an identity lookup reads: the authenticated user and the tables. */
  datatype World = World(auth: Option<UserId>, db: Db)

  // ---- The values the getters compute when their cache is empty ----

  /** The user has a live membership row in the live space `sid`. */
  predicate InSpace(db: Db, uid: UserId, sid: nat)
  {
    exists i :: 0 <= i < |db.members| && IsMemberRow(db.members[i], sid, uid) && SpaceById(db, sid).Some?
  }

  /** The user has a live membership row in the live channel `cid`. */
  predicate InChannel(db: Db, uid: UserId, cid: nat)
  {
    exists i :: 0 <= i < |db.channelMembers| && IsChannelMemberRow(db.channelMembers[i], cid, uid)
      && LiveChannel(db, cid)
  }

  predicate LiveChannel(db: Db, cid: nat)
  {
    exists j :: 0 <= j < |db.channels| && db.channels[j].id == cid && Live(db.channels[j].meta)
  }

  /** `Auth::user()->spaces`, plucked to ids: the spaces the user belongs to. */
  function JoinedSpaceIds(db: Db, uid: UserId): (r: seq<nat>)
    ensures forall sid :: sid in r <==> InSpace(db, uid, sid)
  {
    Collect(db.members,
            (m: SpaceMember) => Live(m.meta) && m.userId == uid && SpaceById(db, m.spaceId).Some?,
            (m: SpaceMember) => m.spaceId)
  }

  /** `Auth::user()->channels`, plucked to ids: the channels the user belongs to. */
  function JoinedChannelIds(db: Db, uid: UserId): (r: seq<nat>)
    ensures forall cid :: cid in r <==> InChannel(db, uid, cid)
  {
    Collect(db.channelMembers,
            (m: ChannelMember) => Live(m.meta) && m.userId == uid && LiveChannel(db, m.channelId),
            (m: ChannelMember) => m.channelId)
  }

  /** Some live member row of one of `spaceIds` belongs to `u`. */
  predicate CoMember(db: Db, spaceIds: seq<nat>, u: UserId)
  {
    exists i :: 0 <= i < |db.members| && Live(db.members[i].meta) && db.members[i].spaceId in spaceIds
      && db.members[i].userId == u
  }

  /** `u` has a live privacy setting with `is_public = 1`. */
  predicate PublicUser(db: Db, u: UserId)
  {
    exists i :: 0 <= i < |db.userPrivacySettings| && Live(db.userPrivacySettings[i].meta)
      && db.userPrivacySettings[i].isPublic && db.userPrivacySettings[i].userId == u
  }

  /**
   * The users visible through `spaceIds` (the spaces the caller belongs to)
   * for the user `self`: every member of those spaces, every public user and
   * `self`, each once.
   */
  function VisibleUserIds(db: Db, spaceIds: seq<nat>, self: UserId): (r: seq<UserId>)
    ensures NoDuplicates(r)
    ensures forall u :: u in r <==> u == self || CoMember(db, spaceIds, u) || PublicUser(db, u)
  {
    Dedup(Collect(db.members, (m: SpaceMember) => Live(m.meta) && m.spaceId in spaceIds, (m: SpaceMember) => m.userId)
          + Collect(db.userPrivacySettings, (s: UserPrivacySetting) => Live(s.meta) && s.isPublic,
                    (s: UserPrivacySetting) => s.userId)
          + [self])
  }

  /** A live space whose privacy is public or protected. */
  predicate NonPrivate(db: Db, sid: nat)
  {
    exists i :: 0 <= i < |db.spaces| && Live(db.spaces[i].meta) && db.spaces[i].privacy in {Public, Protected}
      && db.spaces[i].id == sid
  }

  /** The spaces visible to someone belonging to `joined`: those, and every non-private space, each once. */
  function VisibleSpaceIds(db: Db, joined: seq<nat>): (r: seq<nat>)
    ensures NoDuplicates(r)
    ensures forall sid :: sid in r <==> sid in joined || NonPrivate(db, sid)
  {
    Dedup(joined + Collect(db.spaces, (s: Space) => Live(s.meta) && s.privacy in {Public, Protected}, (s: Space) => s.id))
  }

  /** The getters' answers when nothing is cached, for an authenticated request. */
  function FreshVisibleUserIds(w: World): (r: seq<UserId>)
    requires w.auth.Some?
  {
    VisibleUserIds(w.db, JoinedSpaceIds(w.db, w.auth.value), w.auth.value)
  }

  function FreshVisibleSpaceIds(w: World): (r: seq<nat>)
    requires w.auth.Some?
  {
    VisibleSpaceIds(w.db, JoinedSpaceIds(w.db, w.auth.value))
  }

  /** PHP truthiness of a cached array: set and not empty. */
  predicate Truthy<T>(a: Option<seq<T>>)
  {
    a.Some? && |a.value| > 0
  }

  /**
   * The five static fields. A user or a relation collection is truthy once
   * set (an empty collection is still an object); the two id arrays are
   * truthy only when non-empty, so an empty one is recomputed.
   *
   * Beside them, the `spaces` and `channels` relations that `loadMissing`
   * leaves loaded on the authenticated User instance: `reset` does not
   * touch them, and a later miss reuses them instead of querying again.
   */
  class IdentityContext {
    var user: Option<UserId>
    var spaces: Option<seq<nat>>
    var channels: Option<seq<nat>>
    var visibleUserIds: Option<seq<UserId>>
    var visibleSpaceIds: Option<seq<nat>>
    var loadedSpaces: Option<seq<nat>>
    var loadedChannels: Option<seq<nat>>

    predicate Cleared()
      reads this
    {
      user.None? && spaces.None? && channels.None? && visibleUserIds.None? && visibleSpaceIds.None?
    }

    /** The relations loaded on the authenticated user are what a query would load now. */
    ghost predicate RelationsCoherent(w: World)
      reads this
    {
      && (loadedSpaces.Some? ==> w.auth.Some? && loadedSpaces.value == JoinedSpaceIds(w.db, w.auth.value))
      && (loadedChannels.Some? ==> w.auth.Some? && loadedChannels.value == JoinedChannelIds(w.db, w.auth.value))
    }

    /** Every cached value, and every loaded relation, is what the getter would compute now. */
    ghost predicate Coherent(w: World)
      reads this
    {
      && RelationsCoherent(w)
      && (user.Some? ==> user == w.auth)
      && (spaces.Some? ==> w.auth.Some? && spaces.value == JoinedSpaceIds(w.db, w.auth.value))
      && (channels.Some? ==> w.auth.Some? && channels.value == JoinedChannelIds(w.db, w.auth.value))
      && (visibleUserIds.Some? ==> w.auth.Some? && visibleUserIds.value == FreshVisibleUserIds(w))
      && (visibleSpaceIds.Some? ==> w.auth.Some? && visibleSpaceIds.value == FreshVisibleSpaceIds(w))
    }

    /** The start of a request: nothing cached, nothing loaded on the user. */
    constructor ()
      ensures Cleared() && loadedSpaces.None? && loadedChannels.None?
    {
      user, spaces, channels, visibleUserIds, visibleSpaceIds := None, None, None, None, None;
      loadedSpaces, loadedChannels := None, None;
    }

    /** `ACL::reset()`: the five statics only. */
    method Reset()
      modifies this
      ensures Cleared()
      ensures loadedSpaces == old(loadedSpaces) && loadedChannels == old(loadedChannels)
    {
      user, spaces, channels, visibleUserIds, visibleSpaceIds := None, None, None, None, None;
    }

    /** `ACL::getUser()`: the cached user, or the authenticated one (cached once found). */
    method GetUser(w: World) returns (u: Option<UserId>)
      modifies this`user
      ensures u == (if old(user).Some? then old(user) else w.auth)
      ensures user == u
      ensures old(Coherent(w)) ==> Coherent(w) && u == w.auth
    {
      if user.None? {
        user := w.auth;
      }
      u := user;
    }

    /** `ACL::getUserId()`: the id of `getUser()`, or null. */
    method GetUserId(w: World) returns (id: Option<UserId>)
      modifies this`user
      ensures id == (if old(user).Some? then old(user) else w.auth)
      ensures user == id
      ensures old(Coherent(w)) ==> Coherent(w) && id == w.auth
    {
      id := GetUser(w);
    }

    /** What `getSpaces()` answers now: the cache, else the relation already loaded, else a fresh load. */
    function SpacesAnswer(w: World): (r: seq<nat>)
      reads this
      requires w.auth.Some?
    {
      if spaces.Some? then spaces.value
      else if loadedSpaces.Some? then loadedSpaces.value
      else JoinedSpaceIds(w.db, w.auth.value)
    }

    /** What `getChannels()` answers now, in the same way. */
    function ChannelsAnswer(w: World): (r: seq<nat>)
      reads this
      requires w.auth.Some?
    {
      if channels.Some? then channels.value
      else if loadedChannels.Some? then loadedChannels.value
      else JoinedChannelIds(w.db, w.auth.value)
    }

    /** `ACL::getSpaces()`; with no authenticated user the source fails, hence the requires. */
    method GetSpaces(w: World) returns (r: seq<nat>)
      requires w.auth.Some?
      modifies this`spaces, this`loadedSpaces
      ensures r == old(SpacesAnswer(w))
      ensures spaces == Some(r)
      ensures loadedSpaces == (if old(spaces).Some? then old(loadedSpaces) else Some(r))
      ensures old(spaces).None? && old(loadedSpaces).Some? ==> r == old(loadedSpaces).value
      ensures old(Coherent(w)) ==> Coherent(w) && r == JoinedSpaceIds(w.db, w.auth.value)
    {
      if spaces.None? {
        if loadedSpaces.None? {
          loadedSpaces := Some(JoinedSpaceIds(w.db, w.auth.value));
        }
        spaces := loadedSpaces;
      }
      r := spaces.value;
    }

    /** `ACL::getChannels()`. */
    method GetChannels(w: World) returns (r: seq<nat>)
      requires w.auth.Some?
      modifies this`channels, this`loadedChannels
      ensures r == old(ChannelsAnswer(w))
      ensures channels == Some(r)
      ensures loadedChannels == (if old(channels).Some? then old(loadedChannels) else Some(r))
      ensures old(channels).None? && old(loadedChannels).Some? ==> r == old(loadedChannels).value
      ensures old(Coherent(w)) ==> Coherent(w) && r == JoinedChannelIds(w.db, w.auth.value)
    {
      if channels.None? {
        if loadedChannels.None? {
          loadedChannels := Some(JoinedChannelIds(w.db, w.auth.value));
        }
        channels := loadedChannels;
      }
      r := channels.value;
    }

    /**
     * `ACL::getVisibleUserIds()`. On a miss it reads the (possibly cached)
     * spaces and user id, so a stale cache yields a stale answer; a coherent
     * cache yields the fresh one.
     */
    method GetVisibleUserIds(w: World) returns (r: seq<UserId>)
      requires w.auth.Some?
      modifies this`visibleUserIds, this`spaces, this`loadedSpaces, this`user
      ensures Truthy(old(visibleUserIds)) ==>
        r == old(visibleUserIds).value && spaces == old(spaces) && loadedSpaces == old(loadedSpaces) && user == old(user)
      ensures !Truthy(old(visibleUserIds)) ==>
        && spaces == Some(old(SpacesAnswer(w)))
        && user == (if old(user).Some? then old(user) else w.auth)
        && r == VisibleUserIds(w.db, spaces.value, user.value)
      ensures visibleUserIds == Some(r)
      ensures old(Coherent(w)) ==> Coherent(w) && r == FreshVisibleUserIds(w)
    {
      if !Truthy(visibleUserIds) {
        var spaceIds := GetSpaces(w);
        var self := GetUserId(w);
        visibleUserIds := Some(VisibleUserIds(w.db, spaceIds, self.value));
      }
      r := visibleUserIds.value;
    }

    /** `ACL::getVisibleSpaceIds()`. */
    method GetVisibleSpaceIds(w: World) returns (r: seq<nat>)
      requires w.auth.Some?
      modifies this`visibleSpaceIds, this`spaces, this`loadedSpaces
      ensures Truthy(old(visibleSpaceIds)) ==>
        r == old(visibleSpaceIds).value && spaces == old(spaces) && loadedSpaces == old(loadedSpaces)
      ensures !Truthy(old(visibleSpaceIds)) ==>
        && spaces == Some(old(SpacesAnswer(w)))
        && r == VisibleSpaceIds(w.db, spaces.value)
      ensures visibleSpaceIds == Some(r)
      ensures old(Coherent(w)) ==> Coherent(w) && r == FreshVisibleSpaceIds(w)
    {
      if !Truthy(visibleSpaceIds) {
        var joined := GetSpaces(w);
        visibleSpaceIds := Some(VisibleSpaceIds(w.db, joined));
      }
      r := visibleSpaceIds.value;
    }
  }

  /**
   * After `reset` the cache agrees with a world exactly when the relations
   * still loaded on the user do; with none loaded (a fresh user instance)
   * it agrees with every world, since every getter then queries again.
   */
  lemma ClearedIsCoherent(ctx: IdentityContext, w: World)
    requires ctx.Cleared()
    ensures ctx.Coherent(w) <==> ctx.RelationsCoherent(w)
    ensures ctx.loadedSpaces.None? && ctx.loadedChannels.None? ==> ctx.Coherent(w)
  {
  }

  /**
   * A relation loaded before `reset` outlives it: the next `getSpaces()`
   * answers with that list, whatever the memberships are now.
   */
  lemma StaleSpacesSurviveReset(ctx: IdentityContext, w: World)
    requires ctx.Cleared() && w.auth.Some? && ctx.loadedSpaces.Some?
    requires ctx.loadedSpaces.value != JoinedSpaceIds(w.db, w.auth.value)
    ensures ctx.SpacesAnswer(w) != JoinedSpaceIds(w.db, w.auth.value)
    ensures !ctx.Coherent(w)
  {
  }

  /** The actor always sees themself, every public user and everyone sharing a space. */
  lemma {:induction false} VisibleUsersIncludeSelfAndPublic(w: World, u: UserId)
    requires w.auth.Some?
    ensures w.auth.value in FreshVisibleUserIds(w)
    ensures PublicUser(w.db, u) ==> u in FreshVisibleUserIds(w)
    ensures u in FreshVisibleUserIds(w) <==>
      u == w.auth.value || PublicUser(w.db, u) || CoMember(w.db, JoinedSpaceIds(w.db, w.auth.value), u)
  {
  }

  /**
   * A user who is not public and shares no live space with the actor is not
   * visible to the actor.
   */
  lemma HiddenUserNotVisible(w: World, u: UserId)
    requires w.auth.Some? && u != w.auth.value
    requires !PublicUser(w.db, u)
    requires forall j :: 0 <= j < |w.db.members| && Live(w.db.members[j].meta) && w.db.members[j].userId == u ==>
      !InSpace(w.db, w.auth.value, w.db.members[j].spaceId)
    ensures u !in FreshVisibleUserIds(w)
  {
  }

  /** Every non-private live space is visible to every actor; a private one only to its members. */
  lemma VisibleSpaces(w: World, sid: nat)
    requires w.auth.Some?
    ensures NonPrivate(w.db, sid) ==> sid in FreshVisibleSpaceIds(w)
    ensures sid in FreshVisibleSpaceIds(w) && !NonPrivate(w.db, sid) ==> InSpace(w.db, w.auth.value, sid)
  {
  }
}
