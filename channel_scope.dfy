/**
 * ChannelScope: the global scope on every channel query. A channel is
 * visible when it is in one of the actor's spaces and the actor belongs to
 * it or it is not private.
 */
module ChannelScope {
  import opened Seqs
  import opened Roles
  import opened Schema

  /** The scope's where-clauses, for one channel row. */
  predicate Visible(c: Channel, spaceIds: seq<nat>, channelIds: seq<nat>)
  {
    c.spaceId in spaceIds && (c.id in channelIds || c.privacy in {Protected, Public})
  }

  /** The rows of a channel query that survive the scope. */
  function Apply(rows: seq<Channel>, spaceIds: seq<nat>, channelIds: seq<nat>): (r: seq<Channel>)
    ensures |r| <= |rows|
    ensures forall c :: c in r <==> c in rows && Visible(c, spaceIds, channelIds)
  {
    Filter(rows, (c: Channel) => Visible(c, spaceIds, channelIds))
  }

  /**
   * No channel outside the actor's spaces ever survives; inside them a
   * private channel survives only for its members, and a protected or
   * public one for everybody.
   */
  lemma ScopeByPrivacy(rows: seq<Channel>, spaceIds: seq<nat>, channelIds: seq<nat>, c: Channel)
    requires c in rows
    ensures c.spaceId !in spaceIds ==> c !in Apply(rows, spaceIds, channelIds)
    ensures c.spaceId in spaceIds && c.privacy == Private ==>
      (c in Apply(rows, spaceIds, channelIds) <==> c.id in channelIds)
    ensures c.spaceId in spaceIds && c.privacy != Private ==> c in Apply(rows, spaceIds, channelIds)
  {
  }

  /** Joining more spaces or channels never hides a channel. */
  lemma ScopeMonotone(rows: seq<Channel>, s1: seq<nat>, c1: seq<nat>, s2: seq<nat>, c2: seq<nat>, c: Channel)
    requires forall x :: x in s1 ==> x in s2
    requires forall x :: x in c1 ==> x in c2
    ensures c in Apply(rows, s1, c1) ==> c in Apply(rows, s2, c2)
  {
  }
}
