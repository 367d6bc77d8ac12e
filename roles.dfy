/**
 * The role ladder shared by space members and channel members, the privacy
 * types of spaces and channels, and the outcome of an authorisation decision.
 */
module Roles {
  /** The four roles of `ChannelMember::ROLES` and `SpaceMemberRole::ROLES`. */
  datatype Role = Owner | Admin | Moderator | Member

  /** The ladder, most privileged first; both models declare the same list. */
  const Ladder: seq<Role> := [Owner, Admin, Moderator, Member]

  /**
   * `array_search($role, ROLES)`: the position of a role on the ladder. A
   * smaller index means a more privileged role.
   */
  function Index(r: Role): (i: nat)
    ensures i < |Ladder| && Ladder[i] == r
    ensures forall j :: 0 <= j < i ==> Ladder[j] != r
  {
    match r
    case Owner => 0
    case Admin => 1
    case Moderator => 2
    case Member => 3
  }

  /** The array search is a bijection between roles and ladder positions. */
  lemma IndexDeterminesRole(a: Role, b: Role)
    ensures Index(a) == Index(b) <==> a == b
  {
  }

  /** `Index(a) <= Index(b)`: `a` ranks at least as high as `b`. */
  predicate RanksAtLeast(a: Role, b: Role)
  {
    Index(a) <= Index(b)
  }

  /** The roles allowed to manage others: `in_array($role, ['owner', 'admin'])`. */
  predicate IsManager(r: Role)
  {
    r == Owner || r == Admin
  }

  /** Only an owner ranks at least as high as an owner. */
  lemma OnlyOwnerOutranksOwner(r: Role)
    ensures RanksAtLeast(r, Owner) <==> r == Owner
  {
  }

  /** `Space::PRIVACY_TYPES` and `Channel::PRIVACY_TYPES`. */
  datatype Privacy = Private | Protected | Public

  /**
   * What a policy method decides: `true` (Allow), `false` (Deny, answered with
   * 403), `abort(404)` (NotFound) or `abort(400)` (BadRequest).
   */
  datatype Outcome = Allow | Deny | NotFound | BadRequest

  /** A boolean policy result. */
  function FromBool(b: bool): (o: Outcome)
    ensures o == Allow <==> b
    ensures o == Allow || o == Deny
  {
    if b then Allow else Deny
  }

  /** The HTTP status the framework answers with when a policy rejects. */
  function RejectionStatus(o: Outcome): (code: nat)
    requires o != Allow
    ensures o == Deny <==> code == 403
    ensures o == NotFound <==> code == 404
    ensures o == BadRequest <==> code == 400
  {
    match o
    case Deny => 403
    case NotFound => 404
    case BadRequest => 400
  }
}
