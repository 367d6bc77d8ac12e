/**
 * SocialAccountsService: signing in through an identity provider. The
 * provider's user is looked up by its linked account; failing that, by its
 * email among the live users; failing that, a user is registered with a
 * profile named after the provider's display name. Either of the last two
 * ends by linking the provider account to the user.
 *
 * The tables it touches (users, user profiles, linked social accounts) are
 * fields of an AccountStore; FindOrCreateEffect is the transition, and the
 * method performs it step by step.
 */
module SocialAccountsService {
  import opened Wrappers
  import ACL
  import UserOwnedACL

  /** A user row; `trashed` is MySoftDeletes' mark, which hides the row from queries. */
  datatype User = User(id: nat, email: string, password: string, trashed: bool)
  datatype Profile = Profile(id: nat, userId: nat, firstName: string, lastName: string)
  datatype LinkedAccount = LinkedAccount(id: nat, userId: nat, providerId: string, providerName: string)

  datatype Accounts = Accounts(users: seq<User>, profiles: seq<Profile>, links: seq<LinkedAccount>)

  /** What the identity provider reports: its id for the user, and possibly an email and a display name. */
  datatype ProviderUser = ProviderUser(id: string, email: Option<string>, name: Option<string>)

  /**
   * What the call hands back. The method is declared to return a `User`, so
   * each path where the code produces null (no usable email, or a link
   * whose user is gone or trashed) raises a TypeError instead.
   */
  datatype Returned = Returns(user: User) | TypeError

  /** The result and the tables afterwards. */
  datatype Outcome = Outcome(result: Returned, accounts: Accounts)

  // ---- Queries ----

  /** `->where(...)->first()`: the position of the first element satisfying `p`. */
  function FirstWhere<T>(s: seq<T>, p: T -> bool): (r: Option<nat>)
    ensures r.Some? ==> r.value < |s| && p(s[r.value]) && forall j :: 0 <= j < r.value ==> !p(s[j])
    ensures r.None? ==> forall j :: 0 <= j < |s| ==> !p(s[j])
  {
    if s == [] then None
    else if p(s[0]) then Some(0)
    else match FirstWhere(s[1..], p)
      case None => None
      case Some(i) => Some(i + 1)
  }

  predicate LinksTo(l: LinkedAccount, provider: string, providerId: string)
  {
    l.providerName == provider && l.providerId == providerId
  }

  /** `LinkedSocialAccount::where('provider_name', ...)->where('provider_id', ...)->first()`. */
  function FindLink(links: seq<LinkedAccount>, provider: string, providerId: string): (r: Option<nat>)
  {
    FirstWhere(links, (l: LinkedAccount) => LinksTo(l, provider, providerId))
  }

  /** `User::where('email', ...)->first()`, under the soft-deleting scope. */
  function UserByEmail(users: seq<User>, email: string): (r: Option<nat>)
  {
    FirstWhere(users, (u: User) => u.email == email && !u.trashed)
  }

  /** `$linkedSocialAccount->user`: the live user the account belongs to, or null. */
  function LinkedUser(users: seq<User>, l: LinkedAccount): (r: Option<User>)
  {
    match FirstWhere(users, (u: User) => u.id == l.userId && !u.trashed)
    case None => None
    case Some(i) => Some(users[i])
  }

  // ---- The name split ----

  /** The position of the first space in `s`, if there is one. */
  function FirstSpace(s: string): (r: Option<nat>)
    ensures r.Some? ==> r.value < |s| && s[r.value] == ' ' && ' ' !in s[..r.value]
    ensures r.None? ==> ' ' !in s
  {
    if s == [] then None
    else if s[0] == ' ' then Some(0)
    else match FirstSpace(s[1..])
      case None => None
      case Some(i) => assert s[..i + 1] == [s[0]] + s[1..][..i]; Some(i + 1)
  }

  /**
   * `explode(' ', $name, 2)` and the picks that follow: the first name is
   * everything before the first space, the last name everything after it
   * (further spaces included), or empty when there is no space.
   */
  function SplitName(name: string): (r: (string, string))
    ensures ' ' !in r.0
    ensures ' ' in name ==> r.0 + " " + r.1 == name
    ensures ' ' !in name ==> r.0 == name && r.1 == ""
  {
    match FirstSpace(name)
    case None => (name, "")
    case Some(i) => assert name == name[..i] + " " + name[i + 1..]; (name[..i], name[i + 1..])
  }

  // ---- find or create ----

  /** The user `findOrCreate` registers: the provider's email and a random password. */
  function NewUser(a: Accounts, email: string, password: string): (r: User)
  {
    User(|a.users| + 1, email, password, false)
  }

  /**
   * The owner of the new user's profile. `$user->profile()->create(...)`
   * fills in the new user's id, and the profile's creating hook then puts
   * `ACL::getUserId()` in its place when there is one: `actor`.
   */
  function ProfileOwner(actor: Option<nat>, user: User): (r: nat)
    ensures Some(r) == UserOwnedACL.UserOnCreate(actor, Some(user.id))
  {
    match actor
    case Some(id) => id
    case None => user.id
  }

  /** The profile created for a new user: the provider's display name split in two (a null name counts as empty). */
  function NewProfile(a: Accounts, user: User, name: Option<string>, actor: Option<nat>): (r: Profile)
  {
    var (first, last) := SplitName(name.GetOr(""));
    Profile(|a.profiles| + 1, ProfileOwner(actor, user), first, last)
  }

  function NewLink(a: Accounts, user: User, p: ProviderUser, provider: string): (r: LinkedAccount)
  {
    LinkedAccount(|a.links| + 1, user.id, p.id, provider)
  }

  /**
   * `findOrCreate`. The random password `Hash::make(Str::random(16))` is
   * the parameter `password`; `actor` is what `ACL::getUserId()` answers
   * when the profile's creating hook asks.
   */
  function FindOrCreateEffect(a: Accounts, p: ProviderUser, provider: string, password: string, actor: Option<nat>): (r: Outcome)
    ensures r.result.TypeError? ==> r.accounts == a
    ensures r.result.Returns? ==> !r.result.user.trashed
  {
    match FindLink(a.links, provider, p.id)
    case Some(k) =>
      var linked := LinkedUser(a.users, a.links[k]);
      Outcome(if linked.Some? then Returns(linked.value) else TypeError, a)
    case None =>
      if p.email.None? || !TruthyString(p.email.value) then Outcome(TypeError, a)
      else
        var email := p.email.value;
        match UserByEmail(a.users, email)
        case Some(i) =>
          var user := a.users[i];
          Outcome(Returns(user), a.(links := a.links + [NewLink(a, user, p, provider)]))
        case None =>
          var user := NewUser(a, email, password);
          var a1 := a.(users := a.users + [user], profiles := a.profiles + [NewProfile(a, user, p.name, actor)]);
          Outcome(Returns(user), a1.(links := a1.links + [NewLink(a1, user, p, provider)]))
  }

  class AccountStore {
    var users: seq<User>
    var profiles: seq<Profile>
    var links: seq<LinkedAccount>

    function Snapshot(): (r: Accounts)
      reads this
    {
      Accounts(users, profiles, links)
    }

    /**
     * The identity cache `ctx` is consulted only by the profile's creating
     * hook, so only a registration can fill in its user.
     */
    method FindOrCreate(ctx: ACL.IdentityContext, w: ACL.World, p: ProviderUser, provider: string, password: string)
      returns (result: Returned)
      modifies this, ctx`user
      ensures Outcome(result, Snapshot()) ==
        FindOrCreateEffect(old(Snapshot()), p, provider, password, if old(ctx.user).Some? then old(ctx.user) else w.auth)
      ensures old(ctx.Coherent(w)) ==> ctx.Coherent(w)
    {
      var linked := FindLink(links, provider, p.id);
      if linked.Some? {
        var u := LinkedUser(users, links[linked.value]);
        return if u.Some? then Returns(u.value) else TypeError;
      }
      var email := p.email;
      if email.None? || !TruthyString(email.value) {
        return TypeError;
      }
      var found := UserByEmail(users, email.value);
      var u: User;
      if found.Some? {
        u := users[found.value];
      } else {
        u := User(|users| + 1, email.value, password, false);
        users := users + [u];
        var (first, last) := SplitName(p.name.GetOr(""));
        var owner := ctx.GetUserId(w);
        profiles := profiles + [Profile(|profiles| + 1, if owner.Some? then owner.value else u.id, first, last)];
      }
      links := links + [LinkedAccount(|links| + 1, u.id, p.id, provider)];
      result := Returns(u);
    }
  }
}
