/**
 * What signing in through a provider promises: an existing link decides the
 * user (a TypeError when that user is gone) and nothing is written; no
 * usable email means a TypeError and nothing written; otherwise exactly one link is added, to the user found by email
 * or to a new user with a profile; and signing in again with the same
 * provider account finds that link and changes nothing.
 */
module SocialAccountsServiceProperties {
  import opened Wrappers
  import opened SocialAccountsService

  /** Row ids are positions plus one, and profiles and links point at existing users. */
  predicate Valid(a: Accounts)
  {
    && (forall i :: 0 <= i < |a.users| ==> a.users[i].id == i + 1)
    && (forall i :: 0 <= i < |a.profiles| ==> a.profiles[i].id == i + 1 && 1 <= a.profiles[i].userId <= |a.users|)
    && (forall i :: 0 <= i < |a.links| ==> a.links[i].id == i + 1 && 1 <= a.links[i].userId <= |a.users|)
  }

  /** Whether the call goes past the two early returns. */
  predicate Registers(a: Accounts, p: ProviderUser, provider: string)
  {
    FindLink(a.links, provider, p.id).None? && p.email.Some? && TruthyString(p.email.value)
  }

  /** With ids keyed by position, `->user` is the row at the account's user id, or null when that row is trashed. */
  lemma LinkedUserKeyed(users: seq<User>, l: LinkedAccount)
    requires forall i :: 0 <= i < |users| ==> users[i].id == i + 1
    requires 1 <= l.userId <= |users|
    ensures LinkedUser(users, l) == if users[l.userId - 1].trashed then None else Some(users[l.userId - 1])
  {
    var u := users[l.userId - 1];
    assert u.id == l.userId;
  }

  /** A link appended after a search that found none is the one found next time. */
  lemma FindLinkAppended(links: seq<LinkedAccount>, l: LinkedAccount, provider: string, providerId: string)
    requires FindLink(links, provider, providerId).None?
    requires LinksTo(l, provider, providerId)
    ensures FindLink(links + [l], provider, providerId) == Some(|links|)
  {
    assert (links + [l])[|links|] == l;
    assert forall j :: 0 <= j < |links| ==> (links + [l])[j] == links[j];
  }

  /** An existing link for the provider account decides the result, and nothing is written. */
  lemma ExistingLinkDecides(a: Accounts, p: ProviderUser, provider: string, password: string, actor: Option<nat>)
    requires Valid(a)
    requires FindLink(a.links, provider, p.id).Some?
    ensures var r := FindOrCreateEffect(a, p, provider, password, actor);
      var l := a.links[FindLink(a.links, provider, p.id).value];
      && r.accounts == a
      && LinksTo(l, provider, p.id)
      && r.result == (if a.users[l.userId - 1].trashed then TypeError else Returns(a.users[l.userId - 1]))
  {
    var l := a.links[FindLink(a.links, provider, p.id).value];
    LinkedUserKeyed(a.users, l);
  }

  /**
   * Without a link and without a usable email (null, "" or "0") the code
   * returns null from a method declared to return a `User`: a TypeError,
   * and nothing is written.
   */
  lemma NoEmailNoUser(a: Accounts, p: ProviderUser, provider: string, password: string, actor: Option<nat>)
    requires FindLink(a.links, provider, p.id).None?
    requires p.email.None? || !TruthyString(p.email.value)
    ensures FindOrCreateEffect(a, p, provider, password, actor) == Outcome(TypeError, a)
  {
  }

  /** A live user with the email already exists: no user or profile is created, one link to that user is added. */
  lemma KnownEmailOnlyLinks(a: Accounts, p: ProviderUser, provider: string, password: string, actor: Option<nat>)
    requires Registers(a, p, provider)
    requires UserByEmail(a.users, p.email.value).Some?
    ensures var r := FindOrCreateEffect(a, p, provider, password, actor);
      var i := UserByEmail(a.users, p.email.value).value;
      && a.users[i].email == p.email.value && !a.users[i].trashed
      && (forall j :: 0 <= j < i ==> a.users[j].email != p.email.value || a.users[j].trashed)
      && r.result == Returns(a.users[i])
      && r.accounts.users == a.users && r.accounts.profiles == a.profiles
      && r.accounts.links == a.links + [LinkedAccount(|a.links| + 1, a.users[i].id, p.id, provider)]
  {
  }

  /**
   * No live user has the email: a live user with that email is appended,
   * with a profile holding the display name split at its first space and
   * owned by the acting user if there is one, else by the new user; and one
   * link to the new user is added.
   */
  lemma NewEmailRegisters(a: Accounts, p: ProviderUser, provider: string, password: string, actor: Option<nat>)
    requires Registers(a, p, provider)
    requires UserByEmail(a.users, p.email.value).None?
    ensures var r := FindOrCreateEffect(a, p, provider, password, actor);
      var u := r.result.user;
      var name := p.name.GetOr("");
      && r.result.Returns? && u.email == p.email.value && !u.trashed && u.id == |a.users| + 1
      && (forall j :: 0 <= j < |a.users| ==> a.users[j].email != p.email.value || a.users[j].trashed)
      && r.accounts.users == a.users + [u]
      && |r.accounts.profiles| == |a.profiles| + 1 && r.accounts.profiles[..|a.profiles|] == a.profiles
      && r.accounts.profiles[|a.profiles|].userId == (if actor.Some? then actor.value else u.id)
      && ' ' !in r.accounts.profiles[|a.profiles|].firstName
      && (' ' in name ==> r.accounts.profiles[|a.profiles|].firstName + " " + r.accounts.profiles[|a.profiles|].lastName == name)
      && (' ' !in name ==> r.accounts.profiles[|a.profiles|].firstName == name && r.accounts.profiles[|a.profiles|].lastName == "")
      && r.accounts.links == a.links + [LinkedAccount(|a.links| + 1, u.id, p.id, provider)]
  {
    var r := FindOrCreateEffect(a, p, provider, password, actor);
    assert r.accounts.profiles == a.profiles + [NewProfile(a, r.result.user, p.name, actor)];
  }

  /** Every call that gets past the early returns adds exactly one link, for this provider account, to the returned user. */
  lemma RegisteringAddsOneLink(a: Accounts, p: ProviderUser, provider: string, password: string, actor: Option<nat>)
    requires Registers(a, p, provider)
    ensures var r := FindOrCreateEffect(a, p, provider, password, actor);
      && r.result.Returns?
      && |r.accounts.links| == |a.links| + 1
      && r.accounts.links[..|a.links|] == a.links
      && LinksTo(r.accounts.links[|a.links|], provider, p.id)
      && r.accounts.links[|a.links|].userId == r.result.user.id
  {
    var r := FindOrCreateEffect(a, p, provider, password, actor);
    assert r.accounts.links[..|a.links|] == a.links;
  }

  /**
   * `findOrCreate` keeps ids keyed and every link and profile pointing at a
   * user, provided the acting user the profile hook reads is a user too.
   */
  lemma FindOrCreateKeepsValid(a: Accounts, p: ProviderUser, provider: string, password: string, actor: Option<nat>)
    requires Valid(a)
    requires actor.Some? ==> 1 <= actor.value <= |a.users|
    ensures Valid(FindOrCreateEffect(a, p, provider, password, actor).accounts)
  {
    if Registers(a, p, provider) {
      var r := FindOrCreateEffect(a, p, provider, password, actor).accounts;
      match UserByEmail(a.users, p.email.value)
      case Some(i) =>
        assert r == a.(links := a.links + [NewLink(a, a.users[i], p, provider)]);
      case None =>
        var u := NewUser(a, p.email.value, password);
        var a1 := a.(users := a.users + [u], profiles := a.profiles + [NewProfile(a, u, p.name, actor)]);
        assert Valid(a1);
        assert r == a1.(links := a1.links + [NewLink(a1, u, p, provider)]);
    }
  }

  /**
   * Signing in again with the same provider account returns the same user
   * and writes nothing, whatever the second call's password and actor.
   */
  lemma SignInAgainFindsSameUser(a: Accounts, p: ProviderUser, provider: string, password: string, actor: Option<nat>,
                                 password2: string, actor2: Option<nat>)
    requires Valid(a)
    requires actor.Some? ==> 1 <= actor.value <= |a.users|
    requires FindOrCreateEffect(a, p, provider, password, actor).result.Returns?
    ensures var r := FindOrCreateEffect(a, p, provider, password, actor);
      FindOrCreateEffect(r.accounts, p, provider, password2, actor2) == r
  {
    var r := FindOrCreateEffect(a, p, provider, password, actor);
    FindOrCreateKeepsValid(a, p, provider, password, actor);
    if Registers(a, p, provider) {
      var u := r.result.user;
      var l := r.accounts.links[|a.links|];
      assert r.accounts.links == a.links + [l];
      FindLinkAppended(a.links, l, provider, p.id);
      LinkedUserKeyed(r.accounts.users, l);
      assert r.accounts.users[u.id - 1] == u;
    } else {
      assert FindLink(a.links, provider, p.id).Some?;
    }
  }
}
