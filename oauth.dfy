/**
 * Sign-in through an identity provider: an account is found by its (provider, provider id)
 * pair, refused when its email is already in use, and otherwise provisioned with a generated
 * username and subdomain.
 */
module OAuth {
  import opened Wrappers
  import opened Text
  import opened Schema
  import opened Storage
  import opened Subdomain
  import opened Auth

  /** `u.authProvider === provider && u.providerId === providerId`. */
  predicate HasIdentity(u: User, provider: Provider, providerId: string)
  {
    u.authProvider == Some(ProviderName(provider)) && u.providerId == Some(providerId)
  }

  /** `getUserByProvider`: the first user, in id order, holding the provider identity. */
  function GetUserByProvider(users: seq<User>, provider: Provider, providerId: string): (r: Option<User>)
    ensures r.None? <==> forall i :: 0 <= i < |users| ==> !HasIdentity(users[i], provider, providerId)
    ensures r.Some? ==> exists i :: 0 <= i < |users| && users[i] == r.value &&
                          HasIdentity(users[i], provider, providerId) &&
                          forall j :: 0 <= j < i ==> !HasIdentity(users[j], provider, providerId)
  {
    Find(users, u => HasIdentity(u, provider, providerId))
  }

  predicate IsLowerAlnum(c: char) { IsLowerAlpha(c) || IsDigit(c) }

  const UsernameLength: nat := 15

  /**
   * `generateUsername`: from a non-empty display name, its lower-cased ASCII letters and digits;
   * otherwise the part of the email before the first `@`; either way cut to 15 characters.
   */
  function GenerateUsername(email: string, displayName: Option<string>): (r: string)
    ensures |r| <= UsernameLength
    ensures Truthy(displayName) ==> forall i :: 0 <= i < |r| ==> IsLowerAlnum(r[i])
    ensures Truthy(displayName) ==> r == TakeFirst(Filter(Lower(displayName.value), IsLowerAlnum), UsernameLength)
    ensures !Truthy(displayName) ==>
      && |r| <= |email| && r == email[..|r|]
      && '@' !in r
      && (|r| == UsernameLength || |r| == |email| || email[|r|] == '@')
  {
    if Truthy(displayName) then TakeFirst(Filter(Lower(displayName.value), IsLowerAlnum), UsernameLength)
    else TakeFirst(BeforeFirst(email, '@'), UsernameLength)
  }

  /** Only the display name's letters and digits matter, not their case. */
  lemma UsernameIgnoresDisplayNameCase(email: string, name: string)
    ensures GenerateUsername(email, Some(Lower(name))) == GenerateUsername(email, Some(name))
  {
    LowerIdempotent(name);
  }

  /** A display name with no ASCII letter or digit, a Thai one for instance, gives the empty username. */
  lemma UsernameCanBeEmpty(email: string, name: string)
    requires name != ""
    requires forall i :: 0 <= i < |name| ==> !IsLowerAlnum(LowerChar(name[i]))
    ensures GenerateUsername(email, Some(name)) == ""
  {
  }

  /** Without a display name, a short local part is used whole. */
  lemma UsernameFromShortLocalPart(email: string, local: string, domain: string)
    requires email == local + "@" + domain && '@' !in local && |local| <= UsernameLength
    ensures GenerateUsername(email, None) == local
  {
    var b := BeforeFirst(email, '@');
    assert email[..|local|] == local;
    assert email[|local|] == '@';
    assert b == local;
  }

  const EmailTaken: string := "Email already associated with another account"

  /** The name the new account is known by: the display name when it is non-empty, else the username. */
  function NameOrUsername(data: OAuthUser): string
  {
    OrElse(data.displayName, GenerateUsername(data.email, data.displayName))
  }

  /** The `InsertUser` for a new provider account: no password, language "th". */
  function NewOAuthUser(users: seq<User>, data: OAuthUser, now: nat): (r: InsertUser)
    ensures r.password.None? && r.preferredLanguage == Some(DefaultLanguage)
    ensures r.email == data.email && r.authProvider == Some(ProviderName(data.authProvider))
    ensures r.providerId == Some(data.providerId)
    ensures r.displayName == data.displayName && r.photoURL == data.photoURL
    ensures r.businessName == NameOrUsername(data)
    ensures r.username == GenerateUsername(data.email, data.displayName)
    ensures r.subdomain == Allocate(CreateSubdomain(NameOrUsername(data)), users, now)
  {
    var username := GenerateUsername(data.email, data.displayName);
    InsertUser(username, None, data.email, NameOrUsername(data),
               Allocate(CreateSubdomain(NameOrUsername(data)), users, now), Some(DefaultLanguage),
               Some(ProviderName(data.authProvider)), Some(data.providerId), data.displayName, data.photoURL)
  }

  /**
   * What `processOAuthLogin` does to a user table: the session answer and the table afterwards.
   * The provider identity is matched first, the email second; the new user takes the next id.
   */
  function OAuthLogin(users: seq<User>, data: OAuthUser, now: nat): (r: (Result<SessionData, string>, seq<User>))
    ensures r.0.Failure? ==> r.0.error == EmailTaken && r.1 == users
    ensures r.1 == users || (|r.1| == |users| + 1 && r.1[..|users|] == users)
  {
    match GetUserByProvider(users, data.authProvider, data.providerId)
    case Some(u) => (Success(SessionData(u.id, u.username)), users)
    case None =>
      if Lookup(users, EmailColumn, data.email).Some? then (Failure(EmailTaken), users)
      else
        var u := MakeUser(|users| + 1, NewOAuthUser(users, data, now), now);
        (Success(SessionData(u.id, u.username)), users + [u])
  }

  /**
   * `processOAuthLogin` on the store: the answer and the new user table are those of
   * `OAuthLogin`, and content is untouched.
   */
  method ProcessOAuthLogin(store: MemStorage, data: OAuthUser, now: nat) returns (r: Result<SessionData, string>)
    requires store.Valid()
    modifies store
    ensures store.Valid()
    ensures (r, store.users) == OAuthLogin(old(store.users), data, now)
    ensures store.contentItems == old(store.contentItems) && store.contentIdCounter == old(store.contentIdCounter)
  {
    var byProvider := GetUserByProvider(store.GetAllUsers(), data.authProvider, data.providerId);
    if byProvider.Some? {
      return Success(SessionData(byProvider.value.id, byProvider.value.username));
    }
    if store.GetUserByEmail(data.email).Some? {
      return Failure(EmailTaken);
    }
    var username := GenerateUsername(data.email, data.displayName);
    var subdomain := GenerateUniqueSubdomain(CreateSubdomain(OrElse(data.displayName, username)), store, now);
    var newUser := InsertUser(username, None, data.email, OrElse(data.displayName, username), subdomain,
                              Some(DefaultLanguage), Some(ProviderName(data.authProvider)),
                              Some(data.providerId), data.displayName, data.photoURL);
    assert newUser == NewOAuthUser(store.users, data, now);
    var user := store.CreateUser(newUser, now);
    r := Success(SessionData(user.id, user.username));
  }

  /**
   * The outcome, case by case: a provider match answers with that user whatever the email; else
   * a used email (up to case) is refused; else exactly one user is added, holding the provider
   * identity, and answered with.
   */
  lemma OAuthLoginCases(users: seq<User>, data: OAuthUser, now: nat)
    ensures var (r, after) := OAuthLogin(users, data, now);
      && (GetUserByProvider(users, data.authProvider, data.providerId).Some? ==>
            after == users &&
            r == Success(SessionData(GetUserByProvider(users, data.authProvider, data.providerId).value.id,
                                     GetUserByProvider(users, data.authProvider, data.providerId).value.username)))
      && (GetUserByProvider(users, data.authProvider, data.providerId).None? &&
          Lookup(users, EmailColumn, data.email).Some? ==>
            after == users && r == Failure(EmailTaken))
      && (GetUserByProvider(users, data.authProvider, data.providerId).None? &&
          Lookup(users, EmailColumn, data.email).None? ==>
            |after| == |users| + 1 && after[..|users|] == users &&
            HasIdentity(after[|users|], data.authProvider, data.providerId) &&
            after[|users|].password.None? &&
            r == Success(SessionData(|users| + 1, GenerateUsername(data.email, data.displayName))))
  {
    if GetUserByProvider(users, data.authProvider, data.providerId).None? &&
       Lookup(users, EmailColumn, data.email).None? {
      var fields := NewOAuthUser(users, data, now);
      var u := MakeUser(|users| + 1, fields, now);
      assert OAuthLogin(users, data, now) == (Success(SessionData(u.id, u.username)), users + [u]);
      assert HasIdentity(u, data.authProvider, data.providerId);
      assert (users + [u])[..|users|] == users;
    }
  }

  /** Signing in again with the same identity right after provisioning finds the new account. */
  lemma {:induction false} OAuthLoginIdempotent(users: seq<User>, data: OAuthUser, now: nat, later: nat)
    ensures var (r1, after1) := OAuthLogin(users, data, now);
      var (r2, after2) := OAuthLogin(after1, data, later);
      r1.Success? ==> r2 == r1 && after2 == after1
  {
    var (r1, after1) := OAuthLogin(users, data, now);
    var match0 := GetUserByProvider(users, data.authProvider, data.providerId);
    if match0.None? && Lookup(users, EmailColumn, data.email).None? {
      var u := MakeUser(|users| + 1, NewOAuthUser(users, data, now), now);
      assert after1 == users + [u];
      FindAppend(users, u, x => HasIdentity(x, data.authProvider, data.providerId));
      assert GetUserByProvider(after1, data.authProvider, data.providerId) == Some(u);
    }
  }

  /**
   * The generated username is never checked: two provider accounts with different emails and the
   * same display name, signing in one after the other on an empty store, get the same username,
   * against the table's declared uniqueness.
   */
  lemma {:induction false} OAuthCanDuplicateUsername(a: OAuthUser, b: OAuthUser, now: nat)
    requires Truthy(a.displayName) && b.displayName == a.displayName
    requires a.providerId != b.providerId
    requires !SameIgnoringCase(a.email, b.email)
    ensures var (r1, after1) := OAuthLogin([], a, now);
      var (r2, after2) := OAuthLogin(after1, b, now);
      r1.Success? && r2.Success? && |after2| == 2 &&
      after2[0].username == after2[1].username && !UniqueColumns(after2)
  {
    var (r1, after1) := OAuthLogin([], a, now);
    assert |after1| == 1;
    assert !HasIdentity(after1[0], b.authProvider, b.providerId);
    assert GetUserByProvider(after1, b.authProvider, b.providerId).None?;
    assert !Matches(after1[0], EmailColumn, b.email);
    assert Lookup(after1, EmailColumn, b.email).None?;
  }

  /**
   * Registration stores whatever provider fields the body carries, so an account registered
   * with `authProvider: "google"` and some provider id is signed into by a later Google login
   * with that id, whatever the email and without any password.
   */
  lemma {:induction false} RegisteredIdentityIsSignedInto(users: seq<User>, body: InsertUser, hash: Hasher,
                                                          now: nat, data: OAuthUser)
    requires RegistrationError(users, body).None?
    requires body.authProvider == Some("google") && body.providerId == Some(data.providerId)
    requires data.authProvider == Google
    requires GetUserByProvider(users, Google, data.providerId).None?
    ensures var u := MakeUser(|users| + 1, HashedBody(body, hash), now);
      OAuthLogin(users + [u], data, now) == (Success(SessionData(|users| + 1, body.username)), users + [u])
  {
    var u := MakeUser(|users| + 1, HashedBody(body, hash), now);
    FindAppend(users, u, x => HasIdentity(x, Google, data.providerId));
    assert HasIdentity(u, Google, data.providerId);
    assert GetUserByProvider(users + [u], Google, data.providerId) == Some(u);
  }
}
