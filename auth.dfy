/**
 * Registration, password login and the session gate. Passwords are stored as the hex SHA-256
 * digest of the plain text; the digest is a parameter here (`hash`), a deterministic function
 * whose internals are not modelled.
 */
module Auth {
  import opened Wrappers
  import opened Text
  import opened Schema
  import opened Storage
  import opened Subdomain

  /** `hashPassword`: a deterministic map from plain text to its stored digest. */
  type Hasher = string -> string

  /** A real SHA-256 hex digest is always 64 characters long. */
  ghost predicate HexDigestLength(hash: Hasher)
  {
    forall p :: |hash(p)| == 64
  }

  /**
   * Why `registerUser` refuses a body. `PasswordMissing` is the runtime error the hashing library
   * raises when the body has no password; its text comes from that library.
   */
  datatype RegisterError = UsernameExists | EmailExists | SubdomainExists | PasswordMissing

  function RegisterErrorMessage(e: RegisterError): Option<string>
  {
    match e
    case UsernameExists => Some("Username already exists")
    case EmailExists => Some("Email already exists")
    case SubdomainExists => Some("Subdomain already exists")
    case PasswordMissing => None
  }

  /**
   * The first check of `registerUser` that fails, in the code's order: username, email,
   * subdomain (each up to case), then the password the hash needs. No slug rule is applied.
   */
  function RegistrationError(users: seq<User>, data: InsertUser): (r: Option<RegisterError>)
    ensures r.None? <==>
      Lookup(users, UsernameColumn, data.username).None? &&
      Lookup(users, EmailColumn, data.email).None? &&
      Lookup(users, SubdomainColumn, data.subdomain).None? &&
      data.password.Some?
    ensures r == Some(UsernameExists) <==> Lookup(users, UsernameColumn, data.username).Some?
    ensures r == Some(EmailExists) <==>
      Lookup(users, UsernameColumn, data.username).None? && Lookup(users, EmailColumn, data.email).Some?
    ensures r == Some(SubdomainExists) <==>
      Lookup(users, UsernameColumn, data.username).None? && Lookup(users, EmailColumn, data.email).None? &&
      Lookup(users, SubdomainColumn, data.subdomain).Some?
  {
    if Lookup(users, UsernameColumn, data.username).Some? then Some(UsernameExists)
    else if Lookup(users, EmailColumn, data.email).Some? then Some(EmailExists)
    else if Lookup(users, SubdomainColumn, data.subdomain).Some? then Some(SubdomainExists)
    else if data.password.None? then Some(PasswordMissing)
    else None
  }

  /** The body `registerUser` hands to `createUser`: the same fields, the password replaced by its digest. */
  function HashedBody(data: InsertUser, hash: Hasher): InsertUser
    requires data.password.Some?
  {
    data.(password := Some(hash(data.password.value)))
  }

  /**
   * `registerUser`: on success exactly one user is appended, holding the body's fields with the
   * digest as password, and that user is returned without its password; on failure the store
   * is left as it was.
   */
  method RegisterUser(store: MemStorage, data: InsertUser, hash: Hasher, now: int)
    returns (r: Result<PublicUser, RegisterError>)
    requires store.Valid()
    modifies store
    ensures store.Valid()
    ensures r.Success? <==> RegistrationError(old(store.users), data).None?
    ensures r.Failure? ==>
      Some(r.error) == RegistrationError(old(store.users), data) &&
      store.users == old(store.users) && store.userIdCounter == old(store.userIdCounter)
    ensures r.Success? ==>
      data.password.Some? &&
      store.users == old(store.users) + [MakeUser(old(store.userIdCounter), HashedBody(data, hash), now)] &&
      store.userIdCounter == old(store.userIdCounter) + 1 &&
      r.value == WithoutPassword(store.users[|store.users| - 1])
    ensures store.contentItems == old(store.contentItems) && store.contentIdCounter == old(store.contentIdCounter)
  {
    if store.GetUserByUsername(data.username).Some? {
      return Failure(UsernameExists);
    }
    if store.GetUserByEmail(data.email).Some? {
      return Failure(EmailExists);
    }
    if store.GetUserBySubdomain(data.subdomain).Some? {
      return Failure(SubdomainExists);
    }
    if data.password.None? {
      return Failure(PasswordMissing);
    }
    var user := store.CreateUser(HashedBody(data, hash), now);
    r := Success(WithoutPassword(user));
  }

  /** No two users share a username, an email or a subdomain, even up to case. */
  predicate DistinctIgnoringCase(users: seq<User>)
  {
    forall i, j :: 0 <= i < j < |users| ==>
      !SameIgnoringCase(users[i].username, users[j].username) &&
      !SameIgnoringCase(users[i].email, users[j].email) &&
      !SameIgnoringCase(users[i].subdomain, users[j].subdomain)
  }

  /** Distinct up to case is stronger than the table's exact `.unique()` columns. */
  lemma DistinctIgnoringCaseIsUnique(users: seq<User>)
    requires DistinctIgnoringCase(users)
    ensures UniqueColumns(users)
  {
    forall i, j | 0 <= i < j < |users|
      ensures users[i].username != users[j].username && users[i].email != users[j].email &&
              users[i].subdomain != users[j].subdomain
    {
      assert !SameIgnoringCase(users[i].username, users[j].username);
      assert !SameIgnoringCase(users[i].email, users[j].email);
      assert !SameIgnoringCase(users[i].subdomain, users[j].subdomain);
    }
  }

  /** A user table built only by registrations stays distinct up to case. */
  lemma RegistrationKeepsDistinct(users: seq<User>, data: InsertUser, hash: Hasher, id: int, now: int)
    requires DistinctIgnoringCase(users)
    requires RegistrationError(users, data).None?
    ensures DistinctIgnoringCase(users + [MakeUser(id, HashedBody(data, hash), now)])
  {
    var u := MakeUser(id, HashedBody(data, hash), now);
    var t := users + [u];
    forall i, j | 0 <= i < j < |t|
      ensures !SameIgnoringCase(t[i].username, t[j].username) &&
              !SameIgnoringCase(t[i].email, t[j].email) &&
              !SameIgnoringCase(t[i].subdomain, t[j].subdomain)
    {
      if j == |users| {
        assert t[i] == users[i] && t[j] == u;
        assert !Matches(users[i], UsernameColumn, data.username);
        assert !Matches(users[i], EmailColumn, data.email);
        assert !Matches(users[i], SubdomainColumn, data.subdomain);
      } else {
        assert t[i] == users[i] && t[j] == users[j];
      }
    }
  }

  /**
   * Registration applies none of the slug rules: a body whose subdomain is the reserved word
   * "admin" is accepted when nobody holds it, although the validator rejects that slug.
   */
  lemma RegistrationAcceptsReservedSlug(users: seq<User>, data: InsertUser)
    requires data.subdomain == "admin" && data.password.Some?
    requires Lookup(users, UsernameColumn, data.username).None?
    requires Lookup(users, EmailColumn, data.email).None?
    requires Lookup(users, SubdomainColumn, data.subdomain).None?
    ensures RegistrationError(users, data).None?
    ensures ValidateSubdomain(data.subdomain, users) == Invalid(Reserved)
  {
    assert AllSlugChars("admin") by {
      forall i | 0 <= i < 5 ensures IsSlugChar("admin"[i]) {
        assert IsLowerAlpha("admin"[i]);
      }
    }
    assert "admin" == ReservedWords[0];
  }

  /** The session data login hands back: `{ userId, username }`. */
  datatype SessionData = SessionData(userId: int, username: string)

  const InvalidCredentials: string := "Invalid username or password"

  /**
   * `loginUser`: the first user whose username matches up to case, if its stored password is
   * the digest of the supplied one; the same message whether the user is unknown or the
   * password wrong. A user without a stored password never matches.
   */
  function Login(users: seq<User>, l: Schema.LoginUser, hash: Hasher): (r: Result<SessionData, string>)
    ensures r.Success? <==>
      Lookup(users, UsernameColumn, l.username).Some? &&
      Lookup(users, UsernameColumn, l.username).value.password == Some(hash(l.password))
    ensures r.Success? ==>
      r.value.userId == Lookup(users, UsernameColumn, l.username).value.id &&
      r.value.username == Lookup(users, UsernameColumn, l.username).value.username
    ensures r.Failure? ==> r.error == InvalidCredentials
  {
    match Lookup(users, UsernameColumn, l.username)
    case None => Failure(InvalidCredentials)
    case Some(user) =>
      if user.password != Some(hash(l.password)) then Failure(InvalidCredentials)
      else Success(SessionData(user.id, user.username))
  }

  /** Logging in right after registering, with the registered username and password, succeeds. */
  lemma {:induction false} RegisterThenLogin(users: seq<User>, data: InsertUser, hash: Hasher, id: int, now: int)
    requires RegistrationError(users, data).None?
    ensures var u := MakeUser(id, HashedBody(data, hash), now);
      Login(users + [u], Schema.LoginUser(data.username, data.password.value), hash) ==
        Success(SessionData(id, data.username))
  {
    var u := MakeUser(id, HashedBody(data, hash), now);
    LookupAppend(users, u, UsernameColumn, data.username);
    assert Matches(u, UsernameColumn, data.username);
  }

  /** After registering, a password whose digest differs from the registered one is refused. */
  lemma {:induction false} RegisterThenWrongPassword(users: seq<User>, data: InsertUser, hash: Hasher, id: int,
                                                      now: int, guess: string)
    requires RegistrationError(users, data).None?
    requires hash(guess) != hash(data.password.value)
    ensures var u := MakeUser(id, HashedBody(data, hash), now);
      Login(users + [u], Schema.LoginUser(data.username, guess), hash) == Failure(InvalidCredentials)
  {
    var u := MakeUser(id, HashedBody(data, hash), now);
    LookupAppend(users, u, UsernameColumn, data.username);
    assert Matches(u, UsernameColumn, data.username);
  }

  /**
   * A password stored as plain text (as the test-login route stores "test") can never be used
   * to log in when the digest is 64 characters long.
   */
  lemma PlainPasswordCannotLogIn(users: seq<User>, l: Schema.LoginUser, hash: Hasher)
    requires HexDigestLength(hash)
    requires Lookup(users, UsernameColumn, l.username).Some?
    requires Lookup(users, UsernameColumn, l.username).value.password == Some(l.password)
    requires |l.password| != 64
    ensures Login(users, l, hash) == Failure(InvalidCredentials)
  {
    assert |hash(l.password)| == 64;
  }

  /** The per-request session of express-session; `userId` and `username` are set by the login routes. */
  class Session {
    var userId: Option<int>
    var username: Option<string>

    constructor ()
      ensures userId.None? && username.None?
    {
      userId := None;
      username := None;
    }
  }

  /** The part of an incoming request the gate reads: its session, when one is attached. */
  class Request {
    var session: Session?

    constructor (s: Session?)
      ensures session == s
    {
      session := s;
    }
  }

  /** `authenticateUser`: a session exists and its `userId` is truthy (present and not 0). */
  predicate AuthenticateUser(req: Request)
    reads req, req.session
    ensures AuthenticateUser(req) ==> req.session != null && req.session.userId.Some?
    ensures req.session != null && req.session.userId == Some(0) ==> !AuthenticateUser(req)
  {
    req.session != null && req.session.userId.Some? && req.session.userId.value != 0
  }

  /** What `requireAuth` does with a request: pass it on, or answer it with a status and message. */
  datatype Gate = Proceed | Reject(status: int, message: string)

  /** `requireAuth`: 401 "Authentication required" unless the request is authenticated. */
  function RequireAuth(req: Request): (g: Gate)
    reads req, req.session
    ensures g.Proceed? <==> req.session != null && req.session.userId.Some? && req.session.userId.value != 0
    ensures g.Reject? ==> g == Reject(401, "Authentication required")
  {
    if !AuthenticateUser(req) then Reject(401, "Authentication required") else Proceed
  }

  /** `logoutUser`: destroys the request's session, if any; afterwards the gate refuses the request. */
  method LogoutUser(req: Request)
    modifies req
    ensures req.session == null
    ensures RequireAuth(req) == Reject(401, "Authentication required")
  {
    if req.session != null {
      req.session := null;
    }
  }
}
