/**
 * The request handlers of the HTTP API, each as a method (when it changes the store or the
 * session) or a function (when it only reads) returning the status and JSON body it answers.
 * Request bodies arrive already split into their fields; a field the client left out is `None`.
 */
module Routes {
  import opened Wrappers
  import opened Text
  import opened Schema
  import opened Storage
  import opened Subdomain
  import opened Auth
  import opened OAuth

  /** The JSON bodies the handlers send. */
  datatype Body =
    | Message(message: string)
      /** `{ success: true, message }` */
    | Ack(message: string)
    | UserInfo(user: PublicUser)
      /** `{ message: error.message }`; `None` stands for a message written by a library. */
    | ErrorText(text: Option<string>)
      /** `{ message: "OAuth login failed", error, details }`; `None` as above. */
    | OAuthFailed(error: Option<string>)
    | ValidationResult(valid: bool, reason: Option<string>)
    | Generated(title: string, content: string)
    | Item(item: ContentItem)
    | Items(items: seq<ContentItem>)

  datatype Reply = Reply(status: int, body: Body)

  const Unauthenticated: Reply := Reply(401, Message("Authentication required"))

  /** The user id of a request the gate let through. */
  function SessionUser(req: Request): int
    reads req, req.session
    requires AuthenticateUser(req)
  {
    req.session.userId.value
  }

  /** POST /api/auth/register: 201 with the new user without its password, else 400 with the reason. */
  method RegisterRoute(store: MemStorage, body: InsertUser, hash: Hasher, now: int) returns (reply: Reply)
    requires store.Valid()
    modifies store
    ensures store.Valid()
    ensures reply.status == 201 <==> RegistrationError(old(store.users), body).None?
    ensures reply.status == 201 ==>
      store.users == old(store.users) + [MakeUser(old(store.userIdCounter), HashedBody(body, hash), now)] &&
      reply.body == UserInfo(WithoutPassword(store.users[|store.users| - 1]))
    ensures reply.status != 201 ==>
      reply.status == 400 && store.users == old(store.users) &&
      reply.body == ErrorText(RegisterErrorMessage(RegistrationError(old(store.users), body).value))
    ensures store.contentItems == old(store.contentItems) && store.contentIdCounter == old(store.contentIdCounter)
  {
    var r := RegisterUser(store, body, hash, now);
    match r
    case Success(user) => reply := Reply(201, UserInfo(user));
    case Failure(e) => reply := Reply(400, ErrorText(RegisterErrorMessage(e)));
  }

  /**
   * POST /api/auth/login: the session is filled in only when `loginUser` succeeds, and the request
   * is then authenticated; otherwise 401 with the single credentials message.
   */
  method LoginRoute(req: Request, store: MemStorage, body: Schema.LoginUser, hash: Hasher) returns (reply: Reply)
    requires store.Valid() && req.session != null
    modifies req.session
    ensures Login(store.users, body, hash).Success? ==>
      var s := Login(store.users, body, hash).value;
      reply == Reply(200, Ack("Login successful")) &&
      req.session.userId == Some(s.userId) && req.session.username == Some(s.username) &&
      AuthenticateUser(req)
    ensures Login(store.users, body, hash).Failure? ==>
      reply == Reply(401, Message(InvalidCredentials)) &&
      req.session.userId == old(req.session.userId) && req.session.username == old(req.session.username)
  {
    var r := Login(store.users, body, hash);
    match r
    case Failure(message) =>
      reply := Reply(401, Message(message));
    case Success(s) =>
      var u := Lookup(store.users, UsernameColumn, body.username).value;
      assert u in store.users;
      req.session.userId := Some(s.userId);
      req.session.username := Some(s.username);
      reply := Reply(200, Ack("Login successful"));
  }

  /** POST /api/auth/logout: always answers success; the request is no longer authenticated. */
  method LogoutRoute(req: Request) returns (reply: Reply)
    modifies req
    ensures reply == Reply(200, Ack("Logged out successfully"))
    ensures !AuthenticateUser(req)
  {
    LogoutUser(req);
    reply := Reply(200, Ack("Logged out successfully"));
  }

  /**
   * POST /api/auth/oauth: a body the schema refuses, or a sign-in that fails, answers 401 and
   * leaves store and session alone; a sign-in that succeeds fills in the session.
   */
  method OAuthRoute(req: Request, store: MemStorage, raw: OAuthRequest, isEmail: string -> bool, now: nat)
    returns (reply: Reply)
    requires store.Valid() && req.session != null
    modifies store, req.session
    ensures store.Valid()
    ensures ParseOAuthUser(raw, isEmail).None? ==>
      reply == Reply(401, OAuthFailed(None)) && store.users == old(store.users) &&
      req.session.userId == old(req.session.userId) && req.session.username == old(req.session.username)
    ensures ParseOAuthUser(raw, isEmail).Some? ==>
      var (r, after) := OAuthLogin(old(store.users), ParseOAuthUser(raw, isEmail).value, now);
      && store.users == after
      && (r.Success? ==>
            reply == Reply(200, Ack("OAuth login successful")) &&
            req.session.userId == Some(r.value.userId) && req.session.username == Some(r.value.username))
      && (r.Failure? ==>
            reply == Reply(401, OAuthFailed(Some(r.error))) &&
            req.session.userId == old(req.session.userId) && req.session.username == old(req.session.username))
    ensures store.contentItems == old(store.contentItems) && store.contentIdCounter == old(store.contentIdCounter)
  {
    var parsed := ParseOAuthUser(raw, isEmail);
    if parsed.None? {
      return Reply(401, OAuthFailed(None));
    }
    var r := ProcessOAuthLogin(store, parsed.value, now);
    match r
    case Failure(e) =>
      reply := Reply(401, OAuthFailed(Some(e)));
    case Success(s) =>
      req.session.userId := Some(s.userId);
      req.session.username := Some(s.username);
      reply := Reply(200, Ack("OAuth login successful"));
  }

  /** The account the test login creates: its password is stored as it is, not hashed. */
  const TestUserBody: InsertUser :=
    InsertUser("test", Some("test"), "test@example.com", "Test Business", "test", Some("th"),
               None, None, None, None)

  /**
   * POST /api/auth/test-login: only username "test" with password "test" is let in. The user
   * named "test" (up to case) is created first when there is none; the session then holds it.
   */
  method TestLoginRoute(req: Request, store: MemStorage, username: Option<string>, password: Option<string>, now: int)
    returns (reply: Reply)
    requires store.Valid() && req.session != null
    modifies store, req.session
    ensures store.Valid()
    ensures username != Some("test") || password != Some("test") ==>
      reply == Reply(401, Message("Invalid test credentials")) && store.users == old(store.users) &&
      req.session.userId == old(req.session.userId) && req.session.username == old(req.session.username)
    ensures username == Some("test") && password == Some("test") ==>
      && reply == Reply(200, Ack("Test login successful"))
      && store.users ==
           (if Lookup(old(store.users), UsernameColumn, "test").Some? then old(store.users)
            else old(store.users) + [MakeUser(old(store.userIdCounter), TestUserBody, now)])
      && Lookup(store.users, UsernameColumn, "test").Some?
      && req.session.userId == Some(Lookup(store.users, UsernameColumn, "test").value.id)
      && req.session.username == Some(Lookup(store.users, UsernameColumn, "test").value.username)
    ensures store.contentItems == old(store.contentItems) && store.contentIdCounter == old(store.contentIdCounter)
  {
    if username == Some("test") && password == Some("test") {
      var testUser := store.GetUserByUsername("test");
      if testUser.None? {
        var created := store.CreateUser(TestUserBody, now);
        LookupAppend(old(store.users), created, UsernameColumn, "test");
        testUser := Some(created);
      }
      req.session.userId := Some(testUser.value.id);
      req.session.username := Some(testUser.value.username);
      return Reply(200, Ack("Test login successful"));
    }
    reply := Reply(401, Message("Invalid test credentials"));
  }

  /**
   * The test account cannot use the password login: its stored password is the plain "test",
   * never equal to a 64-character digest.
   */
  lemma {:induction false} TestUserCannotUsePasswordLogin(users: seq<User>, hash: Hasher, id: int, now: int)
    requires HexDigestLength(hash)
    requires Lookup(users, UsernameColumn, "test").None?
    ensures Login(users + [MakeUser(id, TestUserBody, now)], Schema.LoginUser("test", "test"), hash) ==
      Failure(InvalidCredentials)
  {
    var u := MakeUser(id, TestUserBody, now);
    LookupAppend(users, u, UsernameColumn, "test");
    assert Matches(u, UsernameColumn, "test");
    PlainPasswordCannotLogIn(users + [u], Schema.LoginUser("test", "test"), hash);
  }

  /**
   * The test account's slug and email are not checked either: when another user already holds
   * the subdomain "test", creating the test account breaks the table's uniqueness.
   */
  lemma TestUserCanDuplicateSubdomain(users: seq<User>, i: nat, id: int, now: int)
    requires i < |users| && users[i].subdomain == "test"
    ensures !UniqueColumns(users + [MakeUser(id, TestUserBody, now)])
  {
    var t := users + [MakeUser(id, TestUserBody, now)];
    assert t[i].subdomain == t[|users|].subdomain;
  }

  /** GET /api/auth/me: 401 without a session user, 404 when that user is gone, else the user without password. */
  function MeRoute(req: Request, store: MemStorage): (reply: Reply)
    reads req, req.session, store
    requires store.Valid()
    ensures !AuthenticateUser(req) ==> reply == Unauthenticated
    ensures AuthenticateUser(req) && !(1 <= SessionUser(req) <= |store.users|) ==>
      reply == Reply(404, Message("User not found"))
    ensures AuthenticateUser(req) && 1 <= SessionUser(req) <= |store.users| ==>
      reply == Reply(200, UserInfo(WithoutPassword(store.users[SessionUser(req) - 1]))) &&
      reply.body.user.id == SessionUser(req)
  {
    if RequireAuth(req).Reject? then Unauthenticated
    else
      match store.GetUser(SessionUser(req))
      case None => Reply(404, Message("User not found"))
      case Some(u) => Reply(200, UserInfo(WithoutPassword(u)))
  }

  /**
   * POST /api/subdomain/validate: a missing or empty subdomain is refused before the validator
   * runs; otherwise 200 with the validator's verdict and, on rejection, its message.
   */
  function ValidateSubdomainRoute(subdomain: Option<string>, users: seq<User>): (reply: Reply)
    ensures !Truthy(subdomain) ==> reply == Reply(400, ValidationResult(false, Some("Subdomain is required")))
    ensures Truthy(subdomain) ==>
      reply.status == 200 && reply.body.ValidationResult? &&
      (reply.body.valid <==> ValidateSubdomain(subdomain.value, users).Valid?) &&
      (reply.body.reason.Some? <==> !reply.body.valid)
    ensures Truthy(subdomain) && ValidateSubdomain(subdomain.value, users).Invalid? ==>
      reply.body.reason == Some(RejectionMessage(ValidateSubdomain(subdomain.value, users).reason))
  {
    if !Truthy(subdomain) then Reply(400, ValidationResult(false, Some("Subdomain is required")))
    else
      var (valid, message) := ValidationReply(ValidateSubdomain(subdomain.value, users));
      Reply(200, ValidationResult(valid, message))
  }

  /** What the content generator gave back: a title and a text, or nothing when it failed. */
  type Generator = ContentGeneration -> Option<(string, string)>

  /**
   * POST /api/content/generate: gated; a body the schema refuses is 400, a generator failure 500,
   * otherwise the generated title and content.
   */
  function GenerateRoute(req: Request, raw: GenerationRequest, generate: Generator): (reply: Reply)
    reads req, req.session
    ensures !AuthenticateUser(req) ==> reply == Unauthenticated
    ensures AuthenticateUser(req) && ParseContentGeneration(raw).None? ==>
      reply == Reply(400, Message("Invalid content parameters"))
    ensures AuthenticateUser(req) && ParseContentGeneration(raw).Some? ==>
      (reply.status == 200 <==> generate(ParseContentGeneration(raw).value).Some?) &&
      (reply.status != 200 ==> reply == Reply(500, Message("Failed to generate content"))) &&
      (reply.status == 200 ==>
         var (title, content) := generate(ParseContentGeneration(raw).value).value;
         reply.body == Generated(title, content))
  {
    if RequireAuth(req).Reject? then Unauthenticated
    else
      match ParseContentGeneration(raw)
      case None => Reply(400, Message("Invalid content parameters"))
      case Some(params) =>
        match generate(params)
        case None => Reply(500, Message("Failed to generate content"))
        case Some((title, content)) => Reply(200, Generated(title, content))
  }

  /**
   * POST /api/content/save: gated; title, type and content must all be non-empty, or nothing is
   * stored; the item is owned by the session user and its language defaults to "th".
   */
  method SaveContentRoute(req: Request, store: MemStorage, title: Option<string>, contentType: Option<string>,
                     content: Option<string>, prompt: Option<string>, language: Option<string>, now: int)
    returns (reply: Reply)
    requires store.Valid()
    modifies store
    ensures store.Valid()
    ensures store.users == old(store.users)
    ensures !AuthenticateUser(req) ==>
      reply == Unauthenticated &&
      store.contentItems == old(store.contentItems) && store.contentIdCounter == old(store.contentIdCounter)
    ensures AuthenticateUser(req) && !(Truthy(title) && Truthy(contentType) && Truthy(content)) ==>
      reply == Reply(400, Message("Title, content type, and content are required")) &&
      store.contentItems == old(store.contentItems) && store.contentIdCounter == old(store.contentIdCounter)
    ensures AuthenticateUser(req) && Truthy(title) && Truthy(contentType) && Truthy(content) ==>
      var item := ContentItem(old(store.contentIdCounter), SessionUser(req), title.value, contentType.value,
                              content.value, prompt, now, Some(OrElse(language, DefaultLanguage)));
      reply == Reply(201, Item(item)) &&
      old(store.contentIdCounter) !in old(store.contentItems) &&
      store.contentItems == old(store.contentItems)[old(store.contentIdCounter) := item] &&
      store.contentIdCounter == old(store.contentIdCounter) + 1
  {
    if RequireAuth(req).Reject? {
      return Unauthenticated;
    }
    if !Truthy(title) || !Truthy(contentType) || !Truthy(content) {
      return Reply(400, Message("Title, content type, and content are required"));
    }
    var item := store.CreateContentItem(
      InsertContentItem(SessionUser(req), title.value, contentType.value, content.value, prompt,
                        Some(OrElse(language, DefaultLanguage))), now);
    reply := Reply(201, Item(item));
  }

  /**
   * GET /api/content/items: gated; the session user's items, newest first: every listed item is
   * stored and owned by that user, every such item is listed, one entry per stored key.
   */
  function ListContentRoute(req: Request, store: MemStorage): (reply: Reply)
    reads req, req.session, store
    requires store.Valid()
    ensures !AuthenticateUser(req) ==> reply == Unauthenticated
    ensures AuthenticateUser(req) ==>
      reply.status == 200 && reply.body.Items? &&
      reply.body.items == store.GetContentItemsByUserId(SessionUser(req)) &&
      NewestFirst(reply.body.items) &&
      (forall i :: 0 <= i < |reply.body.items| ==>
         reply.body.items[i].userId == SessionUser(req) && reply.body.items[i] in store.contentItems.Values) &&
      (forall k :: k in store.contentItems && store.contentItems[k].userId == SessionUser(req) ==>
         store.contentItems[k] in reply.body.items) &&
      |reply.body.items| == |set k | k in store.contentItems && store.contentItems[k].userId == SessionUser(req)|
  {
    if RequireAuth(req).Reject? then Unauthenticated
    else Reply(200, Items(store.GetContentItemsByUserId(SessionUser(req))))
  }

  /**
   * GET /api/content/item/:id: gated; an id that does not parse is 400, an unknown item 404, an
   * item of another user 403, and only an item the session user owns is sent.
   */
  function GetItemRoute(req: Request, store: MemStorage, idParam: string): (reply: Reply)
    reads req, req.session, store
    ensures !AuthenticateUser(req) ==> reply == Unauthenticated
    ensures AuthenticateUser(req) && ParseInt(idParam).None? ==> reply == Reply(400, Message("Invalid content ID"))
    ensures AuthenticateUser(req) && ParseInt(idParam).Some? && ParseInt(idParam).value !in store.contentItems ==>
      reply == Reply(404, Message("Content item not found"))
    ensures AuthenticateUser(req) && ParseInt(idParam).Some? && ParseInt(idParam).value in store.contentItems ==>
      var item := store.contentItems[ParseInt(idParam).value];
      (item.userId != SessionUser(req) ==> reply == Reply(403, Message("Unauthorized access to content"))) &&
      (item.userId == SessionUser(req) ==> reply == Reply(200, Item(item)))
    ensures reply.status == 200 ==> reply.body.Item? && AuthenticateUser(req) && reply.body.item.userId == SessionUser(req)
  {
    if RequireAuth(req).Reject? then Unauthenticated
    else
      match ParseInt(idParam)
      case None => Reply(400, Message("Invalid content ID"))
      case Some(id) =>
        match store.GetContentItem(id)
        case None => Reply(404, Message("Content item not found"))
        case Some(item) =>
          if item.userId != SessionUser(req) then Reply(403, Message("Unauthorized access to content"))
          else Reply(200, Item(item))
  }

  /** An item saved through the save route is then served back to its owner by the item route. */
  lemma SavedItemIsServedToOwner(req: Request, store: MemStorage, id: nat, item: ContentItem)
    requires AuthenticateUser(req)
    requires id in store.contentItems && store.contentItems[id] == item && item.userId == SessionUser(req)
    ensures GetItemRoute(req, store, NatToString(id)) == Reply(200, Item(item))
  {
    ParseIntOfNatToString(id);
  }
}
