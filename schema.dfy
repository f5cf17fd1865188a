/**
 * Record shapes, column defaults and input schemas shared by the server: the `users` and
 * `content_items` tables, the login, OAuth and content-generation request schemas.
 */
module Schema {
  import opened Wrappers
  import opened Text

  /** The column default of `users.preferred_language` and `content_items.language`. */
  const DefaultLanguage: string := "th"

  /** A row of `users`. Nullable columns are `Option`s; `createdAt` is a timestamp in ms. */
  datatype User = User(
    id: int,
    username: string,
    password: Option<string>,
    email: string,
    businessName: string,
    subdomain: string,
    createdAt: int,
    isVerified: bool,
    preferredLanguage: Option<string>,
    authProvider: Option<string>,
    providerId: Option<string>,
    displayName: Option<string>,
    photoURL: Option<string>)

  /** A user as sent to a client: every column but `password`. */
  datatype PublicUser = PublicUser(
    id: int,
    username: string,
    email: string,
    businessName: string,
    subdomain: string,
    createdAt: int,
    isVerified: bool,
    preferredLanguage: Option<string>,
    authProvider: Option<string>,
    providerId: Option<string>,
    displayName: Option<string>,
    photoURL: Option<string>)

  /** The fields a caller supplies to create a user (`InsertUser`). */
  datatype InsertUser = InsertUser(
    username: string,
    password: Option<string>,
    email: string,
    businessName: string,
    subdomain: string,
    preferredLanguage: Option<string>,
    authProvider: Option<string>,
    providerId: Option<string>,
    displayName: Option<string>,
    photoURL: Option<string>)

  /** A row of `content_items`. */
  datatype ContentItem = ContentItem(
    id: int,
    userId: int,
    title: string,
    contentType: string,
    content: string,
    prompt: Option<string>,
    createdAt: int,
    language: Option<string>)

  /** The fields a caller supplies to create a content item (`InsertContentItem`). */
  datatype InsertContentItem = InsertContentItem(
    userId: int,
    title: string,
    contentType: string,
    content: string,
    prompt: Option<string>,
    language: Option<string>)

  /** `const { password, ...rest } = user`: the user without its password. */
  function WithoutPassword(u: User): (r: PublicUser)
    ensures WithPassword(r, u.password) == u
  {
    PublicUser(u.id, u.username, u.email, u.businessName, u.subdomain, u.createdAt, u.isVerified,
               u.preferredLanguage, u.authProvider, u.providerId, u.displayName, u.photoURL)
  }

  /** Puts a password column back onto a public record. */
  function WithPassword(p: PublicUser, password: Option<string>): User
  {
    User(p.id, p.username, password, p.email, p.businessName, p.subdomain, p.createdAt,
         p.isVerified, p.preferredLanguage, p.authProvider, p.providerId, p.displayName, p.photoURL)
  }

  /** Stripping the password loses the password and nothing else. */
  lemma WithoutPasswordLosesOnlyPassword(u: User)
    ensures WithPassword(WithoutPassword(u), u.password) == u
    ensures forall v: User :: WithoutPassword(v) == WithoutPassword(u) <==> v == u.(password := v.password)
  {
  }

  /**
   * The declared `.unique()` constraints of `users.username`, `users.email` and
   * `users.subdomain`: no two rows share a value in any of those columns.
   */
  predicate UniqueColumns(users: seq<User>)
  {
    forall i, j :: 0 <= i < j < |users| ==>
      users[i].username != users[j].username &&
      users[i].email != users[j].email &&
      users[i].subdomain != users[j].subdomain
  }

  // ---- loginUserSchema ----

  datatype LoginUser = LoginUser(username: string, password: string)

  /** The issues `loginUserSchema` reports, in field order; the input is accepted iff there are none. */
  function LoginIssues(l: LoginUser): (issues: seq<string>)
    ensures issues == [] <==> |l.username| >= 3 && |l.password| >= 6
    ensures |l.username| < 3 && |l.password| < 6 ==>
      issues == ["Username must be at least 3 characters", "Password must be at least 6 characters"]
    ensures |l.username| < 3 && |l.password| >= 6 ==> issues == ["Username must be at least 3 characters"]
    ensures |l.username| >= 3 && |l.password| < 6 ==> issues == ["Password must be at least 6 characters"]
  {
    (if |l.username| < 3 then ["Username must be at least 3 characters"] else []) +
    (if |l.password| < 6 then ["Password must be at least 6 characters"] else [])
  }

  // ---- oauthUserSchema ----

  /** The supported identity providers, `z.enum(["google", "facebook"])`. */
  datatype Provider = Google | Facebook

  function ProviderName(p: Provider): string
  {
    match p
    case Google => "google"
    case Facebook => "facebook"
  }

  /** The enum check: only the two provider names are accepted, and each maps to its provider. */
  function ParseProvider(s: string): (r: Option<Provider>)
    ensures r.Some? <==> s == "google" || s == "facebook"
    ensures r.Some? ==> ProviderName(r.value) == s
  {
    if s == "google" then Some(Google)
    else if s == "facebook" then Some(Facebook)
    else None
  }

  lemma ProviderNameRoundTrip(p: Provider)
    ensures ParseProvider(ProviderName(p)) == Some(p)
  {
  }

  /** An OAuth request body as received: every field may be missing. */
  datatype OAuthRequest = OAuthRequest(
    email: Option<string>,
    displayName: Option<string>,
    authProvider: Option<string>,
    providerId: Option<string>,
    photoURL: Option<string>)

  /** A body that `oauthUserSchema` accepted. */
  datatype OAuthUser = OAuthUser(
    email: string,
    displayName: Option<string>,
    authProvider: Provider,
    providerId: string,
    photoURL: Option<string>)

  /**
   * `oauthUserSchema.parse`: email present and well formed (`isEmail` stands for the validation
   * library's email check), provider one of the two names, provider id present; the display
   * name and photo URL are optional and carried as they are.
   */
  function ParseOAuthUser(raw: OAuthRequest, isEmail: string -> bool): (r: Option<OAuthUser>)
    ensures r.Some? <==>
      raw.email.Some? && isEmail(raw.email.value) &&
      raw.authProvider.Some? && (raw.authProvider.value == "google" || raw.authProvider.value == "facebook") &&
      raw.providerId.Some?
    ensures r.Some? ==>
      Some(r.value.email) == raw.email && Some(ProviderName(r.value.authProvider)) == raw.authProvider &&
      Some(r.value.providerId) == raw.providerId &&
      r.value.displayName == raw.displayName && r.value.photoURL == raw.photoURL
  {
    if raw.email.None? || !isEmail(raw.email.value) || raw.providerId.None? || raw.authProvider.None? then None
    else
      match ParseProvider(raw.authProvider.value)
      case None => None
      case Some(p) => Some(OAuthUser(raw.email.value, raw.displayName, p, raw.providerId.value, raw.photoURL))
  }

  // ---- contentGenerationSchema ----

  datatype GenerationRequest = GenerationRequest(
    contentType: Option<string>,
    businessType: Option<string>,
    tone: Option<string>,
    length: Option<string>,
    details: Option<string>,
    language: Option<string>)

  datatype ContentGeneration = ContentGeneration(
    contentType: string,
    businessType: string,
    tone: string,
    length: string,
    details: string,
    language: string)

  /**
   * `contentGenerationSchema.parse`: five required strings, and `language` defaulting to "th"
   * only when it is absent (an empty string is kept).
   */
  function ParseContentGeneration(raw: GenerationRequest): (r: Option<ContentGeneration>)
    ensures r.Some? <==>
      raw.contentType.Some? && raw.businessType.Some? && raw.tone.Some? && raw.length.Some? && raw.details.Some?
    ensures r.Some? && raw.language.None? ==> r.value.language == DefaultLanguage
    ensures r.Some? && raw.language.Some? ==> r.value.language == raw.language.value
    ensures r.Some? ==>
      Some(r.value.contentType) == raw.contentType && Some(r.value.businessType) == raw.businessType &&
      Some(r.value.tone) == raw.tone && Some(r.value.length) == raw.length && Some(r.value.details) == raw.details
  {
    if raw.contentType.None? || raw.businessType.None? || raw.tone.None? || raw.length.None? || raw.details.None? then None
    else
      Some(ContentGeneration(raw.contentType.value, raw.businessType.value, raw.tone.value,
                             raw.length.value, raw.details.value,
                             if raw.language.Some? then raw.language.value else DefaultLanguage))
  }
}
