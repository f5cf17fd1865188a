# ThaiSMEConnect accounts and content: a Dafny model

ThaiSMEConnect gives small Thai businesses an account with their own subdomain and a place
to keep AI-written marketing texts. This project models the server side of that in Dafny:

- **Subdomain slugs.** Normalising a business name into a slug, validating a slug (length,
  characters, taken, reserved; the first failing rule wins), and the bounded retry loop that
  appends numeric suffixes to a taken slug.
- **The in-memory store (`MemStorage`).**
  - A user table and a content table, each with its own id counter.
  - Case-insensitive user lookups that return the earliest match.
  - Per-user listing, newest first.
  - Partial-merge update and delete.
- **Registration, password login and the session gate.**
- **OAuth sign-in.** A provider identity match, then an email check, then provisioning a new
  account with a generated username and slug.
- **The request handlers**, for register, login, logout, OAuth, test login, me, slug
  validation, generate, save, list and fetch-one.
- **The pure prompt and title helpers** of the content generator.

Modules follow the source files:

| Module | Source |
|---|---|
| `Schema` | `shared/schema.ts` |
| `Storage` | `server/storage.ts` |
| `Subdomain` | `server/utils/subdomain.ts` |
| `Auth` | `server/utils/auth.ts` |
| `OAuth` | `server/utils/oauth.ts` |
| `Prompts` | the pure helpers of `server/utils/openai.ts` |
| `Routes` | `server/routes.ts` |

`Text` holds the JavaScript string built-ins the code relies on: ASCII `toLowerCase`,
`replace` with a character class, `trim`, `substring`, `slice`, `split`, `parseInt` and
`Array.prototype.find`. `Wrappers` holds `Option` and `Result`.

Modelling conventions:
- **Users.** Users are never deleted, so the user map is a sequence in id order, and the user
  at position i has id i + 1. Content items are a map plus a counter. Iterating a JavaScript
  `Map` filled by a counter visits each stored key once, in ascending order (`Storage.KeyOrder`).
- **Outside inputs are parameters:**
  - the clock (`now`);
  - the SHA-256 password digest (`hash`, a deterministic function whose internals are not
    modelled);
  - the validation library's email check (`isEmail`);
  - the network call to the language model (`generate`, which gives back a title and a text,
    or nothing when it failed).
- **`async` functions** are ordinary sequential calls. Each request runs to completion before
  the next one starts.
- **The `getAllUsers` gap.** `processOAuthLogin` calls `storage.getAllUsers()`
  (`server/utils/oauth.ts:77`), but the storage interface does not declare it and `MemStorage`
  does not implement it. As written, every OAuth sign-in would therefore fail with a runtime
  error. The model adds `GetAllUsers` (all users in id order) so that the provisioning logic
  can be stated at all.

The model follows the code as written, including these points:
- **Registration and slug rules.** Registration checks only that no user holds the subdomain
  (up to case). It does not run the slug validator (`Auth.RegistrationAcceptsReservedSlug`).
- **The retry loop can return a taken slug.** Example: a taken 30-character base, whose first
  probe is too long (`Subdomain.AllocateCanReturnTakenSlug`).
- **No uniqueness checks in the store.** The store does not enforce uniqueness, and OAuth
  provisioning never checks the generated username, so duplicates arise without any error
  (`OAuth.OAuthCanDuplicateUsername`, `Routes.TestUserCanDuplicateSubdomain`).
- **Login with another password.** It fails only when that password's digest differs from
  the stored one (`Auth.RegisterThenWrongPassword`).
- **Column defaults.** The store does not apply them. A registration body without
  `preferredLanguage` is stored without one.

## Model

| member | source | states |
|---|---|---|
| Text.LowerChar | server/utils/subdomain.ts:13 | an ASCII capital becomes the small letter 32 code points above it; every other character is kept |
| Text.Lower | server/utils/subdomain.ts:13 | `toLowerCase` keeps the length and lowers each character on its own (ASCII letters only) |
| Text.LowerIdempotent | server/storage.ts:42 | lowering twice is lowering once, so a case-insensitive comparison ignores the case of either side |
| Text.Filter | server/utils/subdomain.ts:14 | `replace(/[^…]/g, "")` keeps only accepted characters, never adds any, takes them from the input, and is the identity when every character is accepted |
| Text.FilterAppend | server/utils/subdomain.ts:14 | filtering a concatenation is the concatenation of the filtered parts, so kept characters keep their order and their number |
| Text.FilterSingleton | server/utils/subdomain.ts:14 | a single character is kept exactly when it is accepted; with `FilterAppend` this fixes the filter completely |
| Text.RemoveSpaces | server/utils/subdomain.ts:15 | `replace(/\s+/g, "")` leaves no white space and is the identity on text without any |
| Text.Trim | server/utils/subdomain.ts:16 | `trim` is the identity on text without white space |
| Text.LowerAppend | server/utils/subdomain.ts:13 | `toLowerCase` works character by character, so it distributes over concatenation |
| Text.FilterKeepsAccepted | server/storage.ts:73 | every accepted element survives the filter |
| Text.Find | server/storage.ts:41-43 | `find` gives none exactly when no element matches; otherwise the first matching element |
| Text.FindAppend | server/storage.ts:41-43 | appending an element changes `find`'s answer only when nothing earlier matched and the new element does |
| Text.NatToString | server/utils/subdomain.ts:87 | a counter prints as a non-empty run of decimal digits without a leading zero |
| Text.TakeLast | server/utils/subdomain.ts:93 | `slice(-6)` is the last min(6, length) characters |
| Text.TakeFirst | server/utils/oauth.ts:95 | `substring(0, 15)` is the prefix of length min(15, length) |
| Text.BeforeFirst | server/utils/oauth.ts:99 | `split('@')[0]` is the prefix before the first `@` (all of it when there is none) |
| Text.OrElse | server/utils/oauth.ts:37 | `a \|\| b` is a when a is a non-empty string, b otherwise |
| Text.ParseInt | server/routes.ts:200-201 | `parseInt` is NaN exactly when no digit follows the leading white space, the sign and a `0x` prefix (read as hexadecimal) |
| Text.ParseIntOfNatToString | server/routes.ts:200-201 | parsing the decimal text of a number gives that number back |
| Schema.WithoutPassword | server/utils/auth.ts:58 | `const { password, ...rest } = user`: putting the user's password back onto the result gives the user again |
| Schema.WithoutPasswordLosesOnlyPassword | server/utils/auth.ts:58-59 | stripping the password keeps every other field: putting it back restores the user, and two users strip alike iff they differ at most in the password |
| Auth.DistinctIgnoringCaseIsUnique | shared/schema.ts:7-11 | distinct up to case implies the declared exact-match uniqueness of the three columns |
| Schema.LoginIssues | shared/schema.ts:46-49 | a login body is accepted iff the username has at least 3 and the password at least 6 characters, otherwise exactly the failing fields' messages, username first: one message, or both when both fields are too short |
| Schema.ParseProvider | shared/schema.ts:55 | only "google" and "facebook" are accepted, each as its own provider |
| Schema.ProviderNameRoundTrip | shared/schema.ts:55 | a provider's name parses back to that provider |
| Schema.ParseOAuthUser | shared/schema.ts:52-58 | an OAuth body is accepted iff it has a well-formed email, one of the two providers and a provider id; display name and photo stay optional and are carried unchanged |
| Schema.ParseContentGeneration | shared/schema.ts:69-76 | a generation body needs its five strings; `language` becomes "th" only when absent, any given value (even "") is kept |
| Storage.Lookup | server/storage.ts:40-56 | the earliest user whose column equals the query up to case; none iff no user matches |
| Storage.LookupIgnoresQueryCase | server/storage.ts:40-44 | looking up a query or its lower-cased form gives the same user |
| Storage.LookupAppend | server/storage.ts:40-64 | a new user is found by a lookup only when no earlier user matches |
| Storage.UserById | server/storage.ts:36-38 | the user with that id, none iff no user has it |
| Storage.MakeUser | server/storage.ts:58-64 | a created user holds exactly the given fields, plus its id, the creation time and `isVerified` false |
| Storage.MakeContentItem | server/storage.ts:77-83 | a created item holds exactly the given fields, plus its id and the creation time |
| Storage.Pick | server/storage.ts:89 | one spread field: the patch's value when the patch carries the key, the stored value otherwise |
| Storage.Merge | server/storage.ts:89 | `{ ...item, ...updates }`: each field the patch carries overrides the stored one, each absent field is kept, `id` and `userId` included |
| Storage.MergeLaws | server/storage.ts:85-92 | `{ ...item, ...patch }`: the empty patch changes nothing, a patch applied twice acts once, and two patches compose |
| Storage.MergeCanReassignOwner | server/storage.ts:89 | a patch can overwrite `userId` and `id` |
| Storage.StoredKeys | server/storage.ts:72 | the stored keys below the counter, strictly ascending, each stored key included |
| Storage.StoredKeysCount | server/storage.ts:72 | there are exactly as many of those keys as stored keys below the counter |
| Storage.KeyOrder | server/storage.ts:72 | `Array.from(map.values())`: the i-th item is the one stored under the i-th stored key, so only stored items are visited and every stored key once |
| Storage.KeyOrderVisitsEachKeyOnce | server/storage.ts:72 | the map-order listing has one entry per stored key, in strictly ascending key order |
| Storage.SortNewestFirst | server/storage.ts:74 | the sort is a permutation of its input |
| Storage.SortNewestFirstSorted | server/storage.ts:74 | the sort puts items in descending creation time |
| Storage.OwnedCount | server/storage.ts:72-73 | filtering the map-order listing by owner leaves one item per stored key the user owns |
| Storage.ItemsOfUser | server/storage.ts:71-75 | the listing is newest first and a permutation of the owner-filtered map-order items |
| Storage.ItemsOfUserCount | server/storage.ts:71-75 | the listing has as many entries as there are stored keys whose item the user owns |
| Storage.ItemsOfUserOwned | server/storage.ts:72-73 | every listed item is stored and owned by the user |
| Storage.ItemsOfUserComplete | server/storage.ts:72-73 | every stored item of the user is listed |
| Storage.ItemsOfUserSpec | server/storage.ts:71-75 | the listing is exactly the user's items, one per owned key (as a multiset of the filtered table), newest first |
| Storage.MemStorage.constructor | server/storage.ts:28-33 | both tables start empty and both counters at 1 |
| Storage.MemStorage.GetUser | server/storage.ts:36-38 | a user is found iff 1 <= id < the user counter, and it is the user with that id |
| Storage.MemStorage.GetUserByUsername | server/storage.ts:40-44 | a stored user with that username up to case; none iff there is none |
| Storage.MemStorage.GetUserByEmail | server/storage.ts:46-50 | a stored user with that email up to case; none iff there is none |
| Storage.MemStorage.GetUserBySubdomain | server/storage.ts:52-56 | a stored user with that subdomain up to case; none iff there is none |
| Storage.MemStorage.GetAllUsers | server/utils/oauth.ts:77 | the stored user table itself: every user, in id order, the i-th with id i + 1 |
| Storage.MemStorage.CreateUser | server/storage.ts:58-64 | takes the counter as id and bumps it, appends the user with the given fields and no uniqueness check, leaves every other user and all content unchanged |
| Storage.MemStorage.GetContentItem | server/storage.ts:67-69 | the item stored under the id, none iff there is none |
| Storage.MemStorage.GetContentItemsByUserId | server/storage.ts:71-75 | newest first; every entry is stored and owned by the user, every owned item is listed, and there is one entry per owned key |
| Storage.MemStorage.CreateContentItem | server/storage.ts:77-83 | stores the item under the fresh id taken from the counter, bumps the counter, leaves other items alone |
| Storage.MemStorage.UpdateContentItem | server/storage.ts:85-92 | a missing id gives none and changes nothing; otherwise the merged item replaces the old one under the same key and nothing else changes |
| Storage.MemStorage.DeleteContentItem | server/storage.ts:94-96 | answers whether the id was present; afterwards it is absent and every other item is as before |
| Subdomain.CreateSubdomain | server/utils/subdomain.ts:8-17 | the empty name gives the empty slug; the slug holds only lower-case ASCII letters, digits, `_` and Thai characters |
| Subdomain.CreateSubdomainIsFilter | server/utils/subdomain.ts:8-17 | the white-space removal and the trim never change anything: the slug is the lower-cased name with every character outside `[\wก-๙]` dropped |
| Subdomain.CreateSubdomainAppend | server/utils/subdomain.ts:12-16 | the slug of a concatenation is the concatenation of the slugs, so kept characters keep their order and their number |
| Subdomain.CreateSubdomainOfChar | server/utils/subdomain.ts:13-14 | one character is lower-cased and kept exactly when it is then a letter, a digit, `_` or Thai; with `CreateSubdomainAppend` this fixes the slug of every name |
| Subdomain.CreateSubdomainFixesNormalised | server/utils/subdomain.ts:12-16 | a string made only of those characters is left unchanged |
| Subdomain.CreateSubdomainIdempotent | server/utils/subdomain.ts:12-16 | normalising twice is normalising once |
| Subdomain.UnderscoreFailsValidation | server/utils/subdomain.ts:40-45 | a slug of acceptable length holding `_` fails on its characters |
| Subdomain.NormalisedUnderscoreFailsValidation | server/utils/subdomain.ts:12-45 | the normaliser keeps `_` (a name like "my_shop" comes back unchanged), and the validator then rejects it |
| Subdomain.ValidateSubdomain | server/utils/subdomain.ts:25-64 | valid iff 3 <= length <= 30, all characters allowed, nobody holds it up to case, and not reserved; otherwise the first failing rule, in that order |
| Subdomain.GenerateUniqueSubdomain | server/utils/subdomain.ts:72-98 | the loop returns `Allocate` of its input: probes base, base1 … base100, returns the first that validates (base100 excepted), the base on any failure other than "taken", and otherwise the timestamp fallback |
| Subdomain.Probe | server/utils/subdomain.ts:80-97 | from probe k on, the result validates, or is the base, or is the timestamp fallback |
| Subdomain.Allocate | server/utils/subdomain.ts:72-98 | the result validates, or is the base, or is the timestamp fallback; a base that validates, or fails for a reason other than "taken", is returned unchanged |
| Subdomain.ProbeStopsAtFirstUntaken | server/utils/subdomain.ts:80-97 | the first suffixed candidate that is not taken decides: itself when valid, the base otherwise |
| Subdomain.ProbeAllTaken | server/utils/subdomain.ts:87-94 | when base1 … base99 are all taken the result is the unvalidated fallback, base plus the last six digits of the clock |
| Subdomain.AllocateOnTakenBase | server/utils/subdomain.ts:72-98 | for a taken base, the result is fixed by the first untaken probe among base1 … base99, or is the fallback when all 99 are taken |
| Subdomain.AllocateCanReturnTakenSlug | server/utils/subdomain.ts:83-85 | a taken 30-character base comes back unchanged, although another user holds it |
| Auth.RegistrationError | server/utils/auth.ts:29-46 | registration succeeds iff username, email and subdomain are all unused up to case (and a password is given); otherwise the first clash, in the order username, email, subdomain |
| Auth.RegisterUser | server/utils/auth.ts:29-60 | on success exactly one user is appended, holding the body with the password replaced by its digest, and it is returned without password; any failure changes nothing |
| Auth.RegistrationKeepsDistinct | server/utils/auth.ts:31-46 | a successful registration keeps usernames, emails and subdomains distinct up to case |
| Auth.RegistrationAcceptsReservedSlug | server/utils/auth.ts:43-46 | the reserved slug "admin" is accepted by registration while the validator rejects it |
| Auth.Login | server/utils/auth.ts:68-88 | succeeds iff the first user matching the username up to case has the digest of the supplied password stored, answering with that user's id and username; every failure carries the same message; an account without a password can never succeed |
| Auth.RegisterThenLogin | server/utils/auth.ts:49-87 | logging in with the username and password just registered succeeds with the new id |
| Auth.RegisterThenWrongPassword | server/utils/auth.ts:78-81 | after registering, a password whose digest differs is refused with the common message |
| Auth.PlainPasswordCannotLogIn | server/utils/auth.ts:78-81 | a password stored as plain text (not 64 characters long) never matches a 64-character digest |
| Auth.AuthenticateUser | server/utils/auth.ts:109-111 | `!!req.session && !!req.session.userId`: an authenticated request has a session with a user id, and the id 0 is not authenticated |
| Auth.RequireAuth | server/utils/auth.ts:109-124 | the request passes iff it has a session with a non-zero user id; otherwise 401 "Authentication required" |
| Auth.LogoutUser | server/utils/auth.ts:94-102 | the session is gone and the gate refuses the request afterwards |
| OAuth.GetUserByProvider | server/utils/oauth.ts:71-81 | the earliest user holding the (provider, provider id) pair; none iff no user holds it |
| OAuth.GenerateUsername | server/utils/oauth.ts:89-100 | at most 15 characters; from a non-empty display name, the first 15 of its lower-cased ASCII letters and digits, in order; otherwise a prefix of the email without `@` that stops at 15 characters, at the end of the email or at its first `@` |
| OAuth.UsernameIgnoresDisplayNameCase | server/utils/oauth.ts:92-95 | the display name's case does not matter |
| OAuth.UsernameCanBeEmpty | server/utils/oauth.ts:92-95 | a display name without ASCII letters or digits (a Thai one, say) gives the empty username |
| OAuth.UsernameFromShortLocalPart | server/utils/oauth.ts:99 | without a display name, a local part of at most 15 characters is the username, unchanged |
| OAuth.NewOAuthUser | server/utils/oauth.ts:35-52 | the new account has no password, language "th", the given email, provider identity, display name and photo; business name is the display name or the username; slug from `GenerateUniqueSubdomain(CreateSubdomain(displayName \|\| username))` |
| OAuth.OAuthLogin | server/utils/oauth.ts:12-62 | a failure is the email-taken refusal and leaves the table as it was; otherwise the table is unchanged or grows by one user at the end, earlier users untouched |
| OAuth.ProcessOAuthLogin | server/utils/oauth.ts:12-62 | answer and new user table are those of `OAuthLogin`; content untouched |
| OAuth.OAuthLoginCases | server/utils/oauth.ts:14-55 | a provider match answers with that user and changes nothing, whatever the email; else a used email is refused with "Email already associated with another account" and nothing changes; else exactly one passwordless user with the identity is appended and answered with |
| OAuth.OAuthLoginIdempotent | server/utils/oauth.ts:14-26 | signing in again with the same identity after a success gives the same answer and creates nothing |
| OAuth.OAuthCanDuplicateUsername | server/utils/oauth.ts:35-55 | two identities with the same display name and different emails get the same username, breaking the declared uniqueness |
| OAuth.RegisteredIdentityIsSignedInto | server/utils/oauth.ts:14-26 | an account registered with provider fields in its body is signed into by a later OAuth login with that identity, without a password |
| Prompts.GetLengthDescription | server/utils/openai.ts:142-153 | short, medium and long map to their texts, anything else to "Medium length" (each iff) |
| Prompts.GetThaiContentType | server/utils/openai.ts:127-137 | the five known types get their Thai labels; the input comes back unchanged iff it is not one of them |
| Prompts.GetDefaultTitle | server/utils/openai.ts:115-122 | "<type> - <business> (<language>)": the Thai label and "(ไทย)" iff the language is "th", the type as given and "(English)" otherwise |
| Prompts.GetSystemPrompt | server/utils/openai.ts:97-110 | the Thai system prompt iff the language is "th", else the English one |
| Prompts.LanguageName | server/utils/openai.ts:77 | "Thai" iff the language is "th", else "English" |
| Prompts.DetailsOrDefault | server/utils/openai.ts:88 | empty details become "No specific details provided"; any other details are kept |
| Prompts.CreatePrompt | server/utils/openai.ts:74-92 | the prompt opens by asking for content in the named language and ends with the details (or their default) and the JSON-format request |
| Routes.RegisterRoute | server/routes.ts:19-27 | 201 with the new user without password iff registration succeeds; otherwise 400 with its message and no change; the content table and its counter are untouched |
| Routes.LoginRoute | server/routes.ts:29-42 | the session gets the user's id and name, and passes the gate, only when login succeeds; otherwise 401 and the session is untouched |
| Routes.LogoutRoute | server/routes.ts:44-47 | always answers success, after which the request is unauthenticated |
| Routes.OAuthRoute | server/routes.ts:50-77 | a refused body or failed sign-in answers 401 and changes neither store nor session; a successful sign-in sets the session; the user table changes as `OAuthLogin` says, the content table and its counter do not |
| Routes.TestLoginRoute | server/routes.ts:80-111 | only "test"/"test" is let in; the test user is created (with its password stored unhashed) only when no user is named "test" up to case; the session then holds that user; content is untouched |
| Routes.TestUserCannotUsePasswordLogin | server/routes.ts:89-96 | the test account cannot sign in through the password login |
| Routes.TestUserCanDuplicateSubdomain | server/routes.ts:89-96 | creating the test account when someone holds the slug "test" breaks uniqueness |
| Routes.MeRoute | server/routes.ts:113-127 | 401 without a session user, 404 when that user no longer exists, else that user without password |
| Routes.ValidateSubdomainRoute | server/routes.ts:130-143 | a missing or empty slug is refused with 400 before validation; otherwise 200, valid iff the validator says so, with the first rule's message when invalid |
| Routes.GenerateRoute | server/routes.ts:146-162 | gated; 400 when the schema refuses the body, 500 when generation fails, otherwise 200 with exactly the generator's title and content |
| Routes.SaveContentRoute | server/routes.ts:164-186 | gated; nothing is stored unless title, type and content are non-empty; the stored item belongs to the session user, gets language "th" when none is given, and is stored under the counter, which advances by one; a refusal changes neither the table nor the counter |
| Routes.ListContentRoute | server/routes.ts:188-196 | gated; the store's listing for the session user: stored items of that user only, all of them, one per key, newest first |
| Routes.GetItemRoute | server/routes.ts:198-221 | gated; 400 for an id that does not parse, 404 for a missing item, 403 for another user's item; 200 only with an item the session user owns |
| Routes.SavedItemIsServedToOwner | server/routes.ts:198-216 | an item stored for the session user is served back to that user under its decimal id |

## Left out

- The React client (pages, navigation bar, language toggle, theme, redirects). It is
  rendering and routing only. The client's own slug generator is not `createSubdomain` and is
  not modelled.
- Firebase sign-in and the client's `fetch` wrapper. These are foreign calls.
- `generateContentPrompt`: the network call, the API key and the parsing of the reply. The
  handler takes its outcome as the `generate` parameter. The model does not state that a
  fallback title uses `GetDefaultTitle`, because that happens inside the left-out call.
- The SHA-256 algorithm. The digest is the `hash` parameter, and a digest length of 64 is
  assumed where a property needs it (`Auth.HexDigestLength`).
- Sessions:
  - the express-session store and its destroy callback;
  - error logging;
  - HTTP framing beyond status and body.

  The handlers that write the session require one to be attached, as the session middleware
  guarantees.
- The validation library's email syntax check (the `isEmail` parameter), and the text of
  schema errors. `Routes.OAuthRoute` answers `OAuthFailed(None)` and `Routes.GenerateRoute`
  answers without the issue list.
- `Auth.RegisterErrorMessage`: a body without a password makes the hashing library throw. Its
  message text is that library's and is represented as `None`.
- Untyped request bodies. The register and login routes pass `req.body` on unchecked. The
  model types them as `InsertUser` and `LoginUser`, so the runtime errors of missing or
  mistyped fields are not modelled, except a missing password at registration.
- Auth.Login: the password is typed as a string. A login body that names an existing user but
  carries no password makes the hashing library throw, and the login route then answers 401
  with that library's message instead of "Invalid username or password", which tells the
  client that the username exists. The model's "same message on every failure" covers only
  bodies that carry a password.
- Storage.Merge: a patch field is either absent or holds a value. A key present with the value
  `undefined` also overwrites the stored field in `{ ...item, ...updates }`; the model cannot
  express that patch.
- The `catch` branches that answer 500 for store errors. The in-memory store never throws,
  so they cannot be reached in the model.
- Concurrency: the check-then-create windows in registration and OAuth provisioning. Every
  call is one atomic step.
- Text.Lower: `toLowerCase` lowers ASCII letters only. JavaScript also lowers other scripts,
  and a few non-ASCII letters, such as the Kelvin sign, lower to ASCII letters that
  `createSubdomain` would then keep.
- String length counts code points. JavaScript counts UTF-16 units, which differs only for
  characters outside the Basic Multilingual Plane; Thai is not affected.
- Text.Trim: only its identity on input without white space is stated. That is the only case
  `createSubdomain` reaches, since earlier steps remove all white space.
- Numbers are unbounded integers. JavaScript's floating-point precision for huge ids and for
  `parseInt` of long digit strings is not modelled. `Date` values are integers of
  milliseconds.
- `getThaiContentType` is a closed map. The lookup of inherited object properties such as
  "toString" is not modelled.
- Storage.MemStorage.GetContentItemsByUserId: the contract states membership, ownership, the
  number of entries and newest-first order, but not the relative order of items created in
  the same millisecond.
  The stable sort keeps those in id order.
- Storage.MemStorage.CreateUser: column defaults (`preferredLanguage` "th") are not applied,
  as the in-memory store does not apply them.
- The content table's `prompt` column is declared not-null, but the in-memory store accepts a
  missing prompt from the save route, so the model keeps it optional.
