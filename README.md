# Full-Auth backend: accounts, sessions and request gates in Dafny

This project models the account and session state machine of the
Full-Auth Express/MongoDB backend and proves properties of it. The model covers:

- **Auth handlers**: register, login with its lockout counter, logout, refresh-token
  rotation, forgot/reset password, email verification and the OAuth
  find-or-create sign-in.
- **Self-service handlers**: profile update, password change and soft delete of
  one's own account.
- **Admin handlers**: the paged listings, and create, update, soft-delete, block
  and unblock of any account.
- **The `User` document**: its shape, defaults and enums, the pre-find hook that
  hides soft-deleted records, the partial unique index on email, `isLocked`, and
  password comparison.
- **Request gates**: the `authenticate` bearer-token middleware and the
  `authorize(...roles)` middleware.
- **The OAuth service**: provider dispatch, configuration check, state
  comparison, display names, and the profile rules for Google, GitHub and
  Facebook (which email, which name).
- **The XSS sanitiser**: `escapeHtml`, the recursive `sanitizeInput` walk, and the
  middleware that rewrites the request body.

Layout, one module per file:

| file | module | what it holds |
|---|---|---|
| `common.dfy` | `Common` | `Option`, `Result`, store errors, handler failures, JavaScript truthiness of an optional string |
| `text.dfy` | `Text` | the schema's `trim`/`lowercase` setters, `split` and `join` on one character |
| `crypto.dfy` | `Crypto` | SHA-256 fingerprints, peppered bcrypt hashes, access tokens |
| `user_model.dfy` | `UserModel` | the `User` document, its invariant, `findOne` with the soft-delete hook, `save` with validation and the unique index |
| `activity_model.dfy` | `ActivityModel` | audit actions and entries |
| `store.dfy` | `Store` | `class Db`: the two collections and the three writes the handlers make |
| `auth_controller.dfy` | `AuthController` | the handlers of `src/controllers/auth.js` |
| `user_controller.dfy` | `UserController` | the handlers of `src/controllers/user.js` |
| `admin_controller.dfy` | `AdminController` | the handlers of `src/controllers/admin.js` |
| `oauth_service.dfy` | `OAuthService` | the pure parts of `src/services/oauthService.js` |
| `auth_middleware.dfy` | `AuthMiddleware` | `authenticate` |
| `authorize_middleware.dfy` | `AuthorizeMiddleware` | `authorize`, and the admin router's chain of the two |
| `sanitize.dfy` | `Sanitize` | `escapeHtml`, `sanitizeInput`, `sanitizeMiddleware` |

How the model is built:

- **The store.** The `users` collection is a `seq<Account>` in which a record's
  position is its `_id`. The handlers never remove a record, only soft-delete
  it; the database's TTL clean-up is not modelled (see "Left out").
- **State-changing handlers.** Each handler that changes state is a method on a
  `Db` (with `modifies db`). It is proved to leave the store invariant true:
  positions are ids, names and emails are stored normalised, required fields
  are present, and emails are unique among live records. It is also proved
  equal to a pure edit of one account (`FailedLogin`, `SucceededLogin`,
  `Rotated`, `SoftDeleted`, `Blocked`, …). The lemmas about those pure edits
  carry the properties.
- **Inputs outside the program.** The current time, random tokens, bcrypt salts,
  the pepper, the outcome of sending an email, the OAuth provider's answer and
  JWT verification are all parameters.
- **Hashes.** A SHA-256 fingerprint is an injective constructor. A bcrypt hash
  records its salt and its peppered input, so a password matches a hash exactly
  when it is the one that was hashed. bcrypt's 72-byte cut-off is not part of
  this abstraction (see "Left out").

### Where the code does something other than the design intends

The model follows the code in each of these cases:

- **Registration never restores a deleted account.** `registerUser` looks the
  email up with `findOne`, and the pre-find hook adds `deletedAt: null` to every
  find (`src/models/User.js:88-90`). The restore branch
  (`src/controllers/auth.js:24-52`) therefore cannot be reached. The design
  calls for restoring the old record. Instead, re-registering a deleted email
  creates a fresh record, which the partial unique index allows
  (`AuthController.ReRegisterAfterDelete`). The model keeps the restore branch
  as a branch proved unreachable.
- **Refresh does not record when a token was issued.** The write of `issuedAt`
  during rotation (`src/controllers/auth.js:177`) names a field the refresh
  entry schema does not declare, so mongoose's strict mode drops it. A rotated
  entry keeps its `createdAt`.
- **Mixed-case providers pass dispatch but fail the save.** OAuth dispatch
  lower-cases the provider name, but the raw name is stored in the provider
  link and checked against the lower-case enum. "Google" is therefore
  accepted by the exchange and rejected at save
  (`AuthController.CapitalisedProviderRefused`).
- **A missing OAuth configuration answers 400, not 500.** The 500 that
  `validateOAuthConfig` raises is turned into a 400 by the catch of each
  exchange function.
- **The user listing's `total` counts deleted records.** `countDocuments` is not
  a find, so the hook does not filter it, and `getUsers` reports a `total` that
  includes soft-deleted records matching the search
  (`AdminController.TotalCountsDeleted`).
- **Blocking an account ends neither its logins nor its sessions.** It only
  clears `isActive`. Login never looks at `isActive` or `isEmailVerified`, and
  refresh does not either, so a blocked account can still log in and refresh
  (`AdminController.BlockLeavesLoginAndSessions`). Every access token it gets
  is then refused by `authenticate` (`AdminController.BlockedTokensRejected`).
- **A password change keeps every refresh token**
  (`UserController.ChangeKeepsSessions`).
- **The admin `updateUser` handler reads keys its validator rejects.** It reads
  `email` and `password`, which the Joi validator of that route rejects as
  unknown keys. It ignores `bio` and `isActive`, which the validator allows.
  Its audit entry stores the body's keys as they came in (`bio` and `isActive`
  included; `AdminController.AdminEditIgnoresBioAndStatus`), and the `createUser`
  and `updateUser` responses include the password hash.
- **Provider lookups reach `Object.prototype`.** `getProviderDisplayName`
  and `validateOAuthConfig` index object literals with the lower-cased
  provider, so `constructor` and `__proto__` find inherited members: the
  first returns that member instead of the input
  (`OAuthService.ConstructorDisplayName`), and the second reports a missing
  configuration (500) instead of an unsupported provider (400). The
  exchanges only ever pass the three provider names.
- **The sanitiser is never mounted.** `app.js` does not use it.
- **The sanitiser's object walk has two edge cases.** A `__proto__` member is not
  copied. An object that has its own `hasOwnProperty` member makes the walk
  throw a `TypeError`. Member names are never escaped.

## Model

| member | source | states |
|---|---|---|
| Text.TrimStartSpec | src/models/User.js:36-40 | trimming the start removes exactly the leading white space: the result is a suffix, starts with a non-space, and everything cut off is space |
| Text.TrimEndSpec | src/models/User.js:36-40 | trimming the end removes exactly the trailing white space |
| Text.Trim | src/models/User.js:36-46 | the `trim: true` setter yields a string with no white space at either end, never longer than the input |
| Text.TrimOfTrimmed | src/models/User.js:36-46 | a trimmed string is left as it is by the setter |
| Text.TrimIdempotent | src/models/User.js:36-46 | trimming twice is trimming once |
| Text.LowerChar | src/models/User.js:41-46 | lower-casing a character keeps white space, removes upper-case letters and leaves every other character alone |
| Text.LowerSpec | src/models/User.js:41-46 | lower-casing keeps the length and maps each character on its own |
| Text.LowerProperties | src/models/User.js:41-46 | a lower-cased string has no upper-case letters and stays trimmed if it was |
| Text.LowerOfLowerCased | src/models/User.js:41-46 | lower-casing leaves a lower-case string as it is |
| Text.NormalizeEmail | src/models/User.js:41-46 | the email setters give a trimmed lower-case string |
| Text.NormalizeEmailOfNormal | src/models/User.js:41-46 | a stored email is its own normal form, so a query with it finds it |
| Text.NormalizeEmailIdempotent | src/models/User.js:41-46 | normalising twice is normalising once |
| Text.Split | src/middlewares/auth.js:12 | `split` on one character gives at least one field, none holding the separator |
| Text.SplitJoin | src/middlewares/auth.js:12 | joining the fields of a split with the separator gives back the input |
| Text.TakeUntil | src/services/oauthService.js:88 | the prefix before the first separator: separator-free, a prefix of the input, and followed by the separator when shorter |
| Text.SplitFirstField | src/services/oauthService.js:88 | the first field of `split` is the text before the first separator |
| Text.SplitAfterWord | src/middlewares/auth.js:12 | a separator-free word followed by the separator splits off as the first field, the rest splitting on its own |
| Crypto.HashTokenInjective | src/services/token.js:15-16 | two tokens have the same SHA-256 fingerprint exactly when they are equal |
| Crypto.CompareHashed | src/services/password.js:3-11 | a peppered bcrypt hash of `q` accepts the password `p` exactly when `p == q`, whatever the salt |
| UserModel.ParseRole | src/models/User.js:51-55 | the role enum: a parsed name is the role's name, and an unparsed name is no role's name |
| UserModel.ParseProvider | src/models/User.js:24-31 | the provider enum, in both directions |
| UserModel.ParseProviderName | src/models/User.js:24-31 | each provider's name parses back to that provider |
| UserModel.NewAccount | src/models/User.js:51-73 | the schema defaults: role user, unverified, active, no attempts, no password, no lock, no providers, no refresh tokens, not deleted |
| UserModel.NewAccountNormalised | src/models/User.js:99-101 | a new record is stored normalised and is not locked at any time |
| UserModel.NormalisedIsFixpoint | src/models/User.js:36-46 | the setters leave a stored name and email unchanged |
| UserModel.Put | src/models/User.js:79-85 | a save succeeds exactly when the required fields are present and no two live records share an email; on success it places the record and keeps the store invariant |
| UserModel.Placed | src/models/User.js:79-85 | placing a record at its id changes that position only, or appends at the end |
| UserModel.SaveKeepsUnique | src/models/User.js:79-85 | re-saving a record whose email is unchanged, and which is not being brought back from deletion, keeps emails unique among live records |
| UserModel.SaveSucceeds | src/models/User.js:79-85 | such a save of a record with the same name, email and providers is accepted and keeps the invariant |
| UserModel.IndexOfHash | src/controllers/auth.js:166 | the first refresh entry holding a fingerprint, or none holding it |
| UserModel.FindOne | src/models/User.js:88-90 | `findOne` returns the first record, in collection order, that the query matches and that is not soft-deleted, or nothing if none is |
| UserModel.FindFrom | src/models/User.js:88-90 | the same scan from a given position |
| UserModel.FindOneIs | src/models/User.js:88-90 | a selected record with no selected record before it is what `findOne` returns |
| UserModel.FindByEmailUnique | src/models/User.js:79-90 | with the unique index in force, a lookup by email finds the one live record holding it, wherever it sits |
| UserModel.FindById | src/models/User.js:88-90 | `findById` finds a record exactly when it exists and is not deleted |
| UserModel.FindOneSameSelection | src/models/User.js:88-90 | two stores a query selects alike give the same `findOne` answer |
| UserModel.DeletedNeverFound | src/models/User.js:88-90 | no query ever returns a soft-deleted record |
| UserModel.WithoutPassword | src/controllers/user.js:38 | `select("-password")` drops the hash and nothing else |
| ActivityModel.ParseAction | src/models/Activity.js:10-27 | the action enum, in both directions |
| ActivityModel.ActionNameRoundTrip | src/models/Activity.js:10-27 | each action's name parses back to that action |
| Store.Db.constructor | src/models/User.js:34-85 | an empty store satisfies the invariant |
| Store.Db.Create | src/controllers/auth.js:64-70 | `User.create` gives the document the next id and writes it exactly when `Put` accepts it; otherwise nothing changes |
| Store.Db.Save | src/controllers/auth.js:106 | `user.save()` writes exactly what `Put` accepts, and keeps the invariant |
| Store.Db.Record | src/models/Activity.js:3-33 | `Activity.create` appends one entry and changes no account |
| OAuthService.KnownProvider | src/services/oauthService.js:304-315 | a provider is recognised exactly when its name equals the lower-cased input |
| OAuthService.KnownProviderName | src/services/oauthService.js:304-315 | each provider's own name is recognised as that provider |
| OAuthService.ValidateOAuthConfig | src/services/oauthService.js:7-37 | an unknown provider gives 400 "Unsupported OAuth provider", except `constructor` and `__proto__` (any case), which find an inherited member and give the 500 configuration message; a known one passes exactly when both its client id and secret are truthy, and otherwise gives 500 |
| OAuthService.ExchangeConfig | src/services/oauthService.js:93-107 | inside an exchange, a missing configuration is answered 400 with the configuration message |
| OAuthService.HandleOAuthExchange | src/services/oauthService.js:299-316 | a falsy code gives 400 before the provider is looked at; otherwise it dispatches exactly on google/github/facebook, compared case-insensitively, and gives 400 for anything else |
| OAuthService.DispatchIgnoresCase | src/services/oauthService.js:304-315 | two spellings of the same provider that differ only in case are dispatched alike |
| OAuthService.VerifyOAuthState | src/services/oauthService.js:322-332 | passes exactly when both states are present and equal; a missing state and a different state give their own 400s |
| OAuthService.GetProviderDisplayName | src/services/oauthService.js:337-344 | the three providers in any case get their display names; `constructor` and `__proto__` (any case) get the inherited `Object.prototype` member; any other input is returned unchanged |
| OAuthService.ConstructorDisplayName | src/services/oauthService.js:343 | "Constructor" gets the inherited `Object` function, not its own text |
| OAuthService.GoogleProfile | src/services/oauthService.js:77-92 | Google: the email is required; the name falls back to the email's local part; verified only when Google says so |
| OAuthService.FirstPrimaryVerified | src/services/oauthService.js:168 | the first listed email that is primary and verified |
| OAuthService.FirstVerified | src/services/oauthService.js:174 | the first listed email that is verified |
| OAuthService.SelectGitHubEmail | src/services/oauthService.js:155-180 | GitHub: the profile email if truthy, else the first primary verified address, else the first verified address with an email, else the first listed address |
| OAuthService.GitHubProfile | src/services/oauthService.js:182-197 | GitHub: succeeds exactly when an email was selected; the name falls back to the login; always marked verified |
| OAuthService.FacebookProfile | src/services/oauthService.js:256-273 | Facebook: the email is required; the display name is used when truthy, and otherwise the trimmed "first last", an absent part printing as "undefined"; always marked verified |
| OAuthService.FacebookNameFromParts | src/services/oauthService.js:268 | without a display name, clean first and last names are joined with exactly one space |
| OAuthService.ExchangeGoogleCode | src/services/oauthService.js:42-109 | the Google exchange: the configuration check first, then the profile rule; every failure is a 400 |
| OAuthService.ExchangeGitHubCode | src/services/oauthService.js:114-214 | the GitHub exchange: the configuration check first, then the email and name rules; every failure is a 400 |
| OAuthService.ProviderExchange | src/services/oauthService.js:299-316 | the exchange run for a dispatched provider: its profile always names that provider, a missing configuration gives the configuration 400, and every failure is a 400 |
| OAuthService.ExchangeFacebookCode | src/services/oauthService.js:219-294 | the Facebook exchange: the configuration check first, then the profile rule; every failure is a 400 |
| AuthController.Registration | src/controllers/auth.js:59-70 | the registered document: the hashed password, the verification fingerprint expiring one hour later, normalised name and email, and the schema defaults |
| AuthController.RegisterUser | src/controllers/auth.js:17-83 | an email held by a live account gives 400 and nothing changes; otherwise the registration is created when the store accepts it; no existing record is ever changed and nothing is logged |
| AuthController.ReRegisterAfterDelete | src/controllers/auth.js:20-70 | when every record holding the email is deleted, the lookup finds nothing and a new record is created beside them |
| AuthController.LoginCheck | src/controllers/auth.js:88-95 | no password gives no credentials; a lock in force refuses before any comparison; otherwise the password decides |
| AuthController.FailedLogin | src/controllers/auth.js:95-107 | a wrong password adds exactly one attempt, locks for fifteen minutes when the count reaches five, and changes nothing else |
| AuthController.IssuedEntry | src/controllers/auth.js:115-124 | a new refresh entry holds the token's fingerprint and expires seven days after its creation |
| AuthController.SucceededLogin | src/controllers/auth.js:110-124 | a good password clears attempts and lock, stamps the login, and appends exactly one refresh entry after the old ones |
| AuthController.LoginUser | src/controllers/auth.js:86-135 | each outcome of the check with its response, its write and its audit entry: none, none, the failed-login edit plus a block entry at the threshold, or the successful-login edit plus a success entry |
| AuthController.LockedIgnoresPassword | src/controllers/auth.js:91-92 | a locked account answers the same for every password |
| AuthController.LoginIgnoresStatus | src/controllers/auth.js:88-94 | login looks at neither `isActive` nor `isEmailVerified` |
| AuthController.WrongPasswordsCount | src/controllers/auth.js:95-98 | up to five wrong passwords from a clean account count up one by one, and lock only at the fifth |
| AuthController.FiveFailuresLock | src/controllers/auth.js:91-98 | after five wrong passwords the account refuses every password until the lock runs out |
| AuthController.LockExpires | src/controllers/auth.js:91-98 | once the lock has run out the right password is accepted, and the next wrong one locks again at once since the count was never reset |
| AuthController.WithoutHash | src/controllers/auth.js:143-145 | logout's filter keeps exactly the entries with another fingerprint |
| AuthController.WithoutHashAppend | src/controllers/auth.js:143-145 | the filter distributes over concatenation, so order is kept |
| AuthController.WithoutHashIdempotent | src/controllers/auth.js:143-145 | filtering twice is filtering once |
| AuthController.WithoutHashKeepsOthers | src/controllers/auth.js:143-145 | a list without the fingerprint is left as it is |
| AuthController.LoggedOut | src/controllers/auth.js:142-146 | after logout no entry holds the token's fingerprint, and no other field changes |
| AuthController.LogoutUser | src/controllers/auth.js:138-156 | a falsy token gives 400 and nothing changes; otherwise the token's entries are removed and a logout entry is logged |
| AuthController.LogoutRevokes | src/controllers/auth.js:142-146 | after logout the token no longer finds the account |
| AuthController.Rotated | src/controllers/auth.js:171-178 | rotation rewrites one entry's fingerprint and expiry, keeps its device, address and creation time, and leaves the list's length and other entries alone |
| AuthController.RefreshToken | src/controllers/auth.js:159-184 | a falsy token gives 400, an unknown one 401 "Invalid", an entry with `now > expiresAt` 401 "expired" with no change; otherwise that one entry is rotated, nothing is logged, and a new pair is returned |
| AuthController.LoginTokenRefreshable | src/controllers/auth.js:115-169 | the refresh token issued at login finds its account, at the new last entry, expiring seven days later |
| AuthController.RotationRetiresToken | src/controllers/auth.js:171-180 | after rotation the old token finds no account |
| AuthController.WithResetToken | src/controllers/auth.js:192-195 | a reset fingerprint is set that a reset query selects while the account is live, and that has expired an hour later |
| AuthController.ForgotPassword | src/controllers/auth.js:187-205 | an unknown email gives 404 and nothing changes; otherwise the reset token is stored and nothing is logged |
| AuthController.WithNewPassword | src/controllers/auth.js:219-222 | reset stores the new hash, with or without an old one, and clears the reset token so that no reset query selects the account |
| AuthController.ResetPassword | src/controllers/auth.js:208-232 | no live account with the fingerprint and an expiry after `now` gives 400 and nothing changes; otherwise the password is replaced and a reset entry is logged |
| AuthController.ForgotThenReset | src/controllers/auth.js:192-217 | within the hour, the mailed reset token finds the account it was issued for |
| AuthController.ResetTokenSingleUse | src/controllers/auth.js:219-222 | after a reset the same token finds the account no more |
| AuthController.ResetThenLogin | src/controllers/auth.js:219-222 | after a reset the new password logs in and any other is wrong |
| AuthController.Verified | src/controllers/auth.js:248-251 | verification sets the flag and clears the token so that no verification query selects the account |
| AuthController.VerifyEmail | src/controllers/auth.js:235-261 | a falsy token or email gives 400; no match with an unexpired token gives 400; otherwise the account is verified and an entry is logged |
| AuthController.RegisterThenVerify | src/controllers/auth.js:240-246 | within the hour, the token mailed at registration finds the new account |
| AuthController.VerifyTokenSingleUse | src/controllers/auth.js:248-251 | after verification the same token finds nothing |
| AuthController.OAuthAccount | src/controllers/auth.js:281-286 | a first OAuth sign-in creates a verified account with no password, exactly one provider link and no last login |
| AuthController.OAuthFirstSignIn | src/controllers/auth.js:279-286 | creating an OAuth account fails validation on a provider outside the enum, and otherwise keeps the store invariant |
| AuthController.OAuthReturningSignIn | src/controllers/auth.js:295-308 | for an existing account, the link is appended only when absent, so links never repeat; the last login is stamped and nothing else changes |
| AuthController.OAuthSignIn | src/controllers/auth.js:276-320 | a new account exactly when the email is not held by a live account, and in both cases one refresh entry appended |
| AuthController.CreateOAuthAccount | src/controllers/auth.js:279-294 | the first sign-in's write and its creation entry |
| AuthController.UpdateOAuthAccount | src/controllers/auth.js:295-308 | the returning sign-in's write, with nothing logged |
| AuthController.SignInAndIssue | src/controllers/auth.js:276-330 | the sign-in's writes and entries, a creation entry first only for a new account |
| AuthController.IssueOAuthTokens | src/controllers/auth.js:310-330 | one refresh entry appended and one success entry logged |
| AuthController.OAuthLogin | src/controllers/auth.js:264-346 | a missing provider or code gives 400; failures of the dispatch or the exchange change nothing; otherwise the sign-in is stored and tokens for that account are returned |
| AuthController.CapitalisedProviderRefused | src/controllers/auth.js:281-286 | "Google" passes dispatch but a first sign-in with it is refused by the enum |
| AuthController.OAuthRepeatSignIn | src/controllers/auth.js:296-303 | signing in again with the same provider finds the same account and adds no link |
| UserController.ProfileEdit | src/controllers/user.js:24-25 | only the name (trimmed) and the bio change, and each only when given |
| UserController.ProfileEditOutcome | src/controllers/user.js:24-27 | a profile save fails exactly when a name is given that trims to nothing |
| UserController.UpdateMyProfile | src/controllers/user.js:14-45 | a missing account gives 404; otherwise the edit is saved, logged with the fields, and the saved account is returned without its password |
| UserController.PasswordChangeCheck | src/controllers/user.js:59-76 | passes exactly when there is a password, the old one matches and the new one does not; refusals are 400s with the account-has-no-password check first |
| UserController.PasswordChangeAccepts | src/controllers/user.js:66-76 | for a password `current`, a change passes exactly when old is `current` and new is not, with the refusals in the handler's order |
| UserController.PasswordChanged | src/controllers/user.js:79-80 | only the hash changes |
| UserController.ChangePassword | src/controllers/user.js:48-91 | a missing account gives 404; a refused check changes nothing; otherwise the new hash is stored and a change entry is logged |
| UserController.ChangeThenLogin | src/controllers/user.js:79-80 | after a change the new password logs in and the old one is wrong |
| UserController.ChangeKeepsSessions | src/controllers/user.js:79-80 | a change leaves every refresh token findable as before |
| UserController.SoftDeleted | src/controllers/user.js:102-104 | a deletion sets the time and deactivates, and changes nothing else |
| UserController.DeleteMyAccount | src/controllers/user.js:94-114 | a missing account gives 404; otherwise it is soft-deleted and a deletion entry is logged |
| UserController.DeleteFreesEmail | src/controllers/user.js:102-104 | after deletion no live record holds the email and a lookup by it finds nothing, with the invariant kept |
| UserController.DeletedAccountUnreachable | src/controllers/user.js:102-104 | after deletion no query returns the account, `findById` included |
| AdminController.OrDefault | src/controllers/admin.js:9-10 | `parseInt(x) \|\| d`: NaN and 0 give the default, every other number is kept |
| AdminController.PageCount | src/controllers/admin.js:38 | `Math.ceil(total / limit)`: for a positive limit, `(pages-1)*limit < total <= pages*limit` |
| AdminController.Window | src/controllers/admin.js:26-27 | `skip` then `limit`: refused for a negative skip; otherwise at most `limit` items, each the item at `skip + k` |
| AdminController.Paged | src/controllers/admin.js:9-40 | the page is the window at `(page-1)*limit`, at most `limit` long, with the defaults, and a negative skip is refused |
| AdminController.NewestFirst | src/controllers/admin.js:23-25 | every listed account is a live record the search keeps, shown without its password |
| AdminController.NewestFirstOrdered | src/controllers/admin.js:23-25 | the listing is sorted newest first: ids strictly decrease along it |
| AdminController.NewestFirstComplete | src/controllers/admin.js:23-25 | no live record the search keeps is missing from the listing |
| AdminController.CountKept | src/controllers/admin.js:29 | the count of records the search keeps |
| AdminController.CountDeletedKept | src/controllers/admin.js:29 | the count of deleted records the search keeps |
| AdminController.TotalCountsDeleted | src/controllers/admin.js:23-29 | the reported total is the listed records plus the deleted ones the search keeps |
| AdminController.GetUsers | src/controllers/admin.js:8-41 | the total counts deleted records; the page is the window of the newest-first listing at the page's skip; every listed record is live, kept by the search and has no password |
| AdminController.PageOfPosition | src/controllers/admin.js:11 | position `k` sits on page `k/limit + 1`, within the page count |
| AdminController.EveryListedUserOnSomePage | src/controllers/admin.js:8-41 | every listed record appears on the page its position names |
| AdminController.GetActivityLogs | src/controllers/admin.js:156-179 | the log listing is the log newest first, paged, with the whole log's size as total |
| AdminController.Reversed | src/controllers/admin.js:163 | the reverse order, element by element |
| AdminController.DefaultPages | src/controllers/admin.js:9-10 | without parameters, page 1 of 50 accounts and page 1 of 100 log entries |
| AdminController.GetUserById | src/controllers/admin.js:44-49 | found exactly when the record exists and is live, returned without its password; otherwise 404 |
| AdminController.AdminCreated | src/controllers/admin.js:60-65 | the created document: normalised, the given role, the hash when given, and the schema defaults |
| AdminController.RequestedRole | src/controllers/admin.js:64 | no role gives the default user; a given role must be in the enum |
| AdminController.OptionalHash | src/controllers/admin.js:58 | a hash exactly when the password is truthy, and it accepts only that password |
| AdminController.CreateUser | src/controllers/admin.js:52-76 | an email held by a live account gives 400; otherwise the document is created when the store accepts it, logged, and returned |
| AdminController.CreatedUserLogin | src/controllers/admin.js:58-65 | a created account logs in with exactly the given password, or has no credentials when none was given |
| AdminController.AdminEdited | src/controllers/admin.js:85-88 | name, email and role change only when given and the password only when truthy; a role outside the enum fails validation |
| AdminController.AdminEditIgnoresBioAndStatus | src/controllers/admin.js:83-88 | `bio` and `isActive` in the body change nothing: the edit is the same without them and leaves both fields as they were |
| AdminController.EditOntoTakenEmail | src/controllers/admin.js:86-90 | moving an account onto an email another live account holds is refused by the unique index |
| AdminController.UpdateUser | src/controllers/admin.js:79-99 | a missing account gives 404; a refused edit changes nothing; otherwise it is saved, logged with the body's keys as sent (`bio` and `isActive` included, though unread), and returned |
| AdminController.DeleteUser | src/controllers/admin.js:102-117 | a missing account gives 404; otherwise it is soft-deleted and logged |
| AdminController.Blocked | src/controllers/admin.js:124 | blocking clears only `isActive` |
| AdminController.BlockUser | src/controllers/admin.js:120-134 | a missing account gives 404; otherwise it is blocked and logged |
| AdminController.BlockLeavesLoginAndSessions | src/controllers/admin.js:124 | a blocked account logs in as before and its refresh tokens still find it |
| AdminController.BlockedTokensRejected | src/middlewares/auth.js:15-18 | after a block or an admin delete, every access token of the account is refused with "Account inactive" |
| AdminController.Unblocked | src/controllers/admin.js:141-143 | unblocking reactivates and clears the lockout, so the account is locked at no time |
| AdminController.UnblockUser | src/controllers/admin.js:137-153 | a missing account gives 404; otherwise it is unblocked and logged |
| AdminController.UnblockLiftsLockout | src/controllers/admin.js:141-143 | after unblocking, the password decides, and one wrong password does not lock |
| AdminController.UnblockReadmits | src/controllers/admin.js:141 | after unblocking a live account its tokens are admitted again |
| AuthMiddleware.BearerToken | src/middlewares/auth.js:12 | the second space-separated field is what follows "Bearer " up to the next space |
| AuthMiddleware.Holder | src/middlewares/auth.js:15 | `findById` on the payload's id finds a live record with that id |
| AuthMiddleware.Authenticate | src/middlewares/auth.js:4-25 | a missing or non-bearer header gives 401 "Unauthorized" with the challenge; a failed verification 401 "Invalid or expired token"; a missing, deleted or inactive holder 401 "Account inactive"; a verified, live, active holder proceeds, without its password |
| AuthMiddleware.BearerTokenOf | src/middlewares/auth.js:7-12 | a header "Bearer t", with or without more fields after it, hands over exactly the space-free token t |
| AuthMiddleware.IssuedTokenAdmitted | src/middlewares/auth.js:12-21 | a token issued for an account is admitted exactly while the account is live and active, and otherwise refused as inactive |
| AuthMiddleware.InactiveHolderRejected | src/middlewares/auth.js:15-18 | a token naming a deleted or inactive account is refused with "Account inactive" |
| AuthorizeMiddleware.Authorize | src/middlewares/authorize.js:1-8 | passes exactly when the role's name is in the list; otherwise 403 "Forbidden" |
| AuthorizeMiddleware.NoRolesForbidsAll | src/middlewares/authorize.js:4 | an empty list forbids everyone |
| AuthorizeMiddleware.AuthorizeMonotone | src/middlewares/authorize.js:4 | adding roles to the list never takes access away |
| AuthorizeMiddleware.UnknownRoleNamesAdmitNobody | src/middlewares/authorize.js:4 | names outside the role enum admit nobody |
| AuthorizeMiddleware.AdminGate | src/routes/admin.js:24 | the admin chain: authentication's refusals pass through; 403 "Forbidden" exactly for an authenticated non-admin; an authenticated admin passes unchanged, and whoever passes is an active admin |
| AuthorizeMiddleware.AdminRoutesAdmit | src/routes/admin.js:24 | an issued token opens the admin routes exactly for a live, active admin, and a live, active user gets 403 |
| Sanitize.EscapeChar | src/utils/sanitize.js:9-18 | the six special characters become entities and every other character stays itself |
| Sanitize.HtmlSafeConcat | src/utils/sanitize.js:18 | safe strings stay safe when joined |
| Sanitize.EscapeHtmlSafe | src/utils/sanitize.js:6-19 | escaped text has no raw `<`, `>`, `"`, `'`, `/`, and every `&` opens an entity |
| Sanitize.EscapeHtmlUnchanged | src/utils/sanitize.js:6-19 | escaping never shortens, and leaves a string unchanged exactly when it has no special character |
| Sanitize.UnescapeEscapeChar | src/utils/sanitize.js:9-16 | each replacement, followed by any text, decodes back to its character |
| Sanitize.UnescapeEscapeHtml | src/utils/sanitize.js:6-19 | escaping loses nothing: decoding gives back the input |
| Sanitize.EscapeHtmlNotIdempotent | src/utils/sanitize.js:10 | escaping twice escapes `&` twice |
| Sanitize.TransformItems | src/utils/sanitize.js:29-31 | mapping an array keeps its length |
| Sanitize.SanitizedIsTransform | src/utils/sanitize.js:24-44 | the walk throws exactly on an object owning `hasOwnProperty`, and otherwise escapes every string leaf, drops `__proto__` and keeps every other leaf and every key |
| Sanitize.SanitizedItemsIsTransform | src/utils/sanitize.js:29-31 | the same for an array's elements |
| Sanitize.SanitizedMembersIsTransform | src/utils/sanitize.js:33-41 | the same for an object's members |
| Sanitize.TransformCompose | src/utils/sanitize.js:24-44 | two leaf maps in a row are one composed map |
| Sanitize.TransformItemsCompose | src/utils/sanitize.js:29-31 | the same for arrays |
| Sanitize.TransformMembersCompose | src/utils/sanitize.js:33-41 | the same for objects |
| Sanitize.TransformSafe | src/utils/sanitize.js:24-44 | a map that makes every string safe makes every leaf of the tree safe |
| Sanitize.TransformItemsSafe | src/utils/sanitize.js:29-31 | the same for arrays |
| Sanitize.TransformMembersSafe | src/utils/sanitize.js:33-41 | the same for objects |
| Sanitize.SanitizedRoundTrip | src/utils/sanitize.js:24-44 | a sanitised body has only safe strings, and decoding its leaves gives back the input with `__proto__` dropped |
| Sanitize.KeysNotEscaped | src/utils/sanitize.js:35-37 | member names are copied unescaped |
| Sanitize.ProtoMemberDropped | src/utils/sanitize.js:37 | a `__proto__` member is not copied |
| Sanitize.HasOwnPropertyMemberThrows | src/utils/sanitize.js:36 | an own `hasOwnProperty` member makes the walk throw |
| Sanitize.SanitizeInput | src/utils/sanitize.js:24-44 | the walk as written computes the specified result |
| Sanitize.SanitizeObject | src/utils/sanitize.js:33-41 | the member-by-member loop computes the specified object, or the error |
| Sanitize.PrefixErrorSticks | src/utils/sanitize.js:35-39 | once a prefix of the members fails, the whole object fails the same way |
| Sanitize.IncomingRequest.constructor | src/utils/sanitize.js:49-54 | a request holds the body it was given |
| Sanitize.IncomingRequest.SanitizeMiddleware | src/utils/sanitize.js:49-54 | a falsy body is left alone; otherwise it is replaced by its sanitised form, or left as it was when the walk throws |

## Left out

- HTTP, Express routing, `asyncHandler`, the app and the server are left out. Handlers take their inputs as parameters and return a `Result`.
- Sending email is left out. Its outcome is a `mailSent` parameter.
- The OAuth HTTP calls are left out: the token exchange, the profile and email fetches, timeouts, and the mapping of error shapes. The provider's answer is a parameter, and the cases that map to 401 or 408 are not modelled.
- Concurrency is left out. Two handlers racing on one document (the last write wins) are not modelled; each handler is atomic.
- The Joi validators (`src/validations/*.js`, `src/middlewares/validate.js`) are left out. The handlers accept any value of their parameter types; absent or null values that the validators would reject, and that some handlers would then fail on (an absent reset token makes `hashToken(undefined)` throw), are not represented.
- `parseInt` on query strings is left out. Parameters arrive as what it produced: `None` for NaN.
- Floating-point division in `Math.ceil(total / limit)` is modelled as exact integer ceiling division.
- The search regex of `getUsers` is a `keep` predicate. `createdAt` order is id order.
- `populate("userId", ...)` in the activity listing is not modelled.
- A malformed id makes `findById` throw a cast error. This is not modelled: ids are naturals.
- The TTL index on `refreshTokens.expiresAt` (`src/models/User.js:21-22`) and `timestamps` are background database behaviour and are left out. Expiry is only modelled through the handlers' comparisons with `now`. Under MongoDB's TTL semantics this index is on the users collection and applies to an array of dates, so the database deletes a whole user document once its earliest refresh-token entry expires; the model never removes a record.
- Lower-casing covers ASCII letters only; JavaScript's Unicode case mapping is not modelled.
- `Crypto.CompareHashed`: bcrypt reads only the first 72 bytes of the password followed by the pepper (`src/services/password.js:4-10`), and passwords may be up to 128 characters, so two passwords that agree on those bytes both match one hash. The model's hash accepts exactly the password that was hashed; `AuthController.ResetThenLogin` and `UserController.ChangeThenLogin` rely on that.
- `AdminController.UpdateUser`: body keys other than the six of `UserEdit` are not represented, so they are not logged, while the handler logs whatever body reaches it.
- JWT signing, expiry and verification are abstract. Verification is the `verify` parameter of `AuthMiddleware.Authenticate`, and an access token is the id it carries.
- `AuthController.OAuthLogin`: the user summary in the response (`src/controllers/auth.js:333-345`) is not returned, only the token pair.
- `AuthController.RegisterUser`: the unreachable restore branch writes nothing in the model.
- `Sanitize.IncomingRequest.SanitizeMiddleware`: a `__proto__` member whose value is an object becomes the prototype of the copy. That prototype is not modelled; the member is only dropped.
- `Store.Db.Record`: the entry's timestamps are not modelled.
- `src/services/emailTemplates.js` and `src/services/email.js` are not part of this model.
