/**
 * The `User` document: its record shapes, enums and defaults, the setters
 * that normalise names and emails, the `isLocked` virtual, and the rules the
 * collection enforces on every query and write: the pre-find hook that hides
 * soft-deleted records, the `required`/`enum` validators, and the partial
 * unique index on email.
 *
 * The collection is a sequence of accounts; an account's `_id` is its
 * position. Time is a number of milliseconds.
 */
module UserModel {
  import opened Common
  import opened Text
  import opened Crypto

  type UserId = nat

  datatype Role = User | Admin

  function RoleName(r: Role): string
  {
    match r
    case User => "user"
    case Admin => "admin"
  }

  /** The `enum` validator of `role`: only the two names are accepted. */
  function ParseRole(s: string): (r: Option<Role>)
    ensures r.Some? ==> RoleName(r.value) == s
    ensures r.None? ==> forall role: Role :: RoleName(role) != s
  {
    if s == "user" then Some(User)
    else if s == "admin" then Some(Admin)
    else None
  }

  datatype Provider = Google | GitHub | Facebook

  function ProviderName(p: Provider): string
  {
    match p
    case Google => "google"
    case GitHub => "github"
    case Facebook => "facebook"
  }

  /** The `enum` validator of `oauthProviders.provider`: exact, case-sensitive names. */
  function ParseProvider(s: string): (r: Option<Provider>)
    ensures r.Some? ==> ProviderName(r.value) == s
    ensures r.None? ==> forall p: Provider :: ProviderName(p) != s
  {
    if s == "google" then Some(Google)
    else if s == "github" then Some(GitHub)
    else if s == "facebook" then Some(Facebook)
    else None
  }

  lemma ParseProviderName(p: Provider)
    ensures ParseProvider(ProviderName(p)) == Some(p)
  {
  }

  datatype ProviderLink = ProviderLink(provider: Provider, providerId: string)

  /** One stored refresh token: its fingerprint, where it was issued, and its lifetime. */
  datatype RefreshEntry = RefreshEntry(
    tokenHash: Fingerprint,
    device: Option<string>,
    ipAddress: Option<string>,
    createdAt: int,
    expiresAt: int)

  datatype Account = Account(
    id: UserId,
    fullName: string,
    email: string,
    password: Option<PasswordHash>,
    bio: Option<string>,
    role: Role,
    isEmailVerified: bool,
    isActive: bool,
    oauthProviders: seq<ProviderLink>,
    passwordResetToken: Option<Fingerprint>,
    passwordResetTokenExpiresAt: Option<int>,
    emailVerificationToken: Option<Fingerprint>,
    emailVerificationTokenExpiresAt: Option<int>,
    refreshTokens: seq<RefreshEntry>,
    lastLoginAt: Option<int>,
    loginAttempts: nat,
    lockUntil: Option<int>,
    deletedAt: Option<int>)

  /**
   * The document `User.create({ fullName, email })` builds: the setters trim
   * the name and normalise the email, and every other field takes its
   * schema default.
   */
  function NewAccount(id: UserId, fullName: string, email: string): (a: Account)
    ensures a.id == id && Visible(a)
    ensures a.role == User && !a.isEmailVerified && a.isActive && a.loginAttempts == 0
    ensures a.password.None? && a.lockUntil.None? && a.lastLoginAt.None?
    ensures a.oauthProviders == [] && a.refreshTokens == []
  {
    Account(id, Trim(fullName), NormalizeEmail(email), None, None, User, false, true, [],
            None, None, None, None, [], None, 0, None, None)
  }

  /** The setters leave a new document in normal form, and it starts out unlocked. */
  lemma NewAccountNormalised(id: UserId, fullName: string, email: string)
    ensures Normalised(NewAccount(id, fullName, email))
    ensures forall now :: !IsLocked(NewAccount(id, fullName, email), now)
  {
  }

  /** The `isLocked` virtual: a lock time is set and lies in the future. */
  predicate IsLocked(a: Account, now: int)
  {
    a.lockUntil.Some? && a.lockUntil.value > now
  }

  /** What the pre-find hook's `deletedAt: null` condition lets through. */
  predicate Visible(a: Account)
  {
    a.deletedAt.None?
  }

  /** The values the setters leave behind: a trimmed name and a lower-cased, trimmed email. */
  predicate Normalised(a: Account)
  {
    Trimmed(a.fullName) && Trimmed(a.email) && LowerCased(a.email)
  }

  /** A normalised record is what its setters would make of its own values. */
  lemma NormalisedIsFixpoint(a: Account)
    requires Normalised(a)
    ensures Trim(a.fullName) == a.fullName && NormalizeEmail(a.email) == a.email
  {
    TrimOfTrimmed(a.fullName);
    NormalizeEmailOfNormal(a.email);
  }

  /** The `required` validators: non-empty name, email and provider ids. */
  predicate RequiredPresent(a: Account)
  {
    && a.fullName != ""
    && a.email != ""
    && forall k :: 0 <= k < |a.oauthProviders| ==> a.oauthProviders[k].providerId != ""
  }

  /** The partial unique index: no two non-deleted records share an email. */
  predicate UniqueActiveEmails(users: seq<Account>)
  {
    forall i, j :: 0 <= i < |users| && 0 <= j < |users| && i != j && Visible(users[i]) && Visible(users[j]) ==>
      users[i].email != users[j].email
  }

  /** What holds of the collection after any sequence of accepted writes. */
  predicate StoreInvariant(users: seq<Account>)
  {
    && (forall i :: 0 <= i < |users| ==> users[i].id == i && Normalised(users[i]) && RequiredPresent(users[i]))
    && UniqueActiveEmails(users)
  }

  /**
   * A write of `a`: a create when its id is the next free position, a save
   * otherwise. Validation runs first, then the unique index.
   */
  function Put(users: seq<Account>, a: Account): (r: Result<seq<Account>, DbError>)
    requires a.id <= |users|
    ensures r.Ok? <==> RequiredPresent(a) && UniqueActiveEmails(Placed(users, a))
    ensures r.Ok? ==> r.value == Placed(users, a)
    ensures r.Ok? && StoreInvariant(users) && Normalised(a) ==> StoreInvariant(r.value)
  {
    var after := Placed(users, a);
    if !RequiredPresent(a) then Err(ValidationError)
    else if !UniqueActiveEmails(after) then Err(DuplicateKey)
    else Ok(after)
  }

  function Placed(users: seq<Account>, a: Account): (r: seq<Account>)
    requires a.id <= |users|
    ensures |r| == if a.id == |users| then |users| + 1 else |users|
    ensures r[a.id] == a
    ensures forall j :: 0 <= j < |users| && j != a.id ==> r[j] == users[j]
  {
    if a.id == |users| then users + [a] else users[a.id := a]
  }

  /**
   * A save that keeps the email and does not undelete the record cannot
   * break the unique index.
   */
  lemma SaveKeepsUnique(users: seq<Account>, a: Account)
    requires UniqueActiveEmails(users)
    requires a.id < |users| && a.email == users[a.id].email
    requires Visible(a) ==> Visible(users[a.id])
    ensures UniqueActiveEmails(users[a.id := a])
  {
  }

  /**
   * Saving a record of a valid collection that keeps its name, email and
   * provider links and does not undelete it always succeeds.
   */
  lemma SaveSucceeds(users: seq<Account>, a: Account)
    requires StoreInvariant(users)
    requires a.id < |users|
    requires a.fullName == users[a.id].fullName && a.email == users[a.id].email
    requires a.oauthProviders == users[a.id].oauthProviders
    requires Visible(a) ==> Visible(users[a.id])
    ensures Put(users, a) == Ok(users[a.id := a])
    ensures StoreInvariant(users[a.id := a])
  {
    SaveKeepsUnique(users, a);
  }

  /** The conditions of the `find`/`findOne`/`findById` calls the controllers make. */
  datatype Query =
    | ByEmail(email: string)
    | ById(id: UserId)
    | ByRefreshHash(hash: Fingerprint)
    | ByResetToken(hash: Fingerprint, now: int)
    | ByVerificationToken(email: string, hash: Fingerprint, now: int)

  /** `refreshTokens.findIndex(rt => rt.tokenHash === hash)`. */
  function IndexOfHash(entries: seq<RefreshEntry>, hash: Fingerprint): (r: Option<nat>)
    ensures r.Some? ==> r.value < |entries| && entries[r.value].tokenHash == hash
    ensures r.Some? ==> forall k :: 0 <= k < r.value ==> entries[k].tokenHash != hash
    ensures r.None? ==> forall k :: 0 <= k < |entries| ==> entries[k].tokenHash != hash
  {
    if entries == [] then None
    else if entries[0].tokenHash == hash then Some(0)
    else match IndexOfHash(entries[1..], hash)
      case None => None
      case Some(k) => Some(k + 1)
  }

  /** The query's own condition (a query email is cast through the same setters as a stored one). */
  predicate Matches(q: Query, a: Account)
  {
    match q
    case ByEmail(e) => a.email == NormalizeEmail(e)
    case ById(id) => a.id == id
    case ByRefreshHash(h) => IndexOfHash(a.refreshTokens, h).Some?
    case ByResetToken(h, now) =>
      a.passwordResetToken == Some(h) && a.passwordResetTokenExpiresAt.Some? && a.passwordResetTokenExpiresAt.value > now
    case ByVerificationToken(e, h, now) =>
      && a.email == NormalizeEmail(e)
      && a.emailVerificationToken == Some(h)
      && a.emailVerificationTokenExpiresAt.Some? && a.emailVerificationTokenExpiresAt.value > now
  }

  /** A record a find returns: the pre-find hook adds `deletedAt: null` to every condition. */
  predicate Selected(q: Query, a: Account)
  {
    Visible(a) && Matches(q, a)
  }

  /**
   * `findOne(q)`: the first record, in collection order, that the query
   * selects. It never returns a soft-deleted record.
   */
  function FindOne(users: seq<Account>, q: Query): (r: Option<UserId>)
    ensures r.Some? ==> r.value < |users| && Selected(q, users[r.value])
    ensures r.Some? ==> Visible(users[r.value])
    ensures r.Some? ==> forall j :: 0 <= j < r.value ==> !Selected(q, users[j])
    ensures r.None? ==> forall j :: 0 <= j < |users| ==> !Selected(q, users[j])
  {
    FindFrom(users, q, 0)
  }

  function FindFrom(users: seq<Account>, q: Query, k: nat): (r: Option<UserId>)
    requires k <= |users|
    ensures r.Some? ==> k <= r.value < |users| && Selected(q, users[r.value])
    ensures r.Some? ==> forall j :: k <= j < r.value ==> !Selected(q, users[j])
    ensures r.None? ==> forall j :: k <= j < |users| ==> !Selected(q, users[j])
    decreases |users| - k
  {
    if k == |users| then None
    else if Selected(q, users[k]) then Some(k)
    else FindFrom(users, q, k + 1)
  }

  /** A record that is selected, and that no earlier record precedes, is what `findOne` returns. */
  lemma FindOneIs(users: seq<Account>, q: Query, i: nat)
    requires i < |users| && Selected(q, users[i])
    requires forall j :: 0 <= j < i ==> !Selected(q, users[j])
    ensures FindOne(users, q) == Some(i)
  {
  }

  /**
   * With the unique index in force, a lookup by email finds the one
   * non-deleted record holding that email, wherever it sits.
   */
  lemma FindByEmailUnique(users: seq<Account>, e: string, i: nat)
    requires UniqueActiveEmails(users)
    requires i < |users| && Visible(users[i]) && users[i].email == NormalizeEmail(e)
    ensures FindOne(users, ByEmail(e)) == Some(i)
  {
    var r := FindOne(users, ByEmail(e));
    assert Selected(ByEmail(e), users[i]);
    assert r.Some?;
    assert users[r.value].email == users[i].email;
  }

  /**
   * `findById(id)`: in a collection whose ids are positions, the record at
   * `id` if it is live, and nothing otherwise.
   */
  lemma FindById(users: seq<Account>, id: UserId)
    requires StoreInvariant(users)
    ensures FindOne(users, ById(id)) == if id < |users| && Visible(users[id]) then Some(id) else None
  {
    if id < |users| && Visible(users[id]) {
      FindOneIs(users, ById(id), id);
    }
  }

  /** Two collections that a query selects from alike give the same `findOne` answer. */
  lemma FindOneSameSelection(users: seq<Account>, others: seq<Account>, q: Query)
    requires |users| == |others|
    requires forall j :: 0 <= j < |users| ==> (Selected(q, users[j]) <==> Selected(q, others[j]))
    ensures FindOne(users, q) == FindOne(others, q)
  {
    var r := FindOne(users, q);
    if r.Some? {
      FindOneIs(others, q, r.value);
    }
  }

  /** A soft-deleted record is invisible to every find, whatever the condition. */
  lemma DeletedNeverFound(users: seq<Account>, i: nat, q: Query)
    requires i < |users| && users[i].deletedAt.Some?
    ensures FindOne(users, q) != Some(i)
  {
  }

  /** The projection `select("-password")`. */
  function WithoutPassword(a: Account): (r: Account)
    ensures r.password.None?
    ensures SameExcept(a, r, {PasswordField})
  {
    a.(password := None)
  }

  /** The fields of a document, for stating which ones an operation changes. */
  datatype AccountField =
    | FullNameField | EmailField | PasswordField | BioField | RoleField
    | VerifiedField | ActiveField | ProvidersField | ResetTokenField
    | VerificationTokenField | RefreshTokensField | LastLoginField
    | AttemptsField | LockField | DeletedField

  predicate Agree(a: Account, b: Account, f: AccountField)
  {
    match f
    case FullNameField => a.fullName == b.fullName
    case EmailField => a.email == b.email
    case PasswordField => a.password == b.password
    case BioField => a.bio == b.bio
    case RoleField => a.role == b.role
    case VerifiedField => a.isEmailVerified == b.isEmailVerified
    case ActiveField => a.isActive == b.isActive
    case ProvidersField => a.oauthProviders == b.oauthProviders
    case ResetTokenField =>
      a.passwordResetToken == b.passwordResetToken && a.passwordResetTokenExpiresAt == b.passwordResetTokenExpiresAt
    case VerificationTokenField =>
      a.emailVerificationToken == b.emailVerificationToken
      && a.emailVerificationTokenExpiresAt == b.emailVerificationTokenExpiresAt
    case RefreshTokensField => a.refreshTokens == b.refreshTokens
    case LastLoginField => a.lastLoginAt == b.lastLoginAt
    case AttemptsField => a.loginAttempts == b.loginAttempts
    case LockField => a.lockUntil == b.lockUntil
    case DeletedField => a.deletedAt == b.deletedAt
  }

  /** `b` is the same document as `a` except possibly in the fields `changed`. */
  predicate SameExcept(a: Account, b: Account, changed: set<AccountField>)
  {
    a.id == b.id && forall f: AccountField :: f !in changed ==> Agree(a, b, f)
  }
}
