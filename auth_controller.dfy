/**
 * The authentication handlers: registration, password login with lockout,
 * logout, refresh-token rotation, the forgotten-password and reset flow,
 * email verification, and OAuth sign-in.
 *
 * Each handler is a method on the store. What it does to one account is a
 * pure function of that account (`FailedLogin`, `SucceededLogin`,
 * `LoggedOut`, `Rotated`, ...), so that the lemmas below can relate several
 * handlers: a token issued by one is accepted or refused by another.
 *
 * The clock, the random tokens, the bcrypt salt and the outcome of the email
 * dispatch are parameters.
 */
module AuthController {
  import opened Common
  import opened Text
  import opened Crypto
  import opened UserModel
  import opened ActivityModel
  import opened Store
  import opened OAuthService

  /** Lifetime of an email-verification or password-reset token: one hour. */
  const EmailTokenTtl: int := 3600 * 1000
  /** Failed password attempts after which the account is locked. */
  const MaxLoginAttempts: nat := 5
  /** How long a lock lasts: fifteen minutes. */
  const LockDuration: int := 15 * 60 * 1000
  /** Lifetime of a refresh token: seven days. */
  const RefreshTtl: int := 7 * 24 * 3600 * 1000

  // ---------------------------------------------------------------- register

  /** The document `registerUser` creates. */
  function Registration(id: UserId, fullName: string, email: string, hash: PasswordHash, tokenHash: Fingerprint, now: int): (a: Account)
    ensures a.password == Some(hash)
    ensures a.emailVerificationToken == Some(tokenHash) && a.emailVerificationTokenExpiresAt == Some(now + EmailTokenTtl)
    ensures a.id == id && a.fullName == Trim(fullName) && a.email == NormalizeEmail(email)
    ensures a.role == User && !a.isEmailVerified && a.isActive && a.loginAttempts == 0 && Visible(a)
    ensures a.oauthProviders == [] && a.refreshTokens == [] && a.lastLoginAt.None? && a.lockUntil.None?
  {
    NewAccount(id, fullName, email).(
      password := Some(hash),
      emailVerificationToken := Some(tokenHash),
      emailVerificationTokenExpiresAt := Some(now + EmailTokenTtl))
  }

  /**
   * `registerUser`. The lookup goes through the pre-find hook, so it never
   * sees a soft-deleted record: the restore branch of the handler cannot run,
   * and registration never writes to an existing record. A registration
   * whose email belongs only to deleted records creates a fresh one. A
   * failed email dispatch is reported after the record has been created.
   * Nothing is written to the audit log.
   */
  method RegisterUser(db: Db, fullName: string, email: string, password: string, salt: nat,
                      verificationToken: string, now: int, mailSent: bool)
    returns (r: Result<(), Failure>)
    requires db.Valid()
    modifies db
    ensures db.Valid()
    ensures |db.users| >= |old(db.users)| && db.users[..|old(db.users)|] == old(db.users)
    ensures db.activities == old(db.activities)
    ensures FindOne(old(db.users), ByEmail(email)).Some? ==>
      r == Err(ApiError(400, "Email already registered. Please login instead.")) && db.users == old(db.users)
    ensures FindOne(old(db.users), ByEmail(email)).None? ==>
      var doc := Registration(|old(db.users)|, fullName, email, HashPassword(password, db.pepper, salt), HashToken(verificationToken), now);
      match Put(old(db.users), doc)
      case Err(e) => r == Err(StoreRejected(e)) && db.users == old(db.users)
      case Ok(after) => db.users == after && r == (if mailSent then Ok(()) else Err(MailNotSent))
  {
    var existing := FindOne(db.users, ByEmail(email));
    if existing.Some? {
      if db.users[existing.value].deletedAt.Some? {
        assert false;
      }
      return Err(ApiError(400, "Email already registered. Please login instead."));
    }
    var doc := Registration(|db.users|, fullName, email, HashPassword(password, db.pepper, salt), HashToken(verificationToken), now);
    NewAccountNormalised(|db.users|, fullName, email);
    ghost var before := db.users;
    var created := db.Create(doc);
    if created.Err? {
      return Err(StoreRejected(created.error));
    }
    assert db.users == before + [doc];
    assert db.users[..|before|] == before;
    if !mailSent {
      return Err(MailNotSent);
    }
    return Ok(());
  }

  /**
   * When every record holding an email is soft-deleted, registering that
   * email again succeeds with a brand-new record, and the deleted ones stay
   * as they were.
   */
  lemma ReRegisterAfterDelete(users: seq<Account>, fullName: string, email: string, hash: PasswordHash, tokenHash: Fingerprint, now: int)
    requires StoreInvariant(users)
    requires forall j :: 0 <= j < |users| && users[j].email == NormalizeEmail(email) ==> users[j].deletedAt.Some?
    requires Trim(fullName) != "" && NormalizeEmail(email) != ""
    ensures FindOne(users, ByEmail(email)).None?
    ensures Put(users, Registration(|users|, fullName, email, hash, tokenHash, now))
         == Ok(users + [Registration(|users|, fullName, email, hash, tokenHash, now)])
  {
    var doc := Registration(|users|, fullName, email, hash, tokenHash, now);
    var after := users + [doc];
    forall i, j | 0 <= i < |after| && 0 <= j < |after| && i != j && Visible(after[i]) && Visible(after[j])
      ensures after[i].email != after[j].email
    {
      if i < |users| && j < |users| {
        assert users[i] == after[i] && users[j] == after[j];
      }
    }
  }

  // ---------------------------------------------------------------- login

  /** The outcome of the checks `loginUser` makes before it writes anything. */
  datatype LoginVerdict = NoCredentials | Locked | WrongPassword | PasswordOk

  /**
   * The login checks on the record found by email: a record without a
   * password cannot log in with one; a lock in the future refuses the attempt
   * before the password is compared; then the password decides. Neither the
   * blocked flag nor email verification is consulted.
   */
  function LoginCheck(a: Account, password: string, pepper: string, now: int): (v: LoginVerdict)
    ensures v == NoCredentials <==> a.password.None?
    ensures v == Locked <==> a.password.Some? && IsLocked(a, now)
    ensures v == PasswordOk <==> a.password.Some? && !IsLocked(a, now) && ComparePassword(password, pepper, a.password.value)
  {
    if a.password.None? then NoCredentials
    else if a.lockUntil.Some? && a.lockUntil.value > now then Locked
    else if !ComparePassword(password, pepper, a.password.value) then WrongPassword
    else PasswordOk
  }

  /** A failed attempt: one more failure, and a fresh lock once the count reaches the threshold. */
  function FailedLogin(a: Account, now: int): (r: Account)
    ensures r.loginAttempts == a.loginAttempts + 1
    ensures r.loginAttempts >= MaxLoginAttempts ==> r.lockUntil == Some(now + LockDuration) && IsLocked(r, now)
    ensures r.loginAttempts < MaxLoginAttempts ==> r.lockUntil == a.lockUntil
    ensures SameExcept(a, r, {AttemptsField, LockField})
  {
    var counted := a.(loginAttempts := a.loginAttempts + 1);
    if counted.loginAttempts >= MaxLoginAttempts then counted.(lockUntil := Some(now + LockDuration)) else counted
  }

  /** The refresh-token entry a login stores: the token's fingerprint, the client's device and address, seven days' validity. */
  function IssuedEntry(token: string, req: Request, now: int): (e: RefreshEntry)
    ensures e.tokenHash == HashToken(token) && e.expiresAt - e.createdAt == RefreshTtl
  {
    RefreshEntry(HashToken(token), req.userAgent, req.ip, now, now + RefreshTtl)
  }

  /** A successful login: the failure count and lock are cleared, the login time recorded, one refresh entry added. */
  function SucceededLogin(a: Account, entry: RefreshEntry, now: int): (r: Account)
    ensures r.loginAttempts == 0 && forall t :: !IsLocked(r, t)
    ensures r.lastLoginAt == Some(now) && r.refreshTokens == a.refreshTokens + [entry]
    ensures SameExcept(a, r, {AttemptsField, LockField, LastLoginField, RefreshTokensField})
  {
    a.(loginAttempts := 0, lockUntil := None, lastLoginAt := Some(now), refreshTokens := a.refreshTokens + [entry])
  }

  /**
   * `loginUser`. A refused attempt (no such account, no password, locked)
   * changes nothing; a wrong password is counted, and the attempt that
   * reaches the threshold is logged as ACCOUNT_BLOCKED; a right one issues an
   * access token and a refresh token.
   */
  method LoginUser(db: Db, email: string, password: string, req: Request, now: int, refreshToken: string)
    returns (r: Result<TokenPair, Failure>)
    requires db.Valid()
    modifies db
    ensures db.Valid()
    ensures match FindOne(old(db.users), ByEmail(email))
      case None => r == Err(ApiError(401, "Invalid credentials")) && unchanged(db)
      case Some(i) =>
        var a := old(db.users)[i];
        match LoginCheck(a, password, db.pepper, now)
        case NoCredentials => r == Err(ApiError(401, "Invalid credentials")) && unchanged(db)
        case Locked => r == Err(ApiError(403, "Account temporarily locked")) && unchanged(db)
        case WrongPassword =>
          && r == Err(ApiError(401, "Invalid credentials"))
          && db.users == old(db.users)[i := FailedLogin(a, now)]
          && db.activities == old(db.activities) +
               (if FailedLogin(a, now).loginAttempts >= MaxLoginAttempts then [SelfEntry(i, AccountBlocked, req, NoMetadata)] else [])
        case PasswordOk =>
          && r == Ok(TokenPair(Jwt(i), refreshToken))
          && db.users == old(db.users)[i := SucceededLogin(a, IssuedEntry(refreshToken, req, now), now)]
          && db.activities == old(db.activities) + [SelfEntry(i, LoginSuccess, req, NoMetadata)]
  {
    var found := FindOne(db.users, ByEmail(email));
    if found.None? {
      return Err(ApiError(401, "Invalid credentials"));
    }
    var i := found.value;
    var a := db.users[i];
    if a.password.None? {
      return Err(ApiError(401, "Invalid credentials"));
    }
    if a.lockUntil.Some? && a.lockUntil.value > now {
      return Err(ApiError(403, "Account temporarily locked"));
    }
    if !ComparePassword(password, db.pepper, a.password.value) {
      var failed := FailedLogin(a, now);
      if failed.loginAttempts >= MaxLoginAttempts {
        db.Record(SelfEntry(i, AccountBlocked, req, NoMetadata));
      }
      SaveSucceeds(db.users, failed);
      var saved := db.Save(failed);
      return Err(ApiError(401, "Invalid credentials"));
    }
    var signedIn := SucceededLogin(a, IssuedEntry(refreshToken, req, now), now);
    SaveSucceeds(db.users, signedIn);
    var saved := db.Save(signedIn);
    db.Record(SelfEntry(i, LoginSuccess, req, NoMetadata));
    return Ok(TokenPair(Jwt(i), refreshToken));
  }

  /** A locked account refuses every password alike, the right one included. */
  lemma LockedIgnoresPassword(a: Account, p: string, q: string, pepper: string, now: int)
    requires a.password.Some? && IsLocked(a, now)
    ensures LoginCheck(a, p, pepper, now) == LoginCheck(a, q, pepper, now) == Locked
  {
  }

  /** Whether the account is blocked or its email verified plays no part in a password login. */
  lemma LoginIgnoresStatus(a: Account, password: string, pepper: string, now: int, active: bool, verified: bool)
    ensures LoginCheck(a.(isActive := active, isEmailVerified := verified), password, pepper, now)
         == LoginCheck(a, password, pepper, now)
  {
  }

  /** The account after a series of logins with a wrong password, at the given times. */
  function AfterWrongPasswords(a: Account, times: seq<int>): Account
    decreases |times|
  {
    if times == [] then a
    else
      var before := AfterWrongPasswords(a, times[..|times| - 1]);
      var t := times[|times| - 1];
      if IsLocked(before, t) then before else FailedLogin(before, t)
  }

  /**
   * Starting from a clean account, each of the first five wrong passwords is
   * counted, and exactly the fifth sets a fifteen-minute lock.
   */
  lemma {:induction false} WrongPasswordsCount(a: Account, times: seq<int>)
    requires a.loginAttempts == 0 && a.lockUntil.None?
    requires |times| <= MaxLoginAttempts
    ensures AfterWrongPasswords(a, times) == a.(
      loginAttempts := |times|,
      lockUntil := if |times| == MaxLoginAttempts then Some(times[|times| - 1] + LockDuration) else None)
    decreases |times|
  {
    if times != [] {
      WrongPasswordsCount(a, times[..|times| - 1]);
    }
  }

  /**
   * After five wrong passwords every login is refused as locked, whatever
   * the password, until fifteen minutes after the fifth.
   */
  lemma FiveFailuresLock(a: Account, times: seq<int>, password: string, pepper: string, t: int)
    requires a.password.Some? && a.loginAttempts == 0 && a.lockUntil.None?
    requires |times| == MaxLoginAttempts
    requires t < times[|times| - 1] + LockDuration
    ensures LoginCheck(AfterWrongPasswords(a, times), password, pepper, t) == Locked
  {
    WrongPasswordsCount(a, times);
  }

  /**
   * Once the lock has run out the right password is accepted; a wrong one
   * locks the account again at once, because the failure count is not reset
   * when a lock expires.
   */
  lemma LockExpires(a: Account, password: string, wrong: string, pepper: string, t: int)
    requires a.password.Some? && a.loginAttempts >= MaxLoginAttempts && a.lockUntil.Some? && t >= a.lockUntil.value
    requires ComparePassword(password, pepper, a.password.value) && !ComparePassword(wrong, pepper, a.password.value)
    ensures LoginCheck(a, password, pepper, t) == PasswordOk
    ensures LoginCheck(a, wrong, pepper, t) == WrongPassword && IsLocked(FailedLogin(a, t), t)
  {
  }

  // ---------------------------------------------------------------- logout

  /** `refreshTokens.filter(rt => rt.tokenHash !== hash)`. */
  function WithoutHash(entries: seq<RefreshEntry>, hash: Fingerprint): (r: seq<RefreshEntry>)
    ensures |r| <= |entries|
    ensures forall e :: e in r <==> e in entries && e.tokenHash != hash
  {
    if entries == [] then []
    else if entries[0].tokenHash == hash then WithoutHash(entries[1..], hash)
    else [entries[0]] + WithoutHash(entries[1..], hash)
  }

  /** The filter keeps the order of what it keeps: it distributes over concatenation. */
  lemma {:induction false} WithoutHashAppend(xs: seq<RefreshEntry>, ys: seq<RefreshEntry>, hash: Fingerprint)
    ensures WithoutHash(xs + ys, hash) == WithoutHash(xs, hash) + WithoutHash(ys, hash)
    decreases |xs|
  {
    if xs == [] {
      assert xs + ys == ys;
    } else {
      assert (xs + ys)[0] == xs[0];
      assert (xs + ys)[1..] == xs[1..] + ys;
      WithoutHashAppend(xs[1..], ys, hash);
    }
  }

  /** Logging out twice with the same token is the same as logging out once. */
  lemma {:induction false} WithoutHashIdempotent(entries: seq<RefreshEntry>, hash: Fingerprint)
    ensures WithoutHash(WithoutHash(entries, hash), hash) == WithoutHash(entries, hash)
    decreases |entries|
  {
    if entries != [] {
      WithoutHashIdempotent(entries[1..], hash);
    }
  }

  /** Entries with other fingerprints survive the filter untouched. */
  lemma {:induction false} WithoutHashKeepsOthers(entries: seq<RefreshEntry>, hash: Fingerprint)
    requires forall k :: 0 <= k < |entries| ==> entries[k].tokenHash != hash
    ensures WithoutHash(entries, hash) == entries
    decreases |entries|
  {
    if entries != [] {
      WithoutHashKeepsOthers(entries[1..], hash);
    }
  }

  /** `logoutUser`'s change to the signed-in account: every entry for the token is dropped. */
  function LoggedOut(a: Account, hash: Fingerprint): (r: Account)
    ensures IndexOfHash(r.refreshTokens, hash).None?
    ensures SameExcept(a, r, {RefreshTokensField})
  {
    a.(refreshTokens := WithoutHash(a.refreshTokens, hash))
  }

  /**
   * `logoutUser`, for the account the authentication middleware attached to
   * the request. The refresh token must be present.
   */
  method LogoutUser(db: Db, uid: UserId, refreshToken: Option<string>, req: Request)
    returns (r: Result<(), Failure>)
    requires db.Valid() && uid < |db.users|
    modifies db
    ensures db.Valid()
    ensures !Truthy(refreshToken) ==> r == Err(ApiError(400, "Refresh token required")) && unchanged(db)
    ensures Truthy(refreshToken) ==>
      && r == Ok(())
      && db.users == old(db.users)[uid := LoggedOut(old(db.users)[uid], HashToken(refreshToken.value))]
      && db.activities == old(db.activities) + [SelfEntry(uid, Logout, req, NoMetadata)]
  {
    if !Truthy(refreshToken) {
      return Err(ApiError(400, "Refresh token required"));
    }
    var a := LoggedOut(db.users[uid], HashToken(refreshToken.value));
    SaveSucceeds(db.users, a);
    var saved := db.Save(a);
    db.Record(SelfEntry(uid, Logout, req, NoMetadata));
    return Ok(());
  }

  /** After logout the token no longer finds the account, so it cannot be refreshed. */
  lemma LogoutRevokes(users: seq<Account>, uid: UserId, token: string)
    requires uid < |users|
    ensures FindOne(users[uid := LoggedOut(users[uid], HashToken(token))], ByRefreshHash(HashToken(token))) != Some(uid)
  {
  }

  // ---------------------------------------------------------------- refresh

  /**
   * The rotation of entry `k`: a new fingerprint and seven days from now;
   * the device, the address and the creation time are kept. (The handler
   * also sets an `issuedAt` path the schema does not declare; it is not
   * stored.)
   */
  function Rotated(entries: seq<RefreshEntry>, k: nat, newHash: Fingerprint, now: int): (r: seq<RefreshEntry>)
    requires k < |entries|
    ensures |r| == |entries|
    ensures forall j :: 0 <= j < |entries| && j != k ==> r[j] == entries[j]
    ensures r[k].tokenHash == newHash && r[k].expiresAt == now + RefreshTtl
    ensures r[k].device == entries[k].device && r[k].ipAddress == entries[k].ipAddress && r[k].createdAt == entries[k].createdAt
  {
    entries[k := entries[k].(tokenHash := newHash, expiresAt := now + RefreshTtl)]
  }

  /**
   * `refreshToken`. The token must be present and find an account; its entry
   * must not have expired (an entry is still good at the very millisecond it
   * expires); the entry is then rotated and a new pair issued. Nothing is
   * written to the audit log.
   */
  method RefreshToken(db: Db, refreshToken: Option<string>, now: int, newRefreshToken: string)
    returns (r: Result<TokenPair, Failure>)
    requires db.Valid()
    modifies db
    ensures db.Valid()
    ensures db.activities == old(db.activities)
    ensures !Truthy(refreshToken) ==> r == Err(ApiError(400, "Refresh token required")) && unchanged(db)
    ensures Truthy(refreshToken) ==>
      var hash := HashToken(refreshToken.value);
      match FindOne(old(db.users), ByRefreshHash(hash))
      case None => r == Err(ApiError(401, "Invalid refresh token")) && unchanged(db)
      case Some(i) =>
        var a := old(db.users)[i];
        var k := IndexOfHash(a.refreshTokens, hash).value;
        if now > a.refreshTokens[k].expiresAt then
          r == Err(ApiError(401, "Refresh token expired")) && unchanged(db)
        else
          && r == Ok(TokenPair(Jwt(i), newRefreshToken))
          && db.users == old(db.users)[i := a.(refreshTokens := Rotated(a.refreshTokens, k, HashToken(newRefreshToken), now))]
  {
    if !Truthy(refreshToken) {
      return Err(ApiError(400, "Refresh token required"));
    }
    var hash := HashToken(refreshToken.value);
    var found := FindOne(db.users, ByRefreshHash(hash));
    if found.None? {
      return Err(ApiError(401, "Invalid refresh token"));
    }
    var i := found.value;
    var a := db.users[i];
    var k := IndexOfHash(a.refreshTokens, hash).value;
    if now > a.refreshTokens[k].expiresAt {
      return Err(ApiError(401, "Refresh token expired"));
    }
    var rotated := a.(refreshTokens := Rotated(a.refreshTokens, k, HashToken(newRefreshToken), now));
    SaveSucceeds(db.users, rotated);
    var saved := db.Save(rotated);
    return Ok(TokenPair(Jwt(i), newRefreshToken));
  }

  /**
   * A token issued by a login finds its account through the refresh lookup,
   * provided no other live account holds the same fingerprint, and stays
   * acceptable for exactly seven days.
   */
  lemma LoginTokenRefreshable(users: seq<Account>, i: UserId, token: string, req: Request, now: int)
    requires i < |users| && Visible(users[i])
    requires IndexOfHash(users[i].refreshTokens, HashToken(token)).None?
    requires forall j :: 0 <= j < |users| && j != i && Visible(users[j]) ==> IndexOfHash(users[j].refreshTokens, HashToken(token)).None?
    ensures
      var a := SucceededLogin(users[i], IssuedEntry(token, req, now), now);
      var after := users[i := a];
      && FindOne(after, ByRefreshHash(HashToken(token))) == Some(i)
      && IndexOfHash(a.refreshTokens, HashToken(token)) == Some(|users[i].refreshTokens|)
      && a.refreshTokens[|users[i].refreshTokens|].expiresAt == now + RefreshTtl
  {
    var h := HashToken(token);
    var a := SucceededLogin(users[i], IssuedEntry(token, req, now), now);
    var after := users[i := a];
    var n := |users[i].refreshTokens|;
    assert a.refreshTokens[n].tokenHash == h;
    assert IndexOfHash(a.refreshTokens, h) == Some(n) by {
      var idx := IndexOfHash(a.refreshTokens, h);
      assert idx.Some? && !(idx.value < n);
    }
    assert Selected(ByRefreshHash(h), after[i]);
    FindOneIs(after, ByRefreshHash(h), i);
  }

  /**
   * Rotation retires the presented token: if it was held by a single entry
   * of a single live account and the new token differs from it, presenting
   * it again finds no account.
   */
  lemma RotationRetiresToken(users: seq<Account>, i: UserId, k: nat, token: string, newToken: string, now: int)
    requires i < |users| && k < |users[i].refreshTokens|
    requires token != newToken
    requires forall m :: 0 <= m < |users[i].refreshTokens| && m != k ==> users[i].refreshTokens[m].tokenHash != HashToken(token)
    requires forall j :: 0 <= j < |users| && j != i && Visible(users[j]) ==> IndexOfHash(users[j].refreshTokens, HashToken(token)).None?
    ensures
      var a := users[i];
      var after := users[i := a.(refreshTokens := Rotated(a.refreshTokens, k, HashToken(newToken), now))];
      FindOne(after, ByRefreshHash(HashToken(token))).None?
  {
    var h := HashToken(token);
    var a := users[i];
    var rotated := Rotated(a.refreshTokens, k, HashToken(newToken), now);
    HashTokenInjective(token, newToken);
    assert IndexOfHash(rotated, h).None? by {
      var idx := IndexOfHash(rotated, h);
      if idx.Some? {
        assert false;
      }
    }
  }

  // ---------------------------------------------------------------- forgotten password and reset

  /** `forgotPassword`'s change to the account: a reset fingerprint valid for one hour. */
  function WithResetToken(a: Account, hash: Fingerprint, now: int): (r: Account)
    ensures Selected(ByResetToken(hash, now), r) <==> Visible(a)
    ensures forall t :: t >= now + EmailTokenTtl ==> !Matches(ByResetToken(hash, t), r)
    ensures SameExcept(a, r, {ResetTokenField})
  {
    a.(passwordResetToken := Some(hash), passwordResetTokenExpiresAt := Some(now + EmailTokenTtl))
  }

  /**
   * `forgotPassword`: the account is looked up by email (404 if there is
   * none), a reset token is stored, then the email is sent; a failed dispatch
   * is reported after the token has been stored.
   */
  method ForgotPassword(db: Db, email: string, resetToken: string, now: int, mailSent: bool)
    returns (r: Result<(), Failure>)
    requires db.Valid()
    modifies db
    ensures db.Valid()
    ensures db.activities == old(db.activities)
    ensures match FindOne(old(db.users), ByEmail(email))
      case None => r == Err(ApiError(404, "User not found")) && unchanged(db)
      case Some(i) =>
        && db.users == old(db.users)[i := WithResetToken(old(db.users)[i], HashToken(resetToken), now)]
        && r == (if mailSent then Ok(()) else Err(MailNotSent))
  {
    var found := FindOne(db.users, ByEmail(email));
    if found.None? {
      return Err(ApiError(404, "User not found"));
    }
    var i := found.value;
    var a := WithResetToken(db.users[i], HashToken(resetToken), now);
    SaveSucceeds(db.users, a);
    var saved := db.Save(a);
    if !mailSent {
      return Err(MailNotSent);
    }
    return Ok(());
  }

  /** `resetPassword`'s change to the account: the new hash replaces any old one (or none), and the reset token is consumed. */
  function WithNewPassword(a: Account, hash: PasswordHash): (r: Account)
    ensures r.password == Some(hash)
    ensures forall h, t :: !Matches(ByResetToken(h, t), r)
    ensures SameExcept(a, r, {PasswordField, ResetTokenField})
  {
    a.(password := Some(hash), passwordResetToken := None, passwordResetTokenExpiresAt := None)
  }

  /**
   * `resetPassword`: the token must match an unexpired reset fingerprint of a
   * live account; the password is replaced and the event logged.
   */
  method ResetPassword(db: Db, token: string, password: string, salt: nat, req: Request, now: int)
    returns (r: Result<(), Failure>)
    requires db.Valid()
    modifies db
    ensures db.Valid()
    ensures match FindOne(old(db.users), ByResetToken(HashToken(token), now))
      case None => r == Err(ApiError(400, "Invalid or expired token")) && unchanged(db)
      case Some(i) =>
        && r == Ok(())
        && db.users == old(db.users)[i := WithNewPassword(old(db.users)[i], HashPassword(password, db.pepper, salt))]
        && db.activities == old(db.activities) + [SelfEntry(i, PasswordReset, req, NoMetadata)]
  {
    var found := FindOne(db.users, ByResetToken(HashToken(token), now));
    if found.None? {
      return Err(ApiError(400, "Invalid or expired token"));
    }
    var i := found.value;
    var a := WithNewPassword(db.users[i], HashPassword(password, db.pepper, salt));
    SaveSucceeds(db.users, a);
    var saved := db.Save(a);
    db.Record(SelfEntry(i, PasswordReset, req, NoMetadata));
    return Ok(());
  }

  /**
   * The token a `forgotPassword` stores is what `resetPassword` accepts,
   * for one hour after it was issued, provided no other live account holds
   * the same unexpired reset fingerprint.
   */
  lemma ForgotThenReset(users: seq<Account>, i: UserId, token: string, issued: int, t: int)
    requires i < |users| && Visible(users[i])
    requires issued <= t < issued + EmailTokenTtl
    requires forall j :: 0 <= j < |users| && j != i ==> !Selected(ByResetToken(HashToken(token), t), users[j])
    ensures FindOne(users[i := WithResetToken(users[i], HashToken(token), issued)], ByResetToken(HashToken(token), t)) == Some(i)
  {
    var after := users[i := WithResetToken(users[i], HashToken(token), issued)];
    assert Selected(ByResetToken(HashToken(token), t), after[i]);
    FindOneIs(after, ByResetToken(HashToken(token), t), i);
  }

  /** A reset token works once: after the reset it no longer finds the account, at any time. */
  lemma ResetTokenSingleUse(users: seq<Account>, i: UserId, hash: PasswordHash, token: string, t: int)
    requires i < |users|
    ensures FindOne(users[i := WithNewPassword(users[i], hash)], ByResetToken(HashToken(token), t)) != Some(i)
  {
  }

  /** After a reset the new password is accepted and any other password, the old one included, is not. */
  lemma ResetThenLogin(a: Account, newPassword: string, other: string, pepper: string, salt: nat, now: int)
    requires other != newPassword && !IsLocked(a, now)
    ensures
      var b := WithNewPassword(a, HashPassword(newPassword, pepper, salt));
      LoginCheck(b, newPassword, pepper, now) == PasswordOk && LoginCheck(b, other, pepper, now) == WrongPassword
  {
    CompareHashed(newPassword, newPassword, pepper, salt);
    CompareHashed(other, newPassword, pepper, salt);
  }

  // ---------------------------------------------------------------- email verification

  /** `verifyEmail`'s change to the account: verified, and the verification token consumed. */
  function Verified(a: Account): (r: Account)
    ensures r.isEmailVerified
    ensures forall e, h, t :: !Matches(ByVerificationToken(e, h, t), r)
    ensures SameExcept(a, r, {VerifiedField, VerificationTokenField})
  {
    a.(isEmailVerified := true, emailVerificationToken := None, emailVerificationTokenExpiresAt := None)
  }

  /**
   * `verifyEmail`: token and email must both be present and match an
   * unexpired verification fingerprint of the live account with that email.
   */
  method VerifyEmail(db: Db, token: Option<string>, email: Option<string>, req: Request, now: int)
    returns (r: Result<(), Failure>)
    requires db.Valid()
    modifies db
    ensures db.Valid()
    ensures !Truthy(token) || !Truthy(email) ==> r == Err(ApiError(400, "Token and email required")) && unchanged(db)
    ensures Truthy(token) && Truthy(email) ==>
      match FindOne(old(db.users), ByVerificationToken(email.value, HashToken(token.value), now))
      case None => r == Err(ApiError(400, "Invalid or expired token")) && unchanged(db)
      case Some(i) =>
        && r == Ok(())
        && db.users == old(db.users)[i := Verified(old(db.users)[i])]
        && db.activities == old(db.activities) + [SelfEntry(i, EmailVerified, req, NoMetadata)]
  {
    if !Truthy(token) || !Truthy(email) {
      return Err(ApiError(400, "Token and email required"));
    }
    var found := FindOne(db.users, ByVerificationToken(email.value, HashToken(token.value), now));
    if found.None? {
      return Err(ApiError(400, "Invalid or expired token"));
    }
    var i := found.value;
    var a := Verified(db.users[i]);
    SaveSucceeds(db.users, a);
    var saved := db.Save(a);
    db.Record(SelfEntry(i, EmailVerified, req, NoMetadata));
    return Ok(());
  }

  /**
   * The link a registration mails out verifies the new account for one hour:
   * the unique index leaves no other live account with that email.
   */
  lemma RegisterThenVerify(users: seq<Account>, fullName: string, email: string, hash: PasswordHash, token: string, issued: int, t: int)
    requires Put(users, Registration(|users|, fullName, email, hash, HashToken(token), issued)).Ok?
    requires issued <= t < issued + EmailTokenTtl
    ensures
      var after := Put(users, Registration(|users|, fullName, email, hash, HashToken(token), issued)).value;
      FindOne(after, ByVerificationToken(email, HashToken(token), t)) == Some(|users|)
  {
    var doc := Registration(|users|, fullName, email, hash, HashToken(token), issued);
    var after := users + [doc];
    var q := ByVerificationToken(email, HashToken(token), t);
    assert Selected(q, after[|users|]);
    forall j | 0 <= j < |users|
      ensures !Selected(q, after[j])
    {
      if Visible(after[j]) {
        assert after[j].email != after[|users|].email;
      }
    }
    FindOneIs(after, q, |users|);
  }

  /**
   * A verification link works once: in a collection with the unique index
   * in force, after the account is verified the same token and email find
   * nothing, at any later time.
   */
  lemma VerifyTokenSingleUse(users: seq<Account>, email: string, hash: Fingerprint, now: int, t: int)
    requires UniqueActiveEmails(users)
    requires FindOne(users, ByVerificationToken(email, hash, now)).Some?
    ensures
      var i := FindOne(users, ByVerificationToken(email, hash, now)).value;
      FindOne(users[i := Verified(users[i])], ByVerificationToken(email, hash, t)).None?
  {
    var i := FindOne(users, ByVerificationToken(email, hash, now)).value;
    var after := users[i := Verified(users[i])];
    forall j | 0 <= j < |after|
      ensures !Selected(ByVerificationToken(email, hash, t), after[j])
    {
      if j != i && Visible(after[j]) {
        assert users[j].email != users[i].email;
      }
    }
  }

  // ---------------------------------------------------------------- OAuth sign-in

  /** `oauthProviders.some(p => p.provider === provider && p.providerId === providerId)`, on the raw provider string. */
  predicate LinkedTo(links: seq<ProviderLink>, provider: string, providerId: string)
  {
    exists k :: 0 <= k < |links| && ProviderName(links[k].provider) == provider && links[k].providerId == providerId
  }

  /** No provider identity is linked twice. */
  predicate DistinctLinks(links: seq<ProviderLink>)
  {
    forall m, n :: 0 <= m < n < |links| ==> links[m] != links[n]
  }

  /** The document an OAuth sign-in creates: verified, without password, linked to the one identity. */
  function OAuthAccount(id: UserId, profile: OAuthProfile, link: ProviderLink): (a: Account)
    ensures a.id == id && a.fullName == Trim(profile.fullName) && a.email == NormalizeEmail(profile.email)
    ensures a.isEmailVerified && a.password.None? && a.oauthProviders == [link] && a.lastLoginAt.None?
    ensures a.role == User && a.isActive && a.loginAttempts == 0 && Visible(a) && a.refreshTokens == []
  {
    NewAccount(id, profile.fullName, profile.email).(oauthProviders := [link], isEmailVerified := true)
  }

  /**
   * The document a first sign-in creates, for an email no live account
   * holds: verified, without a password, linked to the one identity. The
   * provider string from the request is stored as given, so the schema's
   * exact, case-sensitive enum refuses any spelling but the lower-case one.
   */
  function OAuthFirstSignIn(users: seq<Account>, provider: string, profile: OAuthProfile): (r: Result<Account, DbError>)
    requires StoreInvariant(users)
    ensures ParseProvider(provider).None? ==> r == Err(ValidationError)
    ensures r.Ok? ==>
      && ParseProvider(provider).Some?
      && r.value.id == |users| && r.value.isEmailVerified && r.value.password.None? && r.value.lastLoginAt.None?
      && r.value.oauthProviders == [ProviderLink(ParseProvider(provider).value, profile.providerId)]
      && r.value.refreshTokens == []
    ensures r.Ok? ==> LinkedTo(r.value.oauthProviders, provider, profile.providerId)
    ensures r.Ok? ==> StoreInvariant(users + [r.value])
  {
    match ParseProvider(provider)
    case None => Err(ValidationError)
    case Some(p) =>
      var doc := OAuthAccount(|users|, profile, ProviderLink(p, profile.providerId));
      NewAccountNormalised(|users|, profile.fullName, profile.email);
      assert doc.oauthProviders[0] == ProviderLink(p, profile.providerId);
      match Put(users, doc)
      case Err(e) => Err(e)
      case Ok(_) => Ok(doc)
  }

  /**
   * A sign-in to the live account `i` found by the profile's email: the
   * identity is linked if it is not linked yet (compared on the raw provider
   * string), and the login time is recorded.
   */
  function OAuthReturningSignIn(users: seq<Account>, i: UserId, provider: string, profile: OAuthProfile, now: int)
    : (r: Result<Account, DbError>)
    requires StoreInvariant(users) && i < |users|
    ensures LinkedTo(users[i].oauthProviders, provider, profile.providerId) ==>
      r.Ok? && r.value.oauthProviders == users[i].oauthProviders
    ensures !LinkedTo(users[i].oauthProviders, provider, profile.providerId) && ParseProvider(provider).None? ==>
      r == Err(ValidationError)
    ensures r.Ok? ==>
      && ParseProvider(provider).Some?
      && r.value.lastLoginAt == Some(now)
      && SameExcept(users[i], r.value, {ProvidersField, LastLoginField})
    ensures r.Ok? ==> LinkedTo(r.value.oauthProviders, provider, profile.providerId)
    ensures r.Ok? && DistinctLinks(users[i].oauthProviders) ==> DistinctLinks(r.value.oauthProviders)
    ensures r.Ok? ==> StoreInvariant(users[i := r.value])
  {
    var a := users[i];
    if LinkedTo(a.oauthProviders, provider, profile.providerId) then
      var touched := a.(lastLoginAt := Some(now));
      SaveSucceeds(users, touched);
      var k :| 0 <= k < |a.oauthProviders| && ProviderName(a.oauthProviders[k].provider) == provider;
      ParseProviderName(a.oauthProviders[k].provider);
      Ok(touched)
    else
      match ParseProvider(provider)
      case None => Err(ValidationError)
      case Some(p) =>
        var linked := a.(oauthProviders := a.oauthProviders + [ProviderLink(p, profile.providerId)], lastLoginAt := Some(now));
        assert linked.oauthProviders[|a.oauthProviders|] == ProviderLink(p, profile.providerId);
        match Put(users, linked)
        case Err(e) => Err(e)
        case Ok(_) => Ok(linked)
  }

  /** Which account an OAuth sign-in ends with, and whether it was created. */
  datatype OAuthSession = OAuthSession(id: UserId, account: Account, created: bool)

  /**
   * The store-side part of `oauthLogin`: find the live account by the
   * profile's email or create one, then add the refresh entry.
   */
  function OAuthSignIn(users: seq<Account>, provider: string, profile: OAuthProfile, now: int, entry: RefreshEntry)
    : (r: Result<OAuthSession, DbError>)
    requires StoreInvariant(users)
    ensures r.Ok? ==> ParseProvider(provider).Some?
    ensures r.Ok? ==> LinkedTo(r.value.account.oauthProviders, provider, profile.providerId)
    ensures r.Ok? ==> r.value.account.id == r.value.id && r.value.id <= |users|
    ensures r.Ok? ==> (r.value.created <==> FindOne(users, ByEmail(profile.email)).None?)
    ensures r.Ok? ==> (r.value.created <==> r.value.id == |users|)
    ensures r.Ok? ==> r.value.account.refreshTokens == (if r.value.created then [] else users[r.value.id].refreshTokens) + [entry]
    ensures r.Ok? ==> StoreInvariant(Placed(users, r.value.account))
  {
    match FindOne(users, ByEmail(profile.email))
    case None =>
      (match OAuthFirstSignIn(users, provider, profile)
       case Err(e) => Err(e)
       case Ok(a) =>
         var signedIn := a.(refreshTokens := [entry]);
         SaveSucceeds(users + [a], signedIn);
         assert (users + [a])[|users| := signedIn] == users + [signedIn];
         Ok(OAuthSession(|users|, signedIn, true)))
    case Some(i) =>
      match OAuthReturningSignIn(users, i, provider, profile, now)
      case Err(e) => Err(e)
      case Ok(a) =>
        var signedIn := a.(refreshTokens := a.refreshTokens + [entry]);
        SaveSucceeds(users[i := a], signedIn);
        assert users[i := a][i := signedIn] == users[i := signedIn];
        Ok(OAuthSession(i, signedIn, false))
  }

  /** The `if (!user)` branch of `oauthLogin`: create the account and log USER_CREATED. */
  method CreateOAuthAccount(db: Db, provider: string, profile: OAuthProfile, req: Request)
    returns (r: Result<UserId, DbError>)
    requires db.Valid()
    modifies db
    ensures db.Valid()
    ensures match OAuthFirstSignIn(old(db.users), provider, profile)
      case Err(e) => r == Err(e) && unchanged(db)
      case Ok(a) =>
        && r == Ok(a.id)
        && db.users == old(db.users) + [a]
        && db.activities == old(db.activities) + [SelfEntry(a.id, UserCreated, req, OAuthMethod(provider))]
  {
    var parsed := ParseProvider(provider);
    if parsed.None? {
      return Err(ValidationError);
    }
    var doc := OAuthAccount(|db.users|, profile, ProviderLink(parsed.value, profile.providerId));
    NewAccountNormalised(|db.users|, profile.fullName, profile.email);
    var created := db.Create(doc);
    if created.Err? {
      return Err(created.error);
    }
    db.Record(SelfEntry(created.value, UserCreated, req, OAuthMethod(provider)));
    return Ok(created.value);
  }

  /** The `else` branch of `oauthLogin`: link the identity if needed, record the login time, save. */
  method UpdateOAuthAccount(db: Db, i: UserId, provider: string, profile: OAuthProfile, now: int)
    returns (r: Result<(), DbError>)
    requires db.Valid() && i < |db.users|
    modifies db
    ensures db.Valid()
    ensures db.activities == old(db.activities)
    ensures match OAuthReturningSignIn(old(db.users), i, provider, profile, now)
      case Err(e) => r == Err(e) && unchanged(db)
      case Ok(a) => r == Ok(()) && db.users == old(db.users)[i := a]
  {
    var a := db.users[i];
    if !LinkedTo(a.oauthProviders, provider, profile.providerId) {
      var parsed := ParseProvider(provider);
      if parsed.None? {
        return Err(ValidationError);
      }
      a := a.(oauthProviders := a.oauthProviders + [ProviderLink(parsed.value, profile.providerId)]);
    }
    a := a.(lastLoginAt := Some(now));
    var saved := db.Save(a);
    if saved.Err? {
      return Err(saved.error);
    }
    return Ok(());
  }

  /**
   * `oauthLogin`. Provider and code must both be present; the exchange is
   * dispatched on the lower-cased provider (`exchange` stands for
   * `OAuthService.ProviderExchange` with the environment and the providers'
   * answers fixed); then the account is
   * found or created, and a token pair issued. Creation is logged as
   * USER_CREATED and every successful sign-in as LOGIN_SUCCESS, both with the
   * provider as given.
   */
  method OAuthLogin(db: Db, provider: Option<string>, code: Option<string>,
                    exchange: Provider -> Result<OAuthProfile, Failure>,
                    req: Request, now: int, refreshToken: string)
    returns (r: Result<TokenPair, Failure>)
    requires db.Valid()
    modifies db
    ensures db.Valid()
    ensures !Truthy(provider) || !Truthy(code) ==>
      r == Err(ApiError(400, "Missing provider or authorization code")) && unchanged(db)
    ensures Truthy(provider) && Truthy(code) ==>
      match HandleOAuthExchange(provider.value, code)
      case Err(e) => r == Err(e) && unchanged(db)
      case Ok(p) =>
        match exchange(p)
        case Err(e) => r == Err(e) && unchanged(db)
        case Ok(profile) =>
          match OAuthSignIn(old(db.users), provider.value, profile, now, IssuedEntry(refreshToken, req, now))
          case Err(e) => r == Err(StoreRejected(e)) && unchanged(db)
          case Ok(s) =>
            && r == Ok(TokenPair(Jwt(s.id), refreshToken))
            && db.users == Placed(old(db.users), s.account)
            && db.activities == old(db.activities)
                 + (if s.created then [SelfEntry(s.id, UserCreated, req, OAuthMethod(provider.value))] else [])
                 + [SelfEntry(s.id, LoginSuccess, req, OAuthMethod(provider.value))]
  {
    if !Truthy(provider) || !Truthy(code) {
      return Err(ApiError(400, "Missing provider or authorization code"));
    }
    var dispatched := HandleOAuthExchange(provider.value, code);
    if dispatched.Err? {
      return Err(dispatched.error);
    }
    var fetched := exchange(dispatched.value);
    if fetched.Err? {
      return Err(fetched.error);
    }
    var signedIn := SignInAndIssue(db, provider.value, fetched.value, req, now, refreshToken);
    if signedIn.Err? {
      return Err(StoreRejected(signedIn.error));
    }
    return Ok(TokenPair(Jwt(signedIn.value), refreshToken));
  }

  /** The part of `oauthLogin` after the exchange: find or create the account, then issue the refresh entry. */
  method SignInAndIssue(db: Db, provider: string, profile: OAuthProfile, req: Request, now: int, refreshToken: string)
    returns (r: Result<UserId, DbError>)
    requires db.Valid()
    modifies db
    ensures db.Valid()
    ensures match OAuthSignIn(old(db.users), provider, profile, now, IssuedEntry(refreshToken, req, now))
      case Err(e) => r == Err(e) && unchanged(db)
      case Ok(s) =>
        && r == Ok(s.id)
        && db.users == Placed(old(db.users), s.account)
        && db.activities == old(db.activities)
             + (if s.created then [SelfEntry(s.id, UserCreated, req, OAuthMethod(provider))] else [])
             + [SelfEntry(s.id, LoginSuccess, req, OAuthMethod(provider))]
  {
    var found := FindOne(db.users, ByEmail(profile.email));
    var id: UserId;
    if found.None? {
      var created := CreateOAuthAccount(db, provider, profile, req);
      if created.Err? {
        return Err(created.error);
      }
      id := created.value;
    } else {
      id := found.value;
      var updated := UpdateOAuthAccount(db, id, provider, profile, now);
      if updated.Err? {
        return Err(updated.error);
      }
    }
    IssueOAuthTokens(db, id, provider, req, now, refreshToken);
    return Ok(id);
  }

  /** The tail of `oauthLogin`: store the refresh entry and log LOGIN_SUCCESS. */
  method IssueOAuthTokens(db: Db, id: UserId, provider: string, req: Request, now: int, refreshToken: string)
    requires db.Valid() && id < |db.users|
    modifies db
    ensures db.Valid()
    ensures var a := old(db.users)[id];
      db.users == old(db.users)[id := a.(refreshTokens := a.refreshTokens + [IssuedEntry(refreshToken, req, now)])]
    ensures db.activities == old(db.activities) + [SelfEntry(id, LoginSuccess, req, OAuthMethod(provider))]
  {
    var a := db.users[id];
    var withToken := a.(refreshTokens := a.refreshTokens + [IssuedEntry(refreshToken, req, now)]);
    SaveSucceeds(db.users, withToken);
    var saved := db.Save(withToken);
    db.Record(SelfEntry(id, LoginSuccess, req, OAuthMethod(provider)));
  }

  /**
   * A provider name that is not all lower-case passes the dispatch, which
   * lower-cases it, but is refused when it is stored: a first sign-in as
   * "Google" never creates an account.
   */
  lemma CapitalisedProviderRefused(users: seq<Account>, code: Option<string>, profile: OAuthProfile, now: int, entry: RefreshEntry)
    requires StoreInvariant(users)
    requires Truthy(code) && FindOne(users, ByEmail(profile.email)).None?
    ensures HandleOAuthExchange("Google", code) == Ok(Google)
    ensures OAuthSignIn(users, "Google", profile, now, entry) == Err(ValidationError)
  {
    assert Lower("Google") == "google";
  }

  /**
   * Signing in again with the same identity finds the account the first
   * sign-in left, and adds no second link.
   */
  lemma OAuthRepeatSignIn(users: seq<Account>, provider: string, profile: OAuthProfile, now: int, entry: RefreshEntry,
                          later: int, entry2: RefreshEntry)
    requires StoreInvariant(users)
    requires OAuthSignIn(users, provider, profile, now, entry).Ok?
    ensures
      var s := OAuthSignIn(users, provider, profile, now, entry).value;
      var after := Placed(users, s.account);
      var again := OAuthSignIn(after, provider, profile, later, entry2);
      again.Ok? && again.value.id == s.id && !again.value.created
      && again.value.account.oauthProviders == s.account.oauthProviders
  {
    var s := OAuthSignIn(users, provider, profile, now, entry).value;
    var after := Placed(users, s.account);
    assert after[s.id] == s.account;
    assert s.account.email == NormalizeEmail(profile.email) by {
      if s.created {
        NewAccountNormalised(|users|, profile.fullName, profile.email);
      }
    }
    assert Visible(s.account);
    FindByEmailUnique(after, profile.email, s.id);
  }
}
