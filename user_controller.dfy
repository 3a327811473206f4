/**
 * The handlers a signed-in user calls on their own account: updating the
 * profile, changing the password and deleting the account. Each reloads the
 * account by the id the authentication middleware attached, so an account
 * deleted since then is reported as not found.
 *
 * `getMyProfile` answers with the account the middleware attached and does
 * no work of its own; what it returns is what `AuthMiddleware.Authenticate`
 * produces.
 */
module UserController {
  import opened Common
  import opened Text
  import opened Crypto
  import opened UserModel
  import opened ActivityModel
  import opened Store
  import opened AuthController

  // ---------------------------------------------------------------- update profile

  /**
   * The edit `updateMyProfile` makes: each field present in the body is
   * assigned (the name through its trimming setter; a `null` bio clears it),
   * and nothing else changes.
   */
  function ProfileEdit(a: Account, fullName: Option<string>, bio: Option<Option<string>>): (r: Account)
    ensures r.fullName == if fullName.Some? then Trim(fullName.value) else a.fullName
    ensures r.bio == if bio.Some? then bio.value else a.bio
    ensures SameExcept(a, r, {FullNameField, BioField})
  {
    var named := if fullName.Some? then a.(fullName := Trim(fullName.value)) else a;
    if bio.Some? then named.(bio := bio.value) else named
  }

  /**
   * A profile edit of a live record can only fail validation, and it does
   * exactly when a name is given that trims to nothing: the email is not
   * touched, so the unique index cannot object.
   */
  lemma ProfileEditOutcome(users: seq<Account>, i: UserId, fullName: Option<string>, bio: Option<Option<string>>)
    requires StoreInvariant(users) && i < |users| && Visible(users[i])
    ensures var edited := ProfileEdit(users[i], fullName, bio);
      && Normalised(edited)
      && (fullName.Some? && Trim(fullName.value) == "" ==> Put(users, edited) == Err(ValidationError))
      && (fullName.None? || Trim(fullName.value) != "" ==> Put(users, edited) == Ok(users[i := edited]))
  {
    var edited := ProfileEdit(users[i], fullName, bio);
    assert Agree(users[i], edited, EmailField) && Agree(users[i], edited, ProvidersField);
    assert Agree(users[i], edited, DeletedField);
    SaveKeepsUnique(users, edited);
  }

  /**
   * `updateMyProfile`: reload the account, assign the fields present in the
   * body, save, log the edit with the body, and answer with the saved
   * account without its password.
   */
  method UpdateMyProfile(db: Db, uid: UserId, fullName: Option<string>, bio: Option<Option<string>>, req: Request)
    returns (r: Result<Account, Failure>)
    requires db.Valid()
    modifies db
    ensures db.Valid()
    ensures match FindOne(old(db.users), ById(uid))
      case None => r == Err(ApiError(404, "User not found")) && unchanged(db)
      case Some(i) =>
        var edited := ProfileEdit(old(db.users)[i], fullName, bio);
        match Put(old(db.users), edited)
        case Err(e) => r == Err(StoreRejected(e)) && unchanged(db)
        case Ok(after) =>
          && db.users == after
          && db.activities == old(db.activities) + [SelfEntry(i, UserUpdated, req, ProfileFields(fullName, bio))]
          && r == Ok(WithoutPassword(after[i]))
  {
    var found := FindOne(db.users, ById(uid));
    if found.None? {
      return Err(ApiError(404, "User not found"));
    }
    var i := found.value;
    var edited := ProfileEdit(db.users[i], fullName, bio);
    ProfileEditOutcome(db.users, i, fullName, bio);
    var saved := db.Save(edited);
    if saved.Err? {
      return Err(StoreRejected(saved.error));
    }
    db.Record(SelfEntry(i, UserUpdated, req, ProfileFields(fullName, bio)));
    return Ok(WithoutPassword(db.users[i]));
  }

  // ---------------------------------------------------------------- change password

  /** The checks `changePassword` makes, in order, before it writes anything. */
  function PasswordChangeCheck(a: Account, oldPassword: string, newPassword: string, pepper: string): (r: Result<(), Failure>)
    ensures r.Ok? <==>
      && a.password.Some?
      && ComparePassword(oldPassword, pepper, a.password.value)
      && !ComparePassword(newPassword, pepper, a.password.value)
    ensures a.password.None? ==> r == Err(ApiError(400, "Cannot change password. This account uses OAuth authentication."))
    ensures r.Err? ==> r.error.ApiError? && r.error.status == 400
  {
    if a.password.None? then
      Err(ApiError(400, "Cannot change password. This account uses OAuth authentication."))
    else if !ComparePassword(oldPassword, pepper, a.password.value) then
      Err(ApiError(400, "Current password is incorrect"))
    else if ComparePassword(newPassword, pepper, a.password.value) then
      Err(ApiError(400, "New password must be different from current password"))
    else
      Ok(())
  }

  /**
   * For an account whose password is `current`, a change goes through
   * exactly when the old password given is `current` and the new one is
   * not; the three refusals come in the handler's order.
   */
  lemma PasswordChangeAccepts(a: Account, current: string, oldPassword: string, newPassword: string, pepper: string, salt: nat)
    requires a.password == Some(HashPassword(current, pepper, salt))
    ensures PasswordChangeCheck(a, oldPassword, newPassword, pepper).Ok? <==> oldPassword == current && newPassword != current
    ensures oldPassword != current ==>
      PasswordChangeCheck(a, oldPassword, newPassword, pepper) == Err(ApiError(400, "Current password is incorrect"))
    ensures oldPassword == current && newPassword == current ==>
      PasswordChangeCheck(a, oldPassword, newPassword, pepper) == Err(ApiError(400, "New password must be different from current password"))
  {
    CompareHashed(oldPassword, current, pepper, salt);
    CompareHashed(newPassword, current, pepper, salt);
  }

  /** `changePassword`'s edit: only the password hash changes. */
  function PasswordChanged(a: Account, hash: PasswordHash): (r: Account)
    ensures r.password == Some(hash)
    ensures SameExcept(a, r, {PasswordField})
  {
    a.(password := Some(hash))
  }

  /**
   * `changePassword`: reload the account, run the checks, store the new
   * hash and log the change.
   */
  method ChangePassword(db: Db, uid: UserId, oldPassword: string, newPassword: string, salt: nat, req: Request)
    returns (r: Result<(), Failure>)
    requires db.Valid()
    modifies db
    ensures db.Valid()
    ensures match FindOne(old(db.users), ById(uid))
      case None => r == Err(ApiError(404, "User not found")) && unchanged(db)
      case Some(i) =>
        var a := old(db.users)[i];
        match PasswordChangeCheck(a, oldPassword, newPassword, db.pepper)
        case Err(e) => r == Err(e) && unchanged(db)
        case Ok(_) =>
          && r == Ok(())
          && db.users == old(db.users)[i := PasswordChanged(a, HashPassword(newPassword, db.pepper, salt))]
          && db.activities == old(db.activities) + [SelfEntry(i, PasswordChange, req, NoMetadata)]
  {
    var found := FindOne(db.users, ById(uid));
    if found.None? {
      return Err(ApiError(404, "User not found"));
    }
    var i := found.value;
    var check := PasswordChangeCheck(db.users[i], oldPassword, newPassword, db.pepper);
    if check.Err? {
      return Err(check.error);
    }
    var a := PasswordChanged(db.users[i], HashPassword(newPassword, db.pepper, salt));
    SaveSucceeds(db.users, a);
    var saved := db.Save(a);
    db.Record(SelfEntry(i, PasswordChange, req, NoMetadata));
    return Ok(());
  }

  /** After a change the new password logs in and the old one is refused. */
  lemma ChangeThenLogin(a: Account, oldPassword: string, newPassword: string, pepper: string, salt: nat, now: int)
    requires PasswordChangeCheck(a, oldPassword, newPassword, pepper).Ok? && !IsLocked(a, now)
    ensures var b := PasswordChanged(a, HashPassword(newPassword, pepper, salt));
      && LoginCheck(b, newPassword, pepper, now) == PasswordOk
      && LoginCheck(b, oldPassword, pepper, now) == WrongPassword
  {
    assert oldPassword + pepper == a.password.value.peppered;
    CompareHashed(newPassword, newPassword, pepper, salt);
    CompareHashed(oldPassword, newPassword, pepper, salt);
  }

  /**
   * A password change leaves the account's refresh tokens in place: every
   * session opened with the old password can still be refreshed.
   */
  lemma ChangeKeepsSessions(users: seq<Account>, i: UserId, hash: PasswordHash, token: string)
    requires i < |users|
    ensures FindOne(users[i := PasswordChanged(users[i], hash)], ByRefreshHash(HashToken(token)))
         == FindOne(users, ByRefreshHash(HashToken(token)))
  {
    var after := users[i := PasswordChanged(users[i], hash)];
    assert Agree(users[i], after[i], RefreshTokensField) && Agree(users[i], after[i], DeletedField);
    FindOneSameSelection(users, after, ByRefreshHash(HashToken(token)));
  }

  // ---------------------------------------------------------------- delete account

  /** The soft delete: stamped with the deletion time and deactivated; the record itself stays. */
  function SoftDeleted(a: Account, now: int): (r: Account)
    ensures !Visible(r) && !r.isActive && r.deletedAt == Some(now)
    ensures SameExcept(a, r, {DeletedField, ActiveField})
  {
    a.(deletedAt := Some(now), isActive := false)
  }

  /** `deleteMyAccount`: reload the account, soft-delete it and log the deletion. */
  method DeleteMyAccount(db: Db, uid: UserId, req: Request, now: int) returns (r: Result<(), Failure>)
    requires db.Valid()
    modifies db
    ensures db.Valid()
    ensures match FindOne(old(db.users), ById(uid))
      case None => r == Err(ApiError(404, "User not found")) && unchanged(db)
      case Some(i) =>
        && r == Ok(())
        && db.users == old(db.users)[i := SoftDeleted(old(db.users)[i], now)]
        && db.activities == old(db.activities) + [SelfEntry(i, UserDeleted, req, NoMetadata)]
  {
    var found := FindOne(db.users, ById(uid));
    if found.None? {
      return Err(ApiError(404, "User not found"));
    }
    var i := found.value;
    var a := SoftDeleted(db.users[i], now);
    SaveSucceeds(db.users, a);
    var saved := db.Save(a);
    db.Record(SelfEntry(i, UserDeleted, req, NoMetadata));
    return Ok(());
  }

  /**
   * Deleting a live account frees its email: no live record holds it any
   * more, so a lookup by it finds nothing and a new registration with it is
   * accepted (`AuthController.ReRegisterAfterDelete`).
   */
  lemma DeleteFreesEmail(users: seq<Account>, i: UserId, now: int)
    requires StoreInvariant(users) && i < |users| && Visible(users[i])
    ensures var after := users[i := SoftDeleted(users[i], now)];
      && StoreInvariant(after)
      && (forall j :: 0 <= j < |after| && after[j].email == NormalizeEmail(users[i].email) ==> after[j].deletedAt.Some?)
      && FindOne(after, ByEmail(users[i].email)).None?
  {
    var after := users[i := SoftDeleted(users[i], now)];
    SaveSucceeds(users, SoftDeleted(users[i], now));
    NormalisedIsFixpoint(users[i]);
    forall j | 0 <= j < |after| && after[j].email == NormalizeEmail(users[i].email)
      ensures after[j].deletedAt.Some?
    {
      if j != i {
        assert after[j] == users[j];
      }
    }
  }

  /** A deleted account is gone for every lookup, the middleware's `findById` included. */
  lemma DeletedAccountUnreachable(users: seq<Account>, i: UserId, now: int, q: Query)
    requires StoreInvariant(users) && i < |users|
    ensures FindOne(users[i := SoftDeleted(users[i], now)], q) != Some(i)
    ensures FindOne(users[i := SoftDeleted(users[i], now)], ById(i)).None?
  {
    var after := users[i := SoftDeleted(users[i], now)];
    DeletedNeverFound(after, i, q);
    DeletedNeverFound(after, i, ById(i));
    assert forall j :: 0 <= j < |after| && j != i ==> after[j].id == j;
  }
}
