/**
 * The admin handlers: paged listings of accounts and of the audit log, and
 * creating, editing, soft-deleting, blocking and unblocking any account.
 * Every audit entry they write names the acting admin and the target id,
 * and carries no address or device.
 *
 * The listings only read, so they are functions of the collections; the
 * query parameters arrive as what `parseInt` made of them (`None` for NaN).
 * Records are created in id order, so `sort({ createdAt: -1 })` lists them
 * from the highest id down.
 */
module AdminController {
  import opened Common
  import opened Text
  import opened Crypto
  import opened UserModel
  import opened ActivityModel
  import opened Store
  import opened AuthController
  import opened UserController
  import opened AuthMiddleware

  /** Page size of the account listing when none is given. */
  const UsersPageSize: int := 50
  /** Page size of the audit-log listing when none is given. */
  const LogsPageSize: int := 100

  // ---------------------------------------------------------------- pagination

  /** `parseInt(x) || fallback`: NaN and 0 are falsy and give the fallback; every other number is kept, negatives included. */
  function OrDefault(parsed: Option<int>, fallback: int): (r: int)
    ensures parsed.Some? && parsed.value != 0 ==> r == parsed.value
    ensures parsed.None? || parsed.value == 0 ==> r == fallback
    ensures fallback != 0 ==> r != 0
  {
    if parsed.Some? && parsed.value != 0 then parsed.value else fallback
  }

  function Abs(x: int): nat
  {
    if x < 0 then -x else x
  }

  /**
   * `Math.ceil(total / limit)`: the least whole number of pages of `limit`
   * records that hold `total` records (the division is exact on the
   * integers, so no floating-point rounding is modelled).
   */
  function PageCount(total: nat, limit: int): (r: int)
    requires limit != 0
    ensures limit > 0 ==> r * limit >= total && (r - 1) * limit < total
    ensures limit < 0 ==> r * limit <= total && (r - 1) * limit > total
  {
    if limit > 0 then
      var q := (total + limit - 1) / limit;
      var m := (total + limit - 1) % limit;
      assert total + limit - 1 == q * limit + m;
      assert (q - 1) * limit == q * limit - limit;
      q
    else
      var q := total / -limit;
      var m := total % -limit;
      assert total == q * -limit + m;
      assert (-q - 1) * limit == q * -limit - limit;
      -q
  }

  /**
   * `.skip(skip).limit(limit)`: the records from position `skip` on, at
   * most `|limit|` of them (the driver reads a negative limit as its
   * magnitude); the server refuses a negative skip.
   */
  function Window<T>(items: seq<T>, skip: int, limit: int): (r: Option<seq<T>>)
    requires limit != 0
    ensures r.Some? <==> skip >= 0
    ensures r.Some? ==> |r.value| <= Abs(limit)
    ensures r.Some? ==> |r.value| == if skip >= |items| then 0 else if |items| - skip < Abs(limit) then |items| - skip else Abs(limit)
    ensures r.Some? ==> forall k :: 0 <= k < |r.value| ==> r.value[k] == items[skip + k]
  {
    if skip < 0 then None
    else if skip >= |items| then Some([])
    else if |items| - skip < Abs(limit) then Some(items[skip..])
    else Some(items[skip..skip + Abs(limit)])
  }

  /** The `pagination` object of a listing. */
  datatype Pagination = Pagination(page: int, limit: int, total: nat, pages: int)

  datatype Page<T> = Page(data: seq<T>, pagination: Pagination)

  /** The number of items a page skips: `(page - 1) * limit`. */
  function Skip(p: Pagination): int
  {
    (p.page - 1) * p.limit
  }

  /**
   * A paged listing: page and limit from the query (with their defaults),
   * `skip = (page - 1) * limit`, the window of `items`, and the page count
   * of `total`.
   */
  function Paged<T>(items: seq<T>, total: nat, page: Option<int>, limit: Option<int>, defaultLimit: int): (r: Result<Page<T>, DbError>)
    requires defaultLimit > 0
    ensures var p := OrDefault(page, 1); var l := OrDefault(limit, defaultLimit);
      && (r.Ok? <==> (p - 1) * l >= 0)
      && (r.Err? ==> r.error == NegativeSkip)
      && (r.Ok? ==> r.value.pagination == Pagination(p, l, total, PageCount(total, l)))
      && (r.Ok? ==> |r.value.data| <= Abs(l))
      && (r.Ok? ==> 0 <= Skip(r.value.pagination) && (r.value.data != [] ==> Skip(r.value.pagination) + |r.value.data| <= |items|))
      && (r.Ok? ==> forall k :: 0 <= k < |r.value.data| ==> r.value.data[k] == items[Skip(r.value.pagination) + k])
  {
    var p := OrDefault(page, 1);
    var l := OrDefault(limit, defaultLimit);
    match Window(items, (p - 1) * l, l)
    case None => Err(NegativeSkip)
    case Some(data) =>
      var pagination := Pagination(p, l, total, PageCount(total, l));
      assert Skip(pagination) == (p - 1) * l;
      Ok(Page(data, pagination))
  }

  /**
   * The accounts `User.find(query).select("-password").sort({ createdAt: -1 })`
   * returns: the live records `keep` accepts, newest first, without their
   * password hashes. `keep` stands for the `$or` of the two case-insensitive
   * regular expressions built from `search`, and accepts everything when
   * `search` is empty.
   */
  function NewestFirst(users: seq<Account>, keep: Account -> bool): (r: seq<Account>)
    requires forall i :: 0 <= i < |users| ==> users[i].id == i
    ensures |r| <= |users|
    ensures forall k :: 0 <= k < |r| ==> r[k].id < |users| && r[k] == WithoutPassword(users[r[k].id])
    ensures forall k :: 0 <= k < |r| ==> Visible(users[r[k].id]) && keep(users[r[k].id])
  {
    if users == [] then []
    else
      var last := users[|users| - 1];
      var rest := NewestFirst(users[..|users| - 1], keep);
      if Visible(last) && keep(last) then [WithoutPassword(last)] + rest else rest
  }

  /** Ids strictly decrease along `r`: since ids are creation order, newest first. */
  predicate IdsDecreasing(r: seq<Account>)
  {
    forall k, l :: 0 <= k < l < |r| ==> r[k].id > r[l].id
  }

  /** The listing is newest first. */
  lemma {:induction false} NewestFirstOrdered(users: seq<Account>, keep: Account -> bool)
    requires forall i :: 0 <= i < |users| ==> users[i].id == i
    ensures IdsDecreasing(NewestFirst(users, keep))
  {
    if users != [] {
      var front := users[..|users| - 1];
      NewestFirstOrdered(front, keep);
      var rest := NewestFirst(front, keep);
      assert forall k :: 0 <= k < |rest| ==> rest[k].id < |front|;
      var last := users[|users| - 1];
      if Visible(last) && keep(last) {
        var r := [WithoutPassword(last)] + rest;
        assert r[0].id == |front|;
        assert NewestFirst(users, keep) == r;
        assert forall k :: 1 <= k < |r| ==> r[k] == rest[k - 1];
      } else {
        assert NewestFirst(users, keep) == rest;
      }
    }
  }

  /** The listing misses no live record the search accepts. */
  lemma {:induction false} NewestFirstComplete(users: seq<Account>, keep: Account -> bool)
    requires forall i :: 0 <= i < |users| ==> users[i].id == i
    ensures forall j :: 0 <= j < |users| && Visible(users[j]) && keep(users[j]) ==> WithoutPassword(users[j]) in NewestFirst(users, keep)
  {
    if users != [] {
      var front := users[..|users| - 1];
      NewestFirstComplete(front, keep);
      forall j | 0 <= j < |front| && Visible(users[j]) && keep(users[j])
        ensures WithoutPassword(users[j]) in NewestFirst(front, keep)
      {
        assert front[j] == users[j];
      }
    }
  }

  /** `User.countDocuments(query)`: the pre-find hook does not apply to it, so soft-deleted records are counted too. */
  function CountKept(users: seq<Account>, keep: Account -> bool): (n: nat)
    ensures n <= |users|
  {
    if users == [] then 0
    else CountKept(users[..|users| - 1], keep) + (if keep(users[|users| - 1]) then 1 else 0)
  }

  /** The soft-deleted records the search accepts. */
  function CountDeletedKept(users: seq<Account>, keep: Account -> bool): (n: nat)
    ensures n <= |users|
  {
    if users == [] then 0
    else CountDeletedKept(users[..|users| - 1], keep) + (if keep(users[|users| - 1]) && !Visible(users[|users| - 1]) then 1 else 0)
  }

  /**
   * The reported total is the number of accounts listed plus the
   * soft-deleted ones the search matches: it over-counts exactly by the
   * deleted records, and so can announce pages that come back empty.
   */
  lemma {:induction false} TotalCountsDeleted(users: seq<Account>, keep: Account -> bool)
    requires forall i :: 0 <= i < |users| ==> users[i].id == i
    ensures CountKept(users, keep) == |NewestFirst(users, keep)| + CountDeletedKept(users, keep)
  {
    if users != [] {
      TotalCountsDeleted(users[..|users| - 1], keep);
    }
  }

  /** `getUsers`. */
  function GetUsers(users: seq<Account>, page: Option<int>, limit: Option<int>, keep: Account -> bool)
    : (r: Result<Page<Account>, DbError>)
    requires StoreInvariant(users)
    ensures r.Ok? ==> r.value.pagination.total == CountKept(users, keep)
    ensures r.Ok? ==> forall k :: 0 <= k < |r.value.data| ==>
      r.value.data[k].id < |users| && r.value.data[k] == WithoutPassword(users[r.value.data[k].id])
      && Visible(users[r.value.data[k].id]) && keep(users[r.value.data[k].id]) && r.value.data[k].password.None?
    ensures r.Ok? ==> (&& 0 <= Skip(r.value.pagination)
      && (r.value.data != [] ==> Skip(r.value.pagination) + |r.value.data| <= |NewestFirst(users, keep)|))
    ensures r.Ok? ==> forall k :: 0 <= k < |r.value.data| ==> r.value.data[k] == NewestFirst(users, keep)[Skip(r.value.pagination) + k]
  {
    Paged(NewestFirst(users, keep), CountKept(users, keep), page, limit, UsersPageSize)
  }

  /**
   * Position `k` of a listing of `listed <= total` entries lies on page
   * `k / limit + 1`, at offset `k % limit`, and that page is within the
   * page count of `total`.
   */
  lemma PageOfPosition(total: nat, listed: nat, limit: int, k: nat)
    requires limit > 0 && listed <= total && k < listed
    ensures var page := k / limit + 1;
      && 1 <= page <= PageCount(total, limit)
      && (page - 1) * limit + k % limit == k
      && 0 <= (page - 1) * limit
  {
    var page := k / limit + 1;
    assert k == (page - 1) * limit + k % limit;
    var pages := PageCount(total, limit);
    assert (pages - (page - 1)) * limit == pages * limit - (page - 1) * limit > 0;
  }

  /**
   * Walking the pages of a listing meets every listed account: the
   * account at position `k` of the listing is entry `k % limit` of page
   * `k / limit + 1`, and that page is within the reported page count.
   */
  lemma EveryListedUserOnSomePage(users: seq<Account>, keep: Account -> bool, limit: int, k: nat)
    requires StoreInvariant(users) && limit > 0 && k < |NewestFirst(users, keep)|
    ensures var page := k / limit + 1;
      var r := GetUsers(users, Some(page), Some(limit), keep);
      && r.Ok? && 1 <= page <= r.value.pagination.pages
      && k % limit < |r.value.data| && r.value.data[k % limit] == NewestFirst(users, keep)[k]
  {
    var listed := NewestFirst(users, keep);
    TotalCountsDeleted(users, keep);
    PageOfPosition(CountKept(users, keep), |listed|, limit, k);
    var page := k / limit + 1;
    var skip := (page - 1) * limit;
    var w := Window(listed, skip, limit);
    assert w.Some? && |w.value| > k % limit;
    assert w.value[k % limit] == listed[k];
    var total := CountKept(users, keep);
    assert GetUsers(users, Some(page), Some(limit), keep)
        == Ok(Page(w.value, Pagination(page, limit, total, PageCount(total, limit))));
  }

  /** `getActivityLogs`: all entries, newest first, with a default page size of 100. */
  function GetActivityLogs(logs: seq<Activity>, page: Option<int>, limit: Option<int>): (r: Result<Page<Activity>, DbError>)
    ensures r.Ok? ==> r.value.pagination.total == |logs|
    ensures r.Ok? ==> 0 <= Skip(r.value.pagination) && (r.value.data != [] ==> Skip(r.value.pagination) + |r.value.data| <= |logs|)
    ensures r.Ok? ==> forall k :: 0 <= k < |r.value.data| ==> r.value.data[k] == logs[|logs| - 1 - (Skip(r.value.pagination) + k)]
  {
    Paged(Reversed(logs), |logs|, page, limit, LogsPageSize)
  }

  function Reversed<T>(s: seq<T>): (r: seq<T>)
    ensures |r| == |s|
    ensures forall k :: 0 <= k < |s| ==> r[k] == s[|s| - 1 - k]
  {
    if s == [] then [] else [s[|s| - 1]] + Reversed(s[..|s| - 1])
  }

  /** The default listing is the first page of each: 50 accounts, 100 log entries. */
  lemma DefaultPages(users: seq<Account>, logs: seq<Activity>, keep: Account -> bool)
    requires StoreInvariant(users)
    ensures var r := GetUsers(users, None, None, keep);
      r.Ok? && r.value.pagination.page == 1 && r.value.pagination.limit == 50
      && r.value.data == NewestFirst(users, keep)[..|r.value.data|]
    ensures var r := GetActivityLogs(logs, None, None);
      r.Ok? && r.value.pagination.page == 1 && r.value.pagination.limit == 100
      && |r.value.data| == (if |logs| < 100 then |logs| else 100)
  {
  }

  // ---------------------------------------------------------------- get user

  /** `getUserById`: the live account with that id, without its password hash. */
  function GetUserById(users: seq<Account>, id: UserId): (r: Result<Account, Failure>)
    requires StoreInvariant(users)
    ensures r.Ok? <==> id < |users| && Visible(users[id])
    ensures r.Ok? ==> r.value == WithoutPassword(users[id]) && r.value.password.None?
    ensures r.Err? ==> r.error == ApiError(404, "User not found")
  {
    FindById(users, id);
    match FindOne(users, ById(id))
    case None => Err(ApiError(404, "User not found"))
    case Some(i) => Ok(WithoutPassword(users[i]))
  }

  // ---------------------------------------------------------------- create user

  /**
   * The document an admin's `createUser` builds: the schema defaults with
   * the given name, email and role, and a password hash only when a
   * password was given.
   */
  function AdminCreated(id: UserId, fullName: string, email: string, hash: Option<PasswordHash>, role: Role): (a: Account)
    ensures a.id == id && a.fullName == Trim(fullName) && a.email == NormalizeEmail(email)
    ensures a.password == hash && a.role == role
    ensures Normalised(a) && Visible(a) && a.isActive && !a.isEmailVerified && a.loginAttempts == 0
    ensures a.oauthProviders == [] && a.refreshTokens == [] && a.lockUntil.None?
  {
    NewAccountNormalised(id, fullName, email);
    NewAccount(id, fullName, email).(password := hash, role := role)
  }

  /** The role a request asks for: absent means the schema default; an unknown name fails the `enum` validator. */
  function RequestedRole(role: Option<string>): (r: Result<Role, DbError>)
    ensures role.None? ==> r == Ok(User)
    ensures role.Some? ==> (r.Ok? <==> ParseRole(role.value).Some?)
    ensures r.Ok? && role.Some? ==> RoleName(r.value) == role.value
    ensures r.Err? ==> r.error == ValidationError
  {
    if role.None? then Ok(User)
    else match ParseRole(role.value)
      case None => Err(ValidationError)
      case Some(x) => Ok(x)
  }

  /** `password ? hashPassword(password) : undefined`. */
  function OptionalHash(password: Option<string>, pepper: string, salt: nat): (r: Option<PasswordHash>)
    ensures r.Some? <==> Truthy(password)
    ensures r.Some? ==> forall p :: ComparePassword(p, pepper, r.value) <==> p == password.value
  {
    if Truthy(password) then
      var h := HashPassword(password.value, pepper, salt);
      assert forall p :: ComparePassword(p, pepper, h) <==> p == password.value by {
        forall p ensures ComparePassword(p, pepper, h) <==> p == password.value {
          CompareHashed(p, password.value, pepper, salt);
        }
      }
      Some(h)
    else None
  }

  /**
   * `createUser`: refused with 400 when a live account holds the email;
   * otherwise the account is created and the creation logged under the
   * admin's id. The answer is the stored document, password hash included.
   */
  method CreateUser(db: Db, adminId: UserId, fullName: string, email: string, password: Option<string>,
                    role: Option<string>, salt: nat)
    returns (r: Result<Account, Failure>)
    requires db.Valid()
    modifies db
    ensures db.Valid()
    ensures FindOne(old(db.users), ByEmail(email)).Some? ==>
      r == Err(ApiError(400, "Email already exists")) && unchanged(db)
    ensures FindOne(old(db.users), ByEmail(email)).None? ==>
      match RequestedRole(role)
      case Err(e) => r == Err(StoreRejected(e)) && unchanged(db)
      case Ok(parsed) =>
        var doc := AdminCreated(|old(db.users)|, fullName, email, OptionalHash(password, db.pepper, salt), parsed);
        match Put(old(db.users), doc)
        case Err(e) => r == Err(StoreRejected(e)) && unchanged(db)
        case Ok(after) =>
          && db.users == after
          && db.activities == old(db.activities) + [AdminEntry(adminId, UserCreated, CreatedUserId(doc.id))]
          && r == Ok(doc)
  {
    var existing := FindOne(db.users, ByEmail(email));
    if existing.Some? {
      return Err(ApiError(400, "Email already exists"));
    }
    var parsed := RequestedRole(role);
    if parsed.Err? {
      return Err(StoreRejected(parsed.error));
    }
    var doc := AdminCreated(|db.users|, fullName, email, OptionalHash(password, db.pepper, salt), parsed.value);
    var created := db.Create(doc);
    if created.Err? {
      return Err(StoreRejected(created.error));
    }
    db.Record(AdminEntry(adminId, UserCreated, CreatedUserId(doc.id)));
    return Ok(doc);
  }

  /**
   * A created account logs in with the password it was given; one created
   * without a password cannot log in with any.
   */
  lemma CreatedUserLogin(id: UserId, fullName: string, email: string, password: Option<string>, role: Role,
                         attempt: string, pepper: string, salt: nat, now: int)
    ensures var a := AdminCreated(id, fullName, email, OptionalHash(password, pepper, salt), role);
      && (Truthy(password) ==> (LoginCheck(a, attempt, pepper, now) == PasswordOk <==> attempt == password.value))
      && (!Truthy(password) ==> LoginCheck(a, attempt, pepper, now) == NoCredentials)
  {
  }

  // ---------------------------------------------------------------- update user

  /**
   * `updateUser`'s edit: each field present in the body is assigned through
   * its setter, the password only when it is truthy; a role outside the
   * enum fails validation.
   */
  function AdminEdited(a: Account, edit: UserEdit, pepper: string, salt: nat): (r: Result<Account, DbError>)
    requires Normalised(a)
    ensures r.Err? <==> edit.role.Some? && ParseRole(edit.role.value).None?
    ensures r.Err? ==> r.error == ValidationError
    ensures r.Ok? ==> (&& Normalised(r.value)
      && r.value.fullName == (if edit.fullName.Some? then Trim(edit.fullName.value) else a.fullName)
      && r.value.email == (if edit.email.Some? then NormalizeEmail(edit.email.value) else a.email)
      && (edit.role.Some? ==> RoleName(r.value.role) == edit.role.value)
      && (edit.role.None? ==> r.value.role == a.role)
      && r.value.password == (if Truthy(edit.password) then OptionalHash(edit.password, pepper, salt) else a.password)
      && SameExcept(a, r.value, {FullNameField, EmailField, RoleField, PasswordField}))
  {
    match RequestedRole(edit.role)
    case Err(e) => Err(e)
    case Ok(role) =>
      var b := a.(
        fullName := if edit.fullName.Some? then Trim(edit.fullName.value) else a.fullName,
        email := if edit.email.Some? then NormalizeEmail(edit.email.value) else a.email,
        role := if edit.role.Some? then role else a.role,
        password := if Truthy(edit.password) then OptionalHash(edit.password, pepper, salt) else a.password);
      Ok(b)
  }

  /** `bio` and `isActive` in the body change nothing: the handler never reads them. */
  lemma AdminEditIgnoresBioAndStatus(a: Account, edit: UserEdit, pepper: string, salt: nat)
    requires Normalised(a)
    ensures AdminEdited(a, edit, pepper, salt) == AdminEdited(a, edit.(bio := None, isActive := None), pepper, salt)
    ensures AdminEdited(a, edit, pepper, salt).Ok? ==>
      AdminEdited(a, edit, pepper, salt).value.bio == a.bio && AdminEdited(a, edit, pepper, salt).value.isActive == a.isActive
  {
  }

  /**
   * An edit that moves an account onto an email another live account holds
   * is refused by the unique index.
   */
  lemma EditOntoTakenEmail(users: seq<Account>, i: UserId, j: UserId, edit: UserEdit, pepper: string, salt: nat)
    requires StoreInvariant(users) && i < |users| && j < |users| && i != j
    requires Visible(users[i]) && Visible(users[j])
    requires edit.email.Some? && NormalizeEmail(edit.email.value) == users[j].email
    requires AdminEdited(users[i], edit, pepper, salt).Ok?
    requires RequiredPresent(AdminEdited(users[i], edit, pepper, salt).value)
    ensures Put(users, AdminEdited(users[i], edit, pepper, salt).value) == Err(DuplicateKey)
  {
    var b := AdminEdited(users[i], edit, pepper, salt).value;
    assert Agree(users[i], b, DeletedField);
    var after := Placed(users, b);
    assert after[i] == b && after[j] == users[j];
    assert !UniqueActiveEmails(after);
  }

  /**
   * `updateUser`: the live account with that id is edited and saved, and
   * the edit logged with the request body. The answer is the saved
   * document, password hash included.
   */
  method UpdateUser(db: Db, adminId: UserId, id: UserId, edit: UserEdit, salt: nat)
    returns (r: Result<Account, Failure>)
    requires db.Valid()
    modifies db
    ensures db.Valid()
    ensures match FindOne(old(db.users), ById(id))
      case None => r == Err(ApiError(404, "User not found")) && unchanged(db)
      case Some(i) =>
        match AdminEdited(old(db.users)[i], edit, db.pepper, salt)
        case Err(e) => r == Err(StoreRejected(e)) && unchanged(db)
        case Ok(b) =>
          match Put(old(db.users), b)
          case Err(e) => r == Err(StoreRejected(e)) && unchanged(db)
          case Ok(after) =>
            && db.users == after
            && db.activities == old(db.activities) + [AdminEntry(adminId, UserUpdated, UpdatedUserId(i, edit))]
            && r == Ok(b)
  {
    var found := FindOne(db.users, ById(id));
    if found.None? {
      return Err(ApiError(404, "User not found"));
    }
    var i := found.value;
    var edited := AdminEdited(db.users[i], edit, db.pepper, salt);
    if edited.Err? {
      return Err(StoreRejected(edited.error));
    }
    var saved := db.Save(edited.value);
    if saved.Err? {
      return Err(StoreRejected(saved.error));
    }
    db.Record(AdminEntry(adminId, UserUpdated, UpdatedUserId(i, edit)));
    return Ok(edited.value);
  }

  // ---------------------------------------------------------------- delete, block, unblock

  /** `deleteUser`: the same soft delete as `deleteMyAccount`, logged under the admin's id. */
  method DeleteUser(db: Db, adminId: UserId, id: UserId, now: int) returns (r: Result<(), Failure>)
    requires db.Valid()
    modifies db
    ensures db.Valid()
    ensures match FindOne(old(db.users), ById(id))
      case None => r == Err(ApiError(404, "User not found")) && unchanged(db)
      case Some(i) =>
        && r == Ok(())
        && db.users == old(db.users)[i := SoftDeleted(old(db.users)[i], now)]
        && db.activities == old(db.activities) + [AdminEntry(adminId, UserDeleted, DeletedUserId(i))]
  {
    var found := FindOne(db.users, ById(id));
    if found.None? {
      return Err(ApiError(404, "User not found"));
    }
    var i := found.value;
    var a := SoftDeleted(db.users[i], now);
    SaveSucceeds(db.users, a);
    var saved := db.Save(a);
    db.Record(AdminEntry(adminId, UserDeleted, DeletedUserId(i)));
    return Ok(());
  }

  /** `blockUser`'s edit: deactivation only; the lockout counter and lock stay as they were. */
  function Blocked(a: Account): (r: Account)
    ensures !r.isActive && Visible(r) == Visible(a)
    ensures SameExcept(a, r, {ActiveField})
  {
    a.(isActive := false)
  }

  method BlockUser(db: Db, adminId: UserId, id: UserId) returns (r: Result<(), Failure>)
    requires db.Valid()
    modifies db
    ensures db.Valid()
    ensures match FindOne(old(db.users), ById(id))
      case None => r == Err(ApiError(404, "User not found")) && unchanged(db)
      case Some(i) =>
        && r == Ok(())
        && db.users == old(db.users)[i := Blocked(old(db.users)[i])]
        && db.activities == old(db.activities) + [AdminEntry(adminId, AccountBlocked, BlockedUserId(i))]
  {
    var found := FindOne(db.users, ById(id));
    if found.None? {
      return Err(ApiError(404, "User not found"));
    }
    var i := found.value;
    var a := Blocked(db.users[i]);
    SaveSucceeds(db.users, a);
    var saved := db.Save(a);
    db.Record(AdminEntry(adminId, AccountBlocked, BlockedUserId(i)));
    return Ok(());
  }

  /**
   * Blocking does not reach the password login or the sessions: a blocked
   * account gets the same login verdict as before, and each of its refresh
   * tokens still finds it.
   */
  lemma BlockLeavesLoginAndSessions(users: seq<Account>, i: UserId, password: string, pepper: string, now: int, token: string)
    requires i < |users|
    ensures LoginCheck(Blocked(users[i]), password, pepper, now) == LoginCheck(users[i], password, pepper, now)
    ensures FindOne(users[i := Blocked(users[i])], ByRefreshHash(HashToken(token))) == FindOne(users, ByRefreshHash(HashToken(token)))
  {
    LoginIgnoresStatus(users[i], password, pepper, now, false, users[i].isEmailVerified);
    var after := users[i := Blocked(users[i])];
    assert Agree(users[i], after[i], RefreshTokensField) && Agree(users[i], after[i], DeletedField);
    FindOneSameSelection(users, after, ByRefreshHash(HashToken(token)));
  }

  /**
   * What blocking does take away: every access token of the account, however
   * fresh, is refused by `authenticate` from then on (and so are those of an
   * account an admin deletes).
   */
  lemma BlockedTokensRejected(users: seq<Account>, i: UserId, now: int, header: string, verify: string -> Option<AccessToken>)
    requires StoreInvariant(users) && i < |users|
    requires StartsWithBearer(header) && verify(BearerToken(header)) == Some(Jwt(i))
    ensures Authenticate(Some(header), verify, users[i := Blocked(users[i])]) == Reject(401, "Account inactive", false)
    ensures Authenticate(Some(header), verify, users[i := SoftDeleted(users[i], now)]) == Reject(401, "Account inactive", false)
  {
    SaveSucceeds(users, Blocked(users[i]));
    InactiveHolderRejected(header, verify, users[i := Blocked(users[i])], i);
    SaveSucceeds(users, SoftDeleted(users[i], now));
    InactiveHolderRejected(header, verify, users[i := SoftDeleted(users[i], now)], i);
  }

  /** `unblockUser`'s edit: reactivated, with the lockout counter and lock cleared. */
  function Unblocked(a: Account): (r: Account)
    ensures r.isActive && r.loginAttempts == 0 && r.lockUntil.None?
    ensures forall now :: !IsLocked(r, now)
    ensures SameExcept(a, r, {ActiveField, AttemptsField, LockField})
  {
    a.(isActive := true, lockUntil := None, loginAttempts := 0)
  }

  method UnblockUser(db: Db, adminId: UserId, id: UserId) returns (r: Result<(), Failure>)
    requires db.Valid()
    modifies db
    ensures db.Valid()
    ensures match FindOne(old(db.users), ById(id))
      case None => r == Err(ApiError(404, "User not found")) && unchanged(db)
      case Some(i) =>
        && r == Ok(())
        && db.users == old(db.users)[i := Unblocked(old(db.users)[i])]
        && db.activities == old(db.activities) + [AdminEntry(adminId, AccountUnblocked, UnblockedUserId(i))]
  {
    var found := FindOne(db.users, ById(id));
    if found.None? {
      return Err(ApiError(404, "User not found"));
    }
    var i := found.value;
    var a := Unblocked(db.users[i]);
    SaveSucceeds(db.users, a);
    var saved := db.Save(a);
    db.Record(AdminEntry(adminId, AccountUnblocked, UnblockedUserId(i)));
    return Ok(());
  }

  /**
   * Unblocking lifts a lockout at once: the right password logs in and a
   * wrong one counts as the first failure of a fresh series.
   */
  lemma UnblockLiftsLockout(a: Account, password: string, pepper: string, now: int)
    requires a.password.Some?
    ensures var b := Unblocked(a);
      && LoginCheck(b, password, pepper, now) != Locked
      && (LoginCheck(b, password, pepper, now) == PasswordOk <==> ComparePassword(password, pepper, a.password.value))
      && (LoginCheck(b, password, pepper, now) == WrongPassword ==>
            FailedLogin(b, now).loginAttempts == 1 && !IsLocked(FailedLogin(b, now), now))
  {
  }

  /** Unblocking a live account lets the tokens issued to it through again. */
  lemma UnblockReadmits(users: seq<Account>, i: UserId, sign: AccessToken -> string, verify: string -> Option<AccessToken>)
    requires StoreInvariant(users) && i < |users| && Visible(users[i])
    requires ' ' !in sign(Jwt(i)) && verify(sign(Jwt(i))) == Some(Jwt(i))
    ensures Authenticate(Some(BearerPrefix + sign(Jwt(i))), verify, users[i := Unblocked(users[i])])
         == Proceed(WithoutPassword(Unblocked(users[i])))
  {
    SaveSucceeds(users, Unblocked(users[i]));
    IssuedTokenAdmitted(users[i := Unblocked(users[i])], i, sign, verify);
  }
}
