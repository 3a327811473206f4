/**
 * The `Activity` audit document: an append-only record of who did what,
 * from where. The action is a closed set of names.
 */
module ActivityModel {
  import opened Common

  datatype Action =
    | LoginSuccess | LoginFailed | Logout | PasswordChange | PasswordReset
    | EmailVerified | AccountBlocked | AccountUnblocked
    | UserCreated | UserUpdated | UserDeleted

  function ActionName(a: Action): string
  {
    match a
    case LoginSuccess => "LOGIN_SUCCESS"
    case LoginFailed => "LOGIN_FAILED"
    case Logout => "LOGOUT"
    case PasswordChange => "PASSWORD_CHANGE"
    case PasswordReset => "PASSWORD_RESET"
    case EmailVerified => "EMAIL_VERIFIED"
    case AccountBlocked => "ACCOUNT_BLOCKED"
    case AccountUnblocked => "ACCOUNT_UNBLOCKED"
    case UserCreated => "USER_CREATED"
    case UserUpdated => "USER_UPDATED"
    case UserDeleted => "USER_DELETED"
  }

  /** The `enum` validator of `action`: a string is stored only if it names one of the eleven actions. */
  function ParseAction(s: string): (r: Option<Action>)
    ensures r.Some? ==> ActionName(r.value) == s
    ensures r.None? ==> forall a: Action :: ActionName(a) != s
  {
    if s == "LOGIN_SUCCESS" then Some(LoginSuccess)
    else if s == "LOGIN_FAILED" then Some(LoginFailed)
    else if s == "LOGOUT" then Some(Logout)
    else if s == "PASSWORD_CHANGE" then Some(PasswordChange)
    else if s == "PASSWORD_RESET" then Some(PasswordReset)
    else if s == "EMAIL_VERIFIED" then Some(EmailVerified)
    else if s == "ACCOUNT_BLOCKED" then Some(AccountBlocked)
    else if s == "ACCOUNT_UNBLOCKED" then Some(AccountUnblocked)
    else if s == "USER_CREATED" then Some(UserCreated)
    else if s == "USER_UPDATED" then Some(UserUpdated)
    else if s == "USER_DELETED" then Some(UserDeleted)
    else None
  }

  /** Every action name parses back to its action, so the names are pairwise distinct. */
  lemma ActionNameRoundTrip(a: Action)
    ensures ParseAction(ActionName(a)) == Some(a)
  {
  }

  /** The `metadata` the handlers attach. */
  datatype Metadata =
    | NoMetadata
    | OAuthMethod(provider: string)          // { provider, method: 'oauth' }
    | ProfileFields(fullName: Option<string>, bio: Option<Option<string>>)   // { updatedFields: req.body }
    | CreatedUserId(created: nat)
    | UpdatedUserId(updated: nat, fields: UserEdit)     // { updatedUserId, updatedFields: req.body }
    | DeletedUserId(deleted: nat)
    | BlockedUserId(blocked: nat)
    | UnblockedUserId(unblocked: nat)

  /**
   * The body of an admin's `updateUser` request: each field present or
   * absent, as sent. The handler reads the first four; `bio` (which may be
   * sent as null) and `isActive` are the other keys the route's validator
   * allows, and they reach only the audit entry.
   */
  datatype UserEdit = UserEdit(
    fullName: Option<string>,
    email: Option<string>,
    role: Option<string>,
    password: Option<string>,
    bio: Option<Option<string>>,
    isActive: Option<bool>)

  datatype Activity = Activity(
    userId: Option<nat>,
    action: Action,
    ipAddress: Option<string>,
    device: Option<string>,
    metadata: Metadata)

  /** The parts of a request a handler copies into the audit log and into refresh entries. */
  datatype Request = Request(ip: Option<string>, userAgent: Option<string>)

  /** An entry written by a handler on behalf of the account itself. */
  function SelfEntry(id: nat, action: Action, req: Request, metadata: Metadata): (e: Activity)
  {
    Activity(Some(id), action, req.ip, req.userAgent, metadata)
  }

  /** An entry written by an admin handler: the actor is the admin, and no address or device is recorded. */
  function AdminEntry(adminId: nat, action: Action, metadata: Metadata): (e: Activity)
  {
    Activity(Some(adminId), action, None, None, metadata)
  }
}
