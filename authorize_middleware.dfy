/**
 * The `authorize(...roles)` middleware: it lets a request through when the
 * attached account's role is one of the roles the route names, and answers
 * 403 otherwise. The admin routes run it after `authenticate` with the one
 * role "admin".
 */
module AuthorizeMiddleware {
  import opened Common
  import opened Crypto
  import opened UserModel
  import opened AuthMiddleware

  datatype Verdict = Allow | Forbidden(status: int, message: string)

  /** `allowedRoles.includes(request.user.role)`, compared by the role's stored name. */
  function Authorize(allowed: seq<string>, user: Account): (r: Verdict)
    ensures r == Allow <==> exists k :: 0 <= k < |allowed| && allowed[k] == RoleName(user.role)
    ensures r.Forbidden? ==> r == Forbidden(403, "Forbidden")
  {
    if RoleName(user.role) in allowed then Allow else Forbidden(403, "Forbidden")
  }

  /** A route that names no role forbids everyone. */
  lemma NoRolesForbidsAll(user: Account)
    ensures Authorize([], user) == Forbidden(403, "Forbidden")
  {
  }

  /** Naming more roles never takes access away. */
  lemma AuthorizeMonotone(allowed: seq<string>, more: seq<string>, user: Account)
    requires forall s :: s in allowed ==> s in more
    ensures Authorize(allowed, user) == Allow ==> Authorize(more, user) == Allow
  {
  }

  /** A name that is not a role, such as "Admin" with a capital, admits nobody. */
  lemma UnknownRoleNamesAdmitNobody(allowed: seq<string>, user: Account)
    requires forall s :: s in allowed ==> ParseRole(s).None?
    ensures Authorize(allowed, user) == Forbidden(403, "Forbidden")
  {
  }

  /** What the admin router's middleware chain does: `authenticate` first, then `authorize("admin")`. */
  function AdminGate(header: Option<string>, verify: string -> Option<AccessToken>, users: seq<Account>): (r: Gate)
    ensures r.Proceed? ==> r.user.role == Admin && r.user.isActive && r.user.password.None?
    ensures Authenticate(header, verify, users).Reject? ==> r == Authenticate(header, verify, users)
    ensures r.Reject? && r.status == 403 <==>
      Authenticate(header, verify, users).Proceed? && Authenticate(header, verify, users).user.role != Admin
    ensures Authenticate(header, verify, users).Proceed? && Authenticate(header, verify, users).user.role == Admin ==>
      r == Authenticate(header, verify, users)
    ensures r.Reject? && r.status == 403 ==> r == Reject(403, "Forbidden", false)
  {
    match Authenticate(header, verify, users)
    case Reject(status, message, challenge) => Reject(status, message, challenge)
    case Proceed(user) =>
      match Authorize(["admin"], user)
      case Allow => Proceed(user)
      case Forbidden(status, message) => Reject(status, message, false)
  }

  /**
   * The admin routes admit a signed-in account exactly when it is a live,
   * active administrator; an ordinary user holding a valid token is refused
   * with 403 and every other refusal is 401.
   */
  lemma AdminRoutesAdmit(users: seq<Account>, id: UserId, sign: AccessToken -> string, verify: string -> Option<AccessToken>)
    requires StoreInvariant(users)
    requires ' ' !in sign(Jwt(id)) && verify(sign(Jwt(id))) == Some(Jwt(id))
    ensures var g := AdminGate(Some(BearerPrefix + sign(Jwt(id))), verify, users);
      && (g.Proceed? <==> id < |users| && Visible(users[id]) && users[id].isActive && users[id].role == Admin)
      && (g == Reject(403, "Forbidden", false) <==> id < |users| && Visible(users[id]) && users[id].isActive && users[id].role == User)
  {
    IssuedTokenAdmitted(users, id, sign, verify);
  }
}
