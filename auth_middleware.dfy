/**
 * The `authenticate` middleware: it reads a bearer token from the
 * `Authorization` header, verifies it, reloads the account named in its
 * payload without the password, and lets the request through only for a
 * live, active account.
 *
 * Verifying the token's signature and expiry is a parameter `verify`: it
 * maps the token text to its payload, or to nothing when the signature or
 * the expiry check fails.
 */
module AuthMiddleware {
  import opened Common
  import opened Text
  import opened Crypto
  import opened UserModel

  /** What the middleware does with a request: pass it on with the account attached, or answer it itself. */
  datatype Gate =
    | Proceed(user: Account)
      /** `challenge` is set when the answer carries `WWW-Authenticate: Bearer`. */
    | Reject(status: int, message: string, challenge: bool)

  const BearerPrefix: string := "Bearer "

  predicate StartsWithBearer(h: string)
  {
    |h| >= |BearerPrefix| && h[..|BearerPrefix|] == BearerPrefix
  }

  /**
   * `authHeader.split(" ")[1]`: the second space-separated field, which for
   * a header that starts with the prefix is everything after the prefix up
   * to the next space (empty when another space follows at once).
   */
  function BearerToken(h: string): (r: string)
    requires StartsWithBearer(h)
    ensures r == TakeUntil(h[|BearerPrefix|..], ' ')
    ensures ' ' !in r && r <= h[|BearerPrefix|..]
  {
    var rest := h[|BearerPrefix|..];
    assert h == "Bearer" + [' '] + rest;
    SplitAfterWord("Bearer", rest, ' ');
    SplitFirstField(rest, ' ');
    Split(h, ' ')[1]
  }

  /** The account a verified payload names, if it is live (`findById` skips deleted records). */
  function Holder(payload: AccessToken, users: seq<Account>): (r: Option<UserId>)
    ensures r.Some? ==> r.value < |users| && Visible(users[r.value]) && users[r.value].id == payload.userId
  {
    FindOne(users, ById(payload.userId))
  }

  /** `authenticate`: the three refusals, in order, and the account attached on success. */
  function Authenticate(header: Option<string>, verify: string -> Option<AccessToken>, users: seq<Account>): (r: Gate)
    ensures r.Reject? ==> r.status == 401
    ensures header.None? || !StartsWithBearer(header.value) ==> r == Reject(401, "Unauthorized", true)
    ensures r.Reject? && r.challenge <==> header.None? || !StartsWithBearer(header.value)
    ensures r.Reject? && r.message == "Invalid or expired token" <==>
      header.Some? && StartsWithBearer(header.value) && verify(BearerToken(header.value)).None?
    ensures r.Proceed? ==>
      && header.Some? && StartsWithBearer(header.value)
      && verify(BearerToken(header.value)).Some?
      && var payload := verify(BearerToken(header.value)).value;
      && Holder(payload, users).Some?
      && var i := Holder(payload, users).value;
      && users[i].isActive && r.user.id == payload.userId
      && r.user.password.None? && SameExcept(users[i], r.user, {PasswordField})
    ensures r.Reject? && r.message == "Account inactive" <==>
      && header.Some? && StartsWithBearer(header.value)
      && verify(BearerToken(header.value)).Some?
      && var payload := verify(BearerToken(header.value)).value;
      (Holder(payload, users).None? || !users[Holder(payload, users).value].isActive)
    ensures header.Some? && StartsWithBearer(header.value) && verify(BearerToken(header.value)).Some? ==>
      var payload := verify(BearerToken(header.value)).value;
      Holder(payload, users).Some? && users[Holder(payload, users).value].isActive ==>
        r == Proceed(WithoutPassword(users[Holder(payload, users).value]))
  {
    if header.None? || !StartsWithBearer(header.value) then
      Reject(401, "Unauthorized", true)
    else
      match verify(BearerToken(header.value))
      case None => Reject(401, "Invalid or expired token", false)
      case Some(payload) =>
        match Holder(payload, users)
        case None => Reject(401, "Account inactive", false)
        case Some(i) =>
          if !users[i].isActive then Reject(401, "Account inactive", false)
          else Proceed(WithoutPassword(users[i]))
  }

  /**
   * A bearer header carrying a space-free token hands the middleware exactly
   * that token, whatever further space-separated fields follow it.
   */
  lemma BearerTokenOf(token: string, trailer: string)
    requires ' ' !in token
    ensures StartsWithBearer(BearerPrefix + token)
    ensures BearerToken(BearerPrefix + token) == token
    ensures BearerToken(BearerPrefix + token + [' '] + trailer) == token
  {
    var h := BearerPrefix + token;
    assert h[|BearerPrefix|..] == token;
    var g := BearerPrefix + token + [' '] + trailer;
    assert g[|BearerPrefix|..] == token + [' '] + trailer;
    var s := token + [' '] + trailer;
    assert forall k :: 0 <= k < |token| ==> s[k] == token[k];
    assert s[|token|] == ' ';
    assert s[..|token|] == token;
  }

  /**
   * For a verifier that accepts what was signed, the token issued to account
   * `id` at login is admitted exactly while that account is live and active,
   * and the request then carries that account without its password.
   */
  lemma IssuedTokenAdmitted(users: seq<Account>, id: UserId, sign: AccessToken -> string, verify: string -> Option<AccessToken>)
    requires StoreInvariant(users)
    requires ' ' !in sign(Jwt(id)) && verify(sign(Jwt(id))) == Some(Jwt(id))
    ensures var g := Authenticate(Some(BearerPrefix + sign(Jwt(id))), verify, users);
      && (g.Proceed? <==> id < |users| && Visible(users[id]) && users[id].isActive)
      && (g.Proceed? ==> g.user == WithoutPassword(users[id]))
      && (g.Reject? ==> g == Reject(401, "Account inactive", false))
  {
    BearerTokenOf(sign(Jwt(id)), "");
    FindById(users, id);
  }

  /** A token that names a deleted or deactivated account is refused with "Account inactive". */
  lemma InactiveHolderRejected(header: string, verify: string -> Option<AccessToken>, users: seq<Account>, i: UserId)
    requires StoreInvariant(users) && i < |users|
    requires StartsWithBearer(header) && verify(BearerToken(header)) == Some(Jwt(i))
    requires !Visible(users[i]) || !users[i].isActive
    ensures Authenticate(Some(header), verify, users) == Reject(401, "Account inactive", false)
  {
    FindById(users, i);
  }
}
