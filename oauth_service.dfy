/**
 * The pure parts of the OAuth service: the provider configuration check,
 * the dispatch of an exchange to a provider, the CSRF state comparison, the
 * display names, and the rules that turn a provider's user-info response into
 * the profile the login handler consumes (GitHub's email choice and the name
 * fallbacks). The HTTP calls themselves are not modelled: their responses are
 * inputs.
 */
module OAuthService {
  import opened Common
  import opened Text
  import opened UserModel

  /** A provider named case-insensitively, as the lookups after `toLowerCase()` see it. */
  function KnownProvider(name: string): (r: Option<Provider>)
    ensures r.Some? ==> ProviderName(r.value) == Lower(name)
    ensures r.None? ==> forall p: Provider :: ProviderName(p) != Lower(name)
  {
    ParseProvider(Lower(name))
  }

  /** The schema's own provider names are already lower-case, so each names its provider. */
  lemma KnownProviderName(p: Provider)
    ensures KnownProvider(ProviderName(p)) == Some(p)
  {
    LowerOfLowerCased(ProviderName(p));
    ParseProviderName(p);
  }

  /**
   * The lower-case keys an object-literal lookup finds on `Object.prototype`
   * rather than on the literal: `constructor` and the `__proto__` accessor.
   * Every other inherited member's name has a capital letter, so no
   * lower-cased key reaches it.
   */
  predicate InheritedKey(key: string)
  {
    key == "constructor" || key == "__proto__"
  }

  /** The environment variables that hold each provider's client credentials. */
  datatype OAuthEnv = OAuthEnv(
    googleClientId: Option<string>, googleClientSecret: Option<string>,
    githubClientId: Option<string>, githubClientSecret: Option<string>,
    facebookAppId: Option<string>, facebookAppSecret: Option<string>)

  datatype ClientConfig = ClientConfig(clientId: string, clientSecret: string)

  function ClientId(p: Provider, env: OAuthEnv): Option<string>
  {
    match p
    case Google => env.googleClientId
    case GitHub => env.githubClientId
    case Facebook => env.facebookAppId
  }

  function ClientSecret(p: Provider, env: OAuthEnv): Option<string>
  {
    match p
    case Google => env.googleClientSecret
    case GitHub => env.githubClientSecret
    case Facebook => env.facebookAppSecret
  }

  /**
   * `validateOAuthConfig`: an unknown provider is a client error (400); a
   * known one whose id or secret is unset or empty is a server error (500).
   * An inherited key finds a truthy member of `Object.prototype` that has no
   * `clientId`, so it is reported as a missing configuration (500).
   */
  function ValidateOAuthConfig(provider: string, env: OAuthEnv): (r: Result<ClientConfig, Failure>)
    ensures KnownProvider(provider).None? && !InheritedKey(Lower(provider)) ==>
      r == Err(ApiError(400, "Unsupported OAuth provider: " + provider))
    ensures InheritedKey(Lower(provider)) ==>
      r == Err(ApiError(500, "OAuth configuration missing for " + provider + ". Please check environment variables."))
    ensures KnownProvider(provider).Some? ==>
      var p := KnownProvider(provider).value;
      && (r.Ok? <==> Truthy(ClientId(p, env)) && Truthy(ClientSecret(p, env)))
      && (r.Ok? ==> r.value == ClientConfig(ClientId(p, env).value, ClientSecret(p, env).value))
      && (r.Err? ==> r.error.ApiError? && r.error.status == 500)
  {
    match KnownProvider(provider)
    case None =>
      if InheritedKey(Lower(provider)) then
        Err(ApiError(500, "OAuth configuration missing for " + provider + ". Please check environment variables."))
      else
        Err(ApiError(400, "Unsupported OAuth provider: " + provider))
    case Some(p) =>
      var id := ClientId(p, env);
      var secret := ClientSecret(p, env);
      if !Truthy(id) || !Truthy(secret) then
        Err(ApiError(500, "OAuth configuration missing for " + provider + ". Please check environment variables."))
      else
        Ok(ClientConfig(id.value, secret.value))
  }

  /**
   * The configuration step of an exchange. The exchange calls the check
   * inside its `try`, and its `catch` rethrows every error that has no HTTP
   * response as a 400 carrying the same message, so a missing configuration
   * reaches the client as 400, never as 500.
   */
  function ExchangeConfig(p: Provider, env: OAuthEnv): (r: Result<ClientConfig, Failure>)
    ensures r.Ok? <==> Truthy(ClientId(p, env)) && Truthy(ClientSecret(p, env))
    ensures r.Err? ==> r.error == ApiError(400, "OAuth configuration missing for " + ProviderName(p) + ". Please check environment variables.")
  {
    KnownProviderName(p);
    match ValidateOAuthConfig(ProviderName(p), env)
    case Ok(config) => Ok(config)
    case Err(e) => Err(ApiError(400, e.message))
  }

  /**
   * `handleOAuthExchange`'s dispatch: a missing code is refused before the
   * provider is looked at; the provider is matched case-insensitively
   * against the three known names.
   */
  function HandleOAuthExchange(provider: string, code: Option<string>): (r: Result<Provider, Failure>)
    ensures !Truthy(code) ==> r == Err(ApiError(400, "Authorization code is required"))
    ensures Truthy(code) ==> (r.Ok? <==> KnownProvider(provider).Some?)
    ensures r.Ok? ==> ProviderName(r.value) == Lower(provider)
    ensures Truthy(code) && r.Err? ==> r == Err(ApiError(400, "Unsupported OAuth provider: " + provider))
  {
    if !Truthy(code) then Err(ApiError(400, "Authorization code is required"))
    else match KnownProvider(provider)
      case Some(p) => Ok(p)
      case None => Err(ApiError(400, "Unsupported OAuth provider: " + provider))
  }

  /** Provider names that differ only in the case of ASCII letters are dispatched alike. */
  lemma DispatchIgnoresCase(a: string, b: string, code: Option<string>)
    requires Lower(a) == Lower(b) && Truthy(code)
    ensures HandleOAuthExchange(a, code).Ok? <==> HandleOAuthExchange(b, code).Ok?
    ensures HandleOAuthExchange(a, code).Ok? ==> HandleOAuthExchange(a, code) == HandleOAuthExchange(b, code)
  {
  }

  /** `verifyOAuthState`: both states present and equal, else a 400 naming which check failed. */
  function VerifyOAuthState(received: Option<string>, expected: Option<string>): (r: Result<bool, Failure>)
    ensures r.Ok? <==> Truthy(received) && Truthy(expected) && received == expected
    ensures r.Ok? ==> r.value
    ensures !Truthy(received) || !Truthy(expected) ==> r == Err(ApiError(400, "Missing state parameter"))
    ensures Truthy(received) && Truthy(expected) && received != expected ==>
      r == Err(ApiError(400, "Invalid state parameter. Possible CSRF attack."))
  {
    if !Truthy(received) || !Truthy(expected) then Err(ApiError(400, "Missing state parameter"))
    else if received != expected then Err(ApiError(400, "Invalid state parameter. Possible CSRF attack."))
    else Ok(true)
  }

  function DisplayName(p: Provider): string
  {
    match p
    case Google => "Google"
    case GitHub => "GitHub"
    case Facebook => "Facebook"
  }

  /**
   * What `getProviderDisplayName` returns: a string, or the inherited
   * `Object.prototype` member (the `Object` function for `constructor`,
   * `Object.prototype` itself for `__proto__`) that the lookup found.
   */
  datatype ProviderLabel = Label(text: string) | InheritedMember(key: string)

  /**
   * `getProviderDisplayName`: the brand name of a known provider; an
   * inherited key finds a truthy inherited member, which is returned; any
   * other input is returned unchanged.
   */
  function GetProviderDisplayName(provider: string): (r: ProviderLabel)
    ensures KnownProvider(provider).Some? ==> r == Label(DisplayName(KnownProvider(provider).value))
    ensures InheritedKey(Lower(provider)) ==> r == InheritedMember(Lower(provider))
    ensures KnownProvider(provider).None? && !InheritedKey(Lower(provider)) ==> r == Label(provider)
  {
    match KnownProvider(provider)
    case Some(p) => Label(DisplayName(p))
    case None => if InheritedKey(Lower(provider)) then InheritedMember(Lower(provider)) else Label(provider)
  }

  /** "Constructor", in any case, gets the `Object` function rather than its own text back. */
  lemma ConstructorDisplayName()
    ensures GetProviderDisplayName("Constructor") == InheritedMember("constructor")
  {
    assert Lower("Constructor") == "constructor";
  }

  /** The profile an exchange hands to the login handler. */
  datatype OAuthProfile = OAuthProfile(
    provider: Provider,
    providerId: string,
    email: string,
    fullName: string,
    verified: bool)

  /** The fields of Google's user-info response that the exchange reads. */
  datatype GoogleUserInfo = GoogleUserInfo(
    id: string, email: Option<string>, name: Option<string>, verifiedEmail: Option<bool>)

  /** Google: the email is required; the name falls back to the email's local part (before the first `@`). */
  function GoogleProfile(info: GoogleUserInfo): (r: Result<OAuthProfile, Failure>)
    ensures r.Ok? <==> Truthy(info.email)
    ensures r.Err? ==> r.error == ApiError(400, "Email not provided by Google")
    ensures r.Ok? ==> r.value.provider == Google && r.value.providerId == info.id && r.value.email == info.email.value
    ensures r.Ok? ==> r.value.fullName == if Truthy(info.name) then info.name.value else TakeUntil(info.email.value, '@')
    ensures r.Ok? ==> (r.value.verified <==> info.verifiedEmail == Some(true))
  {
    if !Truthy(info.email) then Err(ApiError(400, "Email not provided by Google"))
    else
      var email := info.email.value;
      SplitFirstField(email, '@');
      var fullName := if Truthy(info.name) then info.name.value else Split(email, '@')[0];
      Ok(OAuthProfile(Google, info.id, email, fullName, info.verifiedEmail == Some(true)))
  }

  /** The fields of GitHub's `/user` response that the exchange reads. */
  datatype GitHubUser = GitHubUser(id: string, login: string, name: Option<string>, email: Option<string>)

  /** One entry of GitHub's `/user/emails` response. */
  datatype GitHubEmail = GitHubEmail(email: Option<string>, primary: bool, verified: bool)

  /** `emails.find(e => e.primary && e.verified)`, as an index. */
  function FirstPrimaryVerified(es: seq<GitHubEmail>): (r: Option<nat>)
    ensures r.Some? ==> r.value < |es| && es[r.value].primary && es[r.value].verified
    ensures r.Some? ==> forall k :: 0 <= k < r.value ==> !(es[k].primary && es[k].verified)
    ensures r.None? ==> forall k :: 0 <= k < |es| ==> !(es[k].primary && es[k].verified)
  {
    if es == [] then None
    else if es[0].primary && es[0].verified then Some(0)
    else match FirstPrimaryVerified(es[1..])
      case None => None
      case Some(k) => Some(k + 1)
  }

  /** `emails.find(e => e.verified)`, as an index. */
  function FirstVerified(es: seq<GitHubEmail>): (r: Option<nat>)
    ensures r.Some? ==> r.value < |es| && es[r.value].verified
    ensures r.Some? ==> forall k :: 0 <= k < r.value ==> !es[k].verified
    ensures r.None? ==> forall k :: 0 <= k < |es| ==> !es[k].verified
  {
    if es == [] then None
    else if es[0].verified then Some(0)
    else match FirstVerified(es[1..])
      case None => None
      case Some(k) => Some(k + 1)
  }

  /**
   * GitHub's email choice: the public profile email if there is one;
   * otherwise, from the listed addresses (absent when that request failed),
   * the first primary-and-verified entry, else the first verified entry's
   * address if it is non-empty, else the first entry's address.
   */
  function SelectGitHubEmail(profileEmail: Option<string>, listed: Option<seq<GitHubEmail>>): (r: Option<string>)
    ensures Truthy(profileEmail) ==> r == profileEmail
    ensures !Truthy(profileEmail) && listed.None? ==> !Truthy(r)
    ensures !Truthy(profileEmail) && listed.Some? && FirstPrimaryVerified(listed.value).Some? ==>
      r == listed.value[FirstPrimaryVerified(listed.value).value].email
    ensures !Truthy(profileEmail) && listed.Some? && FirstPrimaryVerified(listed.value).None? ==>
      var es := listed.value;
      var v := FirstVerified(es);
      if v.Some? && Truthy(es[v.value].email) then r == es[v.value].email
      else r == (if es == [] then None else es[0].email)
  {
    if Truthy(profileEmail) then profileEmail
    else match listed
      case None => profileEmail
      case Some(es) =>
        match FirstPrimaryVerified(es)
        case Some(k) => es[k].email
        case None =>
          var v := FirstVerified(es);
          if v.Some? && Truthy(es[v.value].email) then es[v.value].email
          else if es == [] then None
          else es[0].email
  }

  /** GitHub: an email must be found; the name falls back to the login. GitHub addresses count as verified. */
  function GitHubProfile(user: GitHubUser, listed: Option<seq<GitHubEmail>>): (r: Result<OAuthProfile, Failure>)
    ensures r.Ok? <==> Truthy(SelectGitHubEmail(user.email, listed))
    ensures r.Err? ==> r.error.ApiError? && r.error.status == 400
    ensures r.Ok? ==> r.value.provider == GitHub && r.value.providerId == user.id && r.value.verified
    ensures r.Ok? ==> r.value.email == SelectGitHubEmail(user.email, listed).value
    ensures r.Ok? ==> r.value.fullName == if Truthy(user.name) then user.name.value else user.login
  {
    var email := SelectGitHubEmail(user.email, listed);
    if !Truthy(email) then
      Err(ApiError(400, "Unable to get email from GitHub. Please make sure your email is public or grant email permission."))
    else
      Ok(OAuthProfile(GitHub, user.id, email.value, if Truthy(user.name) then user.name.value else user.login, true))
  }

  /** The fields of Facebook's `/me` response that the exchange reads. */
  datatype FacebookUser = FacebookUser(
    id: string, email: Option<string>, name: Option<string>, firstName: Option<string>, lastName: Option<string>)

  /** A value inside a template literal: an absent field prints as "undefined". */
  function Interpolated(s: Option<string>): string
  {
    match s
    case None => "undefined"
    case Some(v) => v
  }

  /** Facebook: the email is required; the name falls back to the trimmed "first last". */
  function FacebookProfile(user: FacebookUser): (r: Result<OAuthProfile, Failure>)
    ensures r.Ok? <==> Truthy(user.email)
    ensures r.Err? ==> r.error == ApiError(400, "Email permission not granted. Please allow email access to continue.")
    ensures r.Ok? ==> r.value.provider == Facebook && r.value.providerId == user.id && r.value.verified
    ensures r.Ok? && Truthy(user.name) ==> r.value.fullName == user.name.value
    ensures r.Ok? && !Truthy(user.name) ==>
      r.value.fullName == Trim(Interpolated(user.firstName) + " " + Interpolated(user.lastName))
  {
    if !Truthy(user.email) then
      Err(ApiError(400, "Email permission not granted. Please allow email access to continue."))
    else
      var fullName :=
        if Truthy(user.name) then user.name.value
        else Trim(Interpolated(user.firstName) + " " + Interpolated(user.lastName));
      Ok(OAuthProfile(Facebook, user.id, user.email.value, fullName, true))
  }

  /**
   * Without a display name, two name parts that carry no surrounding white
   * space are joined with exactly one space.
   */
  lemma FacebookNameFromParts(user: FacebookUser, first: string, last: string)
    requires Truthy(user.email) && !Truthy(user.name)
    requires user.firstName == Some(first) && user.lastName == Some(last)
    requires first != [] && !IsSpace(first[0]) && last != [] && !IsSpace(last[|last| - 1])
    ensures FacebookProfile(user).value.fullName == first + " " + last
  {
    var joined := first + " " + last;
    assert joined[0] == first[0] && joined[|joined| - 1] == last[|last| - 1];
    TrimOfTrimmed(joined);
  }

  /**
   * `exchangeGoogleCode` after its HTTP round trips: the configuration check,
   * then the shaping of the user-info response. The token request and the
   * transport failures are not modelled.
   */
  function ExchangeGoogleCode(env: OAuthEnv, info: GoogleUserInfo): (r: Result<OAuthProfile, Failure>)
    ensures ExchangeConfig(Google, env).Err? ==> r == Err(ExchangeConfig(Google, env).error)
    ensures ExchangeConfig(Google, env).Ok? ==> r == GoogleProfile(info)
    ensures r.Err? ==> r.error.ApiError? && r.error.status == 400
  {
    match ExchangeConfig(Google, env)
    case Err(e) => Err(e)
    case Ok(_) => GoogleProfile(info)
  }

  /** `exchangeGitHubCode` after its HTTP round trips; `listed` is absent when the email request failed. */
  function ExchangeGitHubCode(env: OAuthEnv, user: GitHubUser, listed: Option<seq<GitHubEmail>>): (r: Result<OAuthProfile, Failure>)
    ensures ExchangeConfig(GitHub, env).Err? ==> r == Err(ExchangeConfig(GitHub, env).error)
    ensures ExchangeConfig(GitHub, env).Ok? ==> r == GitHubProfile(user, listed)
    ensures r.Err? ==> r.error.ApiError? && r.error.status == 400
  {
    match ExchangeConfig(GitHub, env)
    case Err(e) => Err(e)
    case Ok(_) => GitHubProfile(user, listed)
  }

  /** What each provider's HTTP round trips answered, for an exchange that got that far. */
  datatype ProviderResponses = ProviderResponses(
    google: GoogleUserInfo, githubUser: GitHubUser, githubEmails: Option<seq<GitHubEmail>>, facebook: FacebookUser)

  /**
   * The exchange `handleOAuthExchange` runs for a dispatched provider: the
   * login handler's `exchange` parameter stands for this function with the
   * environment and the providers' answers fixed. A profile always names
   * the provider it came from, and every failure is a 400.
   */
  function ProviderExchange(p: Provider, env: OAuthEnv, answers: ProviderResponses): (r: Result<OAuthProfile, Failure>)
    ensures r.Ok? ==> r.value.provider == p
    ensures r.Err? ==> r.error.ApiError? && r.error.status == 400
    ensures ExchangeConfig(p, env).Err? ==> r == Err(ExchangeConfig(p, env).error)
  {
    match p
    case Google => ExchangeGoogleCode(env, answers.google)
    case GitHub => ExchangeGitHubCode(env, answers.githubUser, answers.githubEmails)
    case Facebook => ExchangeFacebookCode(env, answers.facebook)
  }

  /** `exchangeFacebookCode` after its HTTP round trips. */
  function ExchangeFacebookCode(env: OAuthEnv, user: FacebookUser): (r: Result<OAuthProfile, Failure>)
    ensures ExchangeConfig(Facebook, env).Err? ==> r == Err(ExchangeConfig(Facebook, env).error)
    ensures ExchangeConfig(Facebook, env).Ok? ==> r == FacebookProfile(user)
    ensures r.Err? ==> r.error.ApiError? && r.error.status == 400
  {
    match ExchangeConfig(Facebook, env)
    case Err(e) => Err(e)
    case Ok(_) => FacebookProfile(user)
  }
}
