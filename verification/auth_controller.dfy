/**
 * `AuthController`: the authorization-code flow with PKCE (RFC 6749 section 4.1, RFC 7636)
 * against the identity provider, ending in a cookie that carries the user's claims.
 *
 * The provider's sign-in URL builder, its token exchange and its sign-out are parameters
 * (functions from the request made to the provider's answer). The ASP.NET session is a map
 * from key to string; the authentication cookie is a slot holding the signed-in claims.
 */
module Auth {
  import opened Common
  import opened UriEscape

  const NameIdentifierClaim := "http://schemas.xmlsoap.org/ws/2005/05/identity/claims/nameidentifier"
  const NameClaim := "http://schemas.xmlsoap.org/ws/2005/05/identity/claims/name"
  const EmailClaim := "http://schemas.xmlsoap.org/ws/2005/05/identity/claims/emailaddress"
  const AccessTokenClaim := "sb_access_token"
  const RefreshTokenClaim := "sb_refresh_token"

  const VerifierKey := "pkce_verifier"
  const DefaultDisplayName := "DiscordUser"
  const LoginErrorPrefix := "/login?error="
  const SignInFailedLocation := "/login?error=signin_failed"
  const MissingCode := "Missing 'code'."
  const MissingVerifier := "Missing PKCE verifier."
  const CallbackPath := "/auth/callback"

  datatype Claim = Claim(claimType: string, value: string)

  /** The provider's user: id, e-mail and the `user_metadata` entries (as strings). */
  datatype User = User(id: string, email: Option<string>, userMetadata: Option<map<string, string>>)

  /** What the token exchange returns: the session, whose user and tokens may be null. */
  datatype ProviderSession = ProviderSession(user: Option<User>, accessToken: Option<string>, refreshToken: Option<string>)

  /** A provider call either returns or throws; nothing in this controller catches. */
  datatype Outcome<T> = Returned(value: T) | Threw

  datatype AuthResponse =
    | Redirect(location: string)
    | BadRequest(message: string)
    /** An exception no handler catches: the framework answers 500. */
    | Unhandled

  datatype Provider = Discord
  datatype FlowType = Implicit | Pkce

  datatype SignInRequest = SignInRequest(provider: Provider, flowType: FlowType, redirectTo: string)
  /** The provider's authorization URL and the PKCE code verifier generated for it. */
  datatype SignInState = SignInState(uri: string, pkceVerifier: string)

  /** `$"{Request.Scheme}://{Request.Host}/auth/callback"`. */
  function CallbackUrl(scheme: string, host: string): (url: string)
    ensures |url| == |scheme| + 3 + |host| + |CallbackPath|
    ensures url[..|scheme|] == scheme && url[|url| - |CallbackPath|..] == CallbackPath
    ensures url[|scheme|..|scheme| + 3] == "://" && url[|scheme| + 3..|url| - |CallbackPath|] == host
  {
    scheme + "://" + host + CallbackPath
  }

  /** An ASCII letter folded to upper case, as an ordinal case-insensitive comparison does. */
  function FoldCase(c: char): char
  {
    if 'a' <= c <= 'z' then (c as int - 32) as char else c
  }

  /** Claim types are compared ordinally, ignoring case. */
  predicate SameClaimType(a: string, b: string)
  {
    |a| == |b| && forall i :: 0 <= i < |a| ==> FoldCase(a[i]) == FoldCase(b[i])
  }

  /**
   * The first value of a claim type, `ClaimsPrincipal.FindFirstValue`: the value of the first
   * claim whose type matches ignoring case.
   */
  function FindFirstValue(claims: seq<Claim>, claimType: string): (v: Option<string>)
    ensures v.Some? <==> exists i :: 0 <= i < |claims| && SameClaimType(claims[i].claimType, claimType)
    ensures v.Some? ==> exists i :: 0 <= i < |claims| && SameClaimType(claims[i].claimType, claimType)
                                    && claims[i].value == v.value
                                    && forall j :: 0 <= j < i ==> !SameClaimType(claims[j].claimType, claimType)
  {
    if claims == [] then None
    else if SameClaimType(claims[0].claimType, claimType) then Some(claims[0].value)
    else
      var rest := FindFirstValue(claims[1..], claimType);
      assert forall i :: 0 < i < |claims| ==> claims[i] == claims[1..][i - 1];
      rest
  }

  /** The display name: the `name` metadata entry when there is one. */
  function DisplayName(user: User): string
  {
    if user.userMetadata.Some? && "name" in user.userMetadata.value then user.userMetadata.value["name"]
    else DefaultDisplayName
  }

  /** The five claims a successful callback signs in with, in this order. */
  function SessionClaims(user: User, session: ProviderSession): (claims: seq<Claim>)
    ensures |claims| == 5
  {
    [ Claim(NameIdentifierClaim, user.id),
      Claim(NameClaim, DisplayName(user)),
      Claim(EmailClaim, OrElse(user.email, "")),
      Claim(AccessTokenClaim, OrElse(session.accessToken, "")),
      Claim(RefreshTokenClaim, OrElse(session.refreshToken, "")) ]
  }

  /**
   * Reading the cookie's claims back gives the provider's user id (the id every bookmark
   * handler filters on), the name or "DiscordUser", and the e-mail and both tokens or "".
   */
  lemma SessionClaimsReadBack(user: User, session: ProviderSession)
    ensures var claims := SessionClaims(user, session);
      && FindFirstValue(claims, NameIdentifierClaim) == Some(user.id)
      && FindFirstValue(claims, NameClaim) ==
           Some(if user.userMetadata.Some? && "name" in user.userMetadata.value then user.userMetadata.value["name"]
                else "DiscordUser")
      && FindFirstValue(claims, EmailClaim) == Some(if user.email.Some? then user.email.value else "")
      && FindFirstValue(claims, AccessTokenClaim) == Some(if session.accessToken.Some? then session.accessToken.value else "")
      && FindFirstValue(claims, RefreshTokenClaim) == Some(if session.refreshToken.Some? then session.refreshToken.value else "")
  {
    var claims := SessionClaims(user, session);
    ClaimReadBack(user, session, 0);
    ClaimReadBack(user, session, 1);
    ClaimReadBack(user, session, 2);
    ClaimReadBack(user, session, 3);
    ClaimReadBack(user, session, 4);
  }

  /** Each of the five claims is the first of its type, told apart from the others by length. */
  lemma ClaimReadBack(user: User, session: ProviderSession, k: int)
    requires 0 <= k < 5
    ensures var claims := SessionClaims(user, session);
      FindFirstValue(claims, claims[k].claimType) == Some(claims[k].value)
  {
    var claims := SessionClaims(user, session);
    var lengths := [68, 58, 66, 15, 16];
    assert forall j :: 0 <= j < 5 ==> |claims[j].claimType| == lengths[j];
    FirstMatchIsFound(claims, claims[k].claimType, k);
  }

  /** The claim at `k` is the one found when it is the first whose type matches. */
  lemma FirstMatchIsFound(claims: seq<Claim>, claimType: string, k: int)
    requires 0 <= k < |claims| && claims[k].claimType == claimType
    requires forall j :: 0 <= j < k ==> !SameClaimType(claims[j].claimType, claimType)
    ensures FindFirstValue(claims, claimType) == Some(claims[k].value)
  {
    assert SameClaimType(claims[k].claimType, claimType);
    var v := FindFirstValue(claims, claimType);
    var i :| 0 <= i < |claims| && SameClaimType(claims[i].claimType, claimType) && claims[i].value == v.value
             && forall j :: 0 <= j < i ==> !SameClaimType(claims[j].claimType, claimType);
    if i < k {
      assert false;
    } else if i > k {
      assert false;
    }
  }

  /** Where a callback stands before any call to the provider. */
  datatype CallbackStep = Exit(response: AuthResponse) | Exchange(verifier: string, code: string)

  /**
   * The early exits of `Callback`, in order: a provider error, a missing code, a missing stored
   * verifier. Otherwise the code is exchanged together with the stored verifier.
   */
  function CallbackStart(code: Option<string>, error: Option<string>, verifier: Option<string>): (step: CallbackStep)
    ensures !IsNullOrEmpty(error) ==> step == Exit(Redirect(LoginErrorPrefix + EscapeDataString(error.value)))
    ensures IsNullOrEmpty(error) && IsNullOrEmpty(code) ==> step == Exit(BadRequest(MissingCode))
    ensures IsNullOrEmpty(error) && !IsNullOrEmpty(code) && IsNullOrEmpty(verifier) ==> step == Exit(BadRequest(MissingVerifier))
    ensures step.Exchange? <==> IsNullOrEmpty(error) && !IsNullOrEmpty(code) && !IsNullOrEmpty(verifier)
    ensures step.Exchange? ==> step.verifier == verifier.value && step.code == code.value
  {
    if !IsNullOrEmpty(error) then Exit(Redirect(LoginErrorPrefix + EscapeDataString(error.value)))
    else if IsNullOrEmpty(code) then Exit(BadRequest(MissingCode))
    else if IsNullOrEmpty(verifier) then Exit(BadRequest(MissingVerifier))
    else Exchange(verifier.value, code.value)
  }

  /**
   * What `Callback` does with the exchange's answer: the response and, on success, the claims
   * to sign in with. A cookie is issued exactly when the exchange returned a session with a
   * user, and then the answer is always a redirect to "/".
   */
  function CallbackFinish(result: Outcome<Option<ProviderSession>>): (r: (AuthResponse, Option<seq<Claim>>))
    ensures r.1.Some? <==> result.Returned? && result.value.Some? && result.value.value.user.Some?
    ensures r.1.Some? ==> r.0 == Redirect("/") && r.1.value == SessionClaims(result.value.value.user.value, result.value.value)
    ensures result.Returned? && r.1.None? ==> r.0 == Redirect(SignInFailedLocation)
    ensures result.Threw? ==> r.0 == Unhandled
  {
    match result
    case Threw => (Unhandled, None)
    case Returned(s) =>
      if s.None? || s.value.user.None? then (Redirect(SignInFailedLocation), None)
      else (Redirect("/"), Some(SessionClaims(s.value.user.value, s.value)))
  }

  /** The session value under a key, `HttpContext.Session.GetString`. */
  function SessionValue(session: map<string, string>, key: string): (v: Option<string>)
    ensures v.Some? <==> key in session
    ensures v.Some? ==> v.value == session[key]
  {
    if key in session then Some(session[key]) else None
  }

  /**
   * The verifier stored at login is the one a later callback sends with its code; a login
   * that stored an empty verifier makes every callback fail with 400.
   */
  lemma LoginVerifierReachesExchange(session: map<string, string>, verifier: string, code: string)
    requires code != ""
    ensures var step := CallbackStart(Some(code), None, SessionValue(session[VerifierKey := verifier], VerifierKey));
      if verifier == "" then step == Exit(BadRequest(MissingVerifier)) else step == Exchange(verifier, code)
  {
  }

  /**
   * A provider error made of unreserved characters (`access_denied`, say) reaches the login
   * page verbatim, whatever the code and the stored verifier.
   */
  lemma ProviderErrorVerbatim(code: Option<string>, error: string, verifier: Option<string>)
    requires error != "" && forall i :: 0 <= i < |error| ==> IsUnreserved(error[i])
    ensures CallbackStart(code, Some(error), verifier) == Exit(Redirect(LoginErrorPrefix + error))
  {
  }

  class AuthController {
    /** The server-side session of the browser making the request. */
    var session: map<string, string>
    /** The authentication cookie: the signed-in claims, or none. */
    var cookie: Option<seq<Claim>>

    constructor ()
      ensures session == map[] && cookie == None
    {
      session := map[];
      cookie := None;
    }

    /**
     * GET /auth/login: ask the provider for a PKCE sign-in back to this host's callback, store
     * the verifier under "pkce_verifier" and redirect to the provider. A sign-in call that
     * throws escapes the action before anything is stored.
     */
    method Login(scheme: string, host: string, signIn: SignInRequest -> Outcome<SignInState>)
      returns (resp: AuthResponse, request: SignInRequest)
      modifies this`session
      ensures request == SignInRequest(Discord, Pkce, CallbackUrl(scheme, host))
      ensures signIn(request).Returned? ==>
        session == old(session)[VerifierKey := signIn(request).value.pkceVerifier]
        && resp == Redirect(signIn(request).value.uri)
      ensures signIn(request).Threw? ==> resp == Unhandled && session == old(session)
    {
      request := SignInRequest(Discord, Pkce, CallbackUrl(scheme, host));
      var state := signIn(request);
      if state.Threw? {
        return Unhandled, request;
      }
      session := session[VerifierKey := state.value.pkceVerifier];
      resp := Redirect(state.value.uri);
    }

    /**
     * GET /auth/callback. `exchanged` is the (verifier, code) pair sent to the provider, if
     * any. The session is left as it is: the stored verifier is not removed.
     */
    method Callback(code: Option<string>, error: Option<string>,
                    exchange: (string, string) -> Outcome<Option<ProviderSession>>)
      returns (resp: AuthResponse, exchanged: Option<(string, string)>)
      modifies this`cookie
      ensures var step := CallbackStart(code, error, SessionValue(session, VerifierKey));
        match step
        case Exit(r) => resp == r && exchanged == None && cookie == old(cookie)
        case Exchange(v, c) =>
          var finish := CallbackFinish(exchange(v, c));
          && exchanged == Some((v, c))
          && resp == finish.0
          && cookie == (if finish.1.Some? then finish.1 else old(cookie))
      ensures cookie != old(cookie) ==> resp == Redirect("/")
    {
      var step := CallbackStart(code, error, SessionValue(session, VerifierKey));
      match step {
        case Exit(r) =>
          resp, exchanged := r, None;
        case Exchange(v, c) =>
          var result := exchange(v, c);
          exchanged := Some((v, c));
          var finish := CallbackFinish(result);
          resp := finish.0;
          if finish.1.Some? {
            cookie := finish.1;
          }
      }
    }

    /**
     * POST /auth/logout: sign out at the provider, clear the cookie, redirect to "/". A provider
     * sign-out that throws escapes the action before the cookie is cleared.
     */
    method Logout(providerSignOut: Outcome<()>) returns (resp: AuthResponse)
      modifies this`cookie
      ensures providerSignOut.Returned? ==> resp == Redirect("/") && cookie == None
      ensures providerSignOut.Threw? ==> resp == Unhandled && cookie == old(cookie)
    {
      if providerSignOut.Threw? {
        return Unhandled;
      }
      cookie := None;
      resp := Redirect("/");
    }
  }
}
