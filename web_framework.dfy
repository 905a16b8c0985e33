/**
 * The two pieces of `WebFrameworkAuth` (identity/web.py) that every framework
 * adapter shares: the configuration check that produces a friendly hint
 * instead of raising, and the context a `login_required` view receives.
 */
module WebFramework {
  import opened Wrappers
  import opened Strings
  import opened SessionModel
  import opened LoginEngine
  import opened WebAuth

  const CONFIGURATION_HINT: string :=
    "Almost there. Did you forget to setup at least these settings?\n"
    + "(1) CLIENT_ID, and either\n"
    + "(2.1) OIDC_AUTHORITY, or\n"
    + "(2.2) AUTHORITY, or\n"
    + "(2.3) the B2C_TENANT_NAME and SIGNUPSIGNIN_USER_FLOW pair?\n"

  /** Token lifetime assumed when the token response omits `expires_in` (section 5.1 of RFC 6749). */
  const DEFAULT_EXPIRES_IN: int := 300

  /**
   * `_get_configuration_error`: the hint when the client id is missing or
   * neither authority is set, nothing otherwise. Absent settings are "".
   */
  function ConfigurationError(clientId: string, oidcAuthority: string, authority: string): (r: Option<string>)
    ensures r.None? <==> clientId != "" && (oidcAuthority != "" || authority != "")
    ensures r.Some? ==> r.value == CONFIGURATION_HINT
  {
    if clientId != "" && (oidcAuthority != "" || authority != "") then None else Some(CONFIGURATION_HINT)
  }

  /** A configuration that passes the check never makes `log_in` raise for a missing client id. */
  lemma ConfiguredAppCanLogIn(clientId: string, oidcAuthority: string, authority: string,
                              s: SessionData, scopes: seq<string>, redirectUri: string, nextLink: Option<string>,
                              codeReply: CodeFlowReply, deviceReply: DeviceFlowReply)
    requires ConfigurationError(clientId, oidcAuthority, authority).None?
    ensures LogInSpec(s, clientId, scopes, redirectUri, nextLink, codeReply, deviceReply).result != ClientIdMissing
  {
  }

  /** What a `login_required` view receives: the user alone, or the user with an access token. */
  datatype Context =
    | UserOnly(user: Claims)
    | WithToken(user: Claims, accessToken: string, tokenType: string, expiresIn: int,
                refreshToken: Option<string>, scopes: seq<string>)

  /**
   * `_login_required(auth, user, scopes)`, given the reply `reply` that the
   * silent acquisition for `scopes` gave (consulted only when there is a user
   * and `scopes` is non-empty).
   */
  function LoginContext(user: Option<Claims>, scopes: seq<string>, reply: TokenReply): (c: Option<Context>)
    ensures c.None? <==> user.None? || (scopes != [] && !HasAccessToken(reply))
    ensures c.Some? ==> c.value.user == user.value
    ensures c.Some? && scopes == [] ==> c.value == UserOnly(user.value)
    ensures c.Some? && scopes != [] ==>
              && c.value.WithToken? && reply.TokenGranted? && c.value.accessToken == reply.accessToken.value
              && c.value.refreshToken == reply.refreshToken
              && (reply.tokenType.None? ==> c.value.tokenType == "Bearer")
              && (reply.expiresIn.None? ==> c.value.expiresIn == DEFAULT_EXPIRES_IN)
              && (reply.tokenType.Some? ==> c.value.tokenType == reply.tokenType.value)
              && (reply.expiresIn.Some? ==> c.value.expiresIn == reply.expiresIn.value)
              && (Truthy(reply.scope) ==> c.value.scopes == Words(reply.scope.value))
              && (!Truthy(reply.scope) ==> c.value.scopes == scopes)
  {
    if user.None? then None
    else if scopes == [] then Some(UserOnly(user.value))
    else if !HasAccessToken(reply) then None
    else
      Some(WithToken(user.value, reply.accessToken.value,
                     if reply.tokenType.Some? then reply.tokenType.value else "Bearer",
                     if reply.expiresIn.Some? then reply.expiresIn.value else DEFAULT_EXPIRES_IN,
                     reply.refreshToken,
                     if Truthy(reply.scope) then Words(reply.scope.value) else scopes))
  }

  /** When the provider reports the granted scopes as the requested ones joined by spaces, the context lists exactly the requested scopes. */
  lemma LoginContextReportsGrantedScopes(user: Claims, scopes: seq<string>, accessToken: string,
                                          idTokenClaims: Option<Claims>, tokenType: Option<string>,
                                          expiresIn: Option<int>, refreshToken: Option<string>)
    requires scopes != [] && forall i :: 0 <= i < |scopes| ==> IsWord(scopes[i])
    ensures var reply := TokenGranted(Some(accessToken), idTokenClaims, Some(Join(scopes, " ")), tokenType, expiresIn, refreshToken);
            var c := LoginContext(Some(user), scopes, reply);
            c.Some? && c.value.WithToken? && c.value.scopes == scopes
  {
    WordsJoinRoundTrip(scopes);
    assert scopes[0] != [];
    JoinContainsMember(scopes, " ", 0);
    var p, q :| Join(scopes, " ") == p + scopes[0] + q;
    assert |Join(scopes, " ")| > 0;
  }

  /**
   * `_login_required` against the engine: the silent acquisition runs only
   * for a signed-in user with scopes, through `get_token_for_user`.
   */
  method LoginRequired(auth: Auth, user: Option<Claims>, scopes: seq<string>, silent: (seq<string>, bool) -> SilentReply)
    returns (c: Option<Context>)
    modifies auth.session
    ensures var st := TokenForUserSpec(old(auth.session.data), scopes, false, silent);
            if user.Some? && scopes != [] then auth.session.data == st.session && c == LoginContext(user, scopes, st.result)
            else auth.session.data == old(auth.session.data) && c == LoginContext(user, scopes, TokenRefused(CACHE_MISSED))
  {
    if user.None? {
      return None;
    }
    if scopes == [] {
      return Some(UserOnly(user.value));
    }
    var result := auth.GetTokenForUser(scopes, silent);
    c := LoginContext(user, scopes, result);
  }

  /** For a user whose session holds no signed-in claims, a scoped `login_required` view gets no context. */
  lemma LoginContextNeedsSession(s: SessionData, user: Claims, scopes: seq<string>, silent: (seq<string>, bool) -> SilentReply)
    requires UserOf(s).None? && scopes != []
    ensures LoginContext(Some(user), scopes, TokenForUserSpec(s, scopes, false, silent).result).None?
  {
  }
}
