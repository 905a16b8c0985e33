/**
 * The session-based login engine (class `Auth` of identity/web.py) as pure
 * step functions: each takes the session before the call and the
 * collaborators' replies, and gives the session after the call together with
 * what the call returns. The class in module WebAuth runs the same steps in
 * place and is proved equal to these functions; the lemmas below state what
 * the engine promises about them.
 */
module LoginEngine {
  import opened Wrappers
  import opened Strings
  import opened SessionModel

  /** The session after an operation and the operation's return value. */
  datatype Step<T> = Step(session: SessionData, result: T)

  /** What `log_in` returns, or the `ValueError` it raises without a client id. */
  datatype LogInResult =
    | ClientIdMissing
    | LogInRefused(failure: ProviderError)
    | VisitAuthUri(authUri: string)
    | EnterUserCode(authUri: string, userCode: string)

  /** What `complete_log_in` returns: `{}`, an error dict, or `{"next_link": ...}`. */
  datatype CompleteResult =
    | NoOp
    | CompleteRefused(failure: ProviderError)
    | LoggedIn(nextLink: Option<string>)

  const INTERACTION_REQUIRED: string := "interaction_required"
  const LOG_IN_REQUIRED: ProviderError := ProviderError(INTERACTION_REQUIRED, Some("Log in required"))
  const CACHE_MISSED: ProviderError := ProviderError(INTERACTION_REQUIRED, Some("Cache missed"))
  const POST_LOGOUT_REDIRECT: string := "?post_logout_redirect_uri="

  predicate Started(r: LogInResult)
  {
    r.VisitAuthUri? || r.EnterUserCode?
  }

  /** The auth response carries the state that asks for it to be ignored. */
  predicate IsNoOpResponse(authResponse: map<string, string>)
  {
    "state" in authResponse && authResponse["state"] == STATE_NO_OP
  }

  /** The `invalid_scope` error reported for a partial grant (section 5.2 of RFC 6749). */
  function InvalidScope(ungranted: seq<string>): (e: ProviderError)
    ensures e.error == "invalid_scope" && e.description.Some?
    ensures IsPrefix("Ungranted scope(s): ", e.description.value)
  {
    ProviderError("invalid_scope", Some("Ungranted scope(s): " + Join(ungranted, " ")))
  }

  /** `_save_cache`: the serialized cache is written only when the cache reports a change. */
  function SaveCacheSpec(s: SessionData, cacheAfter: CacheReport): (t: SessionData)
    ensures Valid(s) ==> Valid(t)
    ensures UnchangedExcept(s, t, {TOKEN_CACHE})
    ensures cacheAfter.CacheUnchanged? ==> t == s
    ensures cacheAfter.CacheChanged? ==> TOKEN_CACHE in t && t[TOKEN_CACHE] == TokenCacheBlob(cacheAfter.serialized)
  {
    match cacheAfter
    case CacheUnchanged => s
    case CacheChanged(blob) => s[TOKEN_CACHE := TokenCacheBlob(blob)]
  }

  // ---------------------------------------------------------------------------
  // log_in

  /**
   * `log_in(scopes, redirect_uri, ..., next_link)`: `redirectUri` is "" when
   * absent (device-code mode); `codeReply` and `deviceReply` are what the
   * provider answers to starting either kind of flow, and only the one the
   * mode selects is consulted.
   */
  function LogInSpec(s: SessionData, clientId: string, scopes: seq<string>, redirectUri: string,
                     nextLink: Option<string>, codeReply: CodeFlowReply, deviceReply: DeviceFlowReply)
    : (st: Step<LogInResult>)
    ensures Valid(s) ==> Valid(st.session)
    ensures UnchangedExcept(s, st.session, {AUTH_FLOW})
    ensures st.result == ClientIdMissing <==> clientId == ""
    ensures !Started(st.result) ==> st.session == s
    ensures st.result.LogInRefused? ==>
              if redirectUri != "" then codeReply == CodeFlowRefused(st.result.failure)
              else deviceReply == DeviceFlowRefused(st.result.failure)
    ensures Started(st.result) ==>
              && FlowOf(st.session).Some?
              && FlowOf(st.session).value.requestedScopes == scopes
              && FlowOf(st.session).value.nextLink == nextLink
    ensures st.result.VisitAuthUri? ==>
              redirectUri != "" && codeReply.CodeFlowStarted? && st.result.authUri == codeReply.authUri
    ensures st.result.EnterUserCode? ==>
              && redirectUri == "" && deviceReply.DeviceFlowStarted?
              && st.result.authUri == deviceReply.verificationUri && st.result.userCode == deviceReply.userCode
  {
    if clientId == "" then Step(s, ClientIdMissing)
    else if redirectUri != "" then
      match codeReply
      case CodeFlowRefused(e) => Step(s, LogInRefused(e))
      case CodeFlowStarted(uri, c) =>
        Step(s[AUTH_FLOW := PendingFlow(AuthFlow(AuthCodeFlow(uri, c), scopes, nextLink))], VisitAuthUri(uri))
    else
      match deviceReply
      case DeviceFlowRefused(e) => Step(s, LogInRefused(e))
      case DeviceFlowStarted(uri, code, c) =>
        Step(s[AUTH_FLOW := PendingFlow(AuthFlow(DeviceCodeFlow(uri, code, c), scopes, nextLink))],
             EnterUserCode(uri, code))
  }

  // ---------------------------------------------------------------------------
  // complete_log_in

  /** The redemption reply that `complete_log_in` acts on: auth-code when there is an auth response, device-code otherwise. */
  function ChosenReply(authResponse: map<string, string>, codeRedemption: CodeRedemption, deviceReply: RedeemReply): RedeemReply
    requires |authResponse| > 0 ==> codeRedemption.CodeRedemptionReturned?
  {
    if |authResponse| > 0 then codeRedemption.reply else deviceReply
  }

  /**
   * `complete_log_in(auth_response)`: an empty `authResponse` stands for
   * `None` (device-code mode); `codeRedemption` / `deviceReply` are what the
   * provider answers to redeeming the stored flow, and `cacheAfter` is the
   * token cache's state afterwards.
   */
  function CompleteLogInSpec(s: SessionData, authResponse: map<string, string>, codeRedemption: CodeRedemption,
                             deviceReply: RedeemReply, cacheAfter: CacheReport): (st: Step<CompleteResult>)
    ensures Valid(s) ==> Valid(st.session)
    ensures UnchangedExcept(s, st.session, {USER, TOKEN_CACHE, AUTH_FLOW})
    ensures !st.result.LoggedIn? ==> st.session == s
    ensures IsNoOpResponse(authResponse) || FlowOf(s).None? ==> st == Step(s, NoOp)
    ensures st.result.LoggedIn? ==>
              && FlowOf(s).Some? && st.result.nextLink == FlowOf(s).value.nextLink
              && AUTH_FLOW !in st.session && UserOf(st.session).Some?
  {
    if IsNoOpResponse(authResponse) then Step(s, NoOp)
    else match FlowOf(s)
      case None => Step(s, NoOp)
      case Some(flow) =>
        if |authResponse| > 0 && codeRedemption.CodeRedemptionRaisedValueError? then Step(s, NoOp)
        else match ChosenReply(authResponse, codeRedemption, deviceReply)
          case RedeemRefused(e) => Step(s, CompleteRefused(e))
          case RedeemGranted(claims, scope) =>
            var ungranted := if scope.Some? then Absent(flow.requestedScopes, Words(scope.value)) else [];
            if ungranted != [] then Step(s, CompleteRefused(InvalidScope(ungranted)))
            else Step(SignIn(s, claims, cacheAfter), LoggedIn(flow.nextLink))
  }

  /** The session after a successful redemption: the user saved, the cache written, the flow removed. */
  function SignIn(s: SessionData, claims: Claims, cacheAfter: CacheReport): (t: SessionData)
    ensures Valid(s) ==> Valid(t)
    ensures UnchangedExcept(s, t, {USER, TOKEN_CACHE, AUTH_FLOW})
    ensures AUTH_FLOW !in t && UserOf(t) == Some(claims)
  {
    var signedIn := s[USER := SignedInUser(claims)];
    var saved := SaveCacheSpec(signedIn, cacheAfter);
    assert USER in saved && saved[USER] == SignedInUser(claims);
    saved - {AUTH_FLOW}
  }

  // ---------------------------------------------------------------------------
  // _get_token_for_user and get_user

  /**
   * `_get_token_for_user(scopes, force_refresh)`: `silent` answers a silent
   * acquisition for the given scopes and force-refresh flag.
   */
  function TokenForUserSpec(s: SessionData, scopes: seq<string>, forceRefresh: bool,
                            silent: (seq<string>, bool) -> SilentReply): (st: Step<TokenReply>)
    ensures Valid(s) ==> Valid(st.session)
    ensures UnchangedExcept(s, st.session, {USER, TOKEN_CACHE})
    ensures UserOf(s).None? ==> st == Step(s, TokenRefused(LOG_IN_REQUIRED))
    ensures UserOf(st.session).Some? <==> UserOf(s).Some?
    ensures silent(scopes, forceRefresh).NoMatchingAccount? ==> st.session == s
    ensures UserOf(s).Some? && silent(scopes, forceRefresh).NoMatchingAccount? ==> st.result == TokenRefused(CACHE_MISSED)
    ensures UserOf(s).Some? && silent(scopes, forceRefresh).SilentAttempt? ==>
              var attempt := silent(scopes, forceRefresh);
              && st.result == (if attempt.result.Some? then attempt.result.value else TokenRefused(CACHE_MISSED))
              && (attempt.cacheAfter.CacheChanged? ==>
                    TOKEN_CACHE in st.session && st.session[TOKEN_CACHE] == TokenCacheBlob(attempt.cacheAfter.serialized))
              && (attempt.cacheAfter.CacheUnchanged? ==>
                    (TOKEN_CACHE in st.session <==> TOKEN_CACHE in s)
                    && (TOKEN_CACHE in s ==> st.session[TOKEN_CACHE] == s[TOKEN_CACHE]))
              && UserOf(st.session) == (if attempt.result.Some? && attempt.result.value.TokenGranted?
                                           && attempt.result.value.idTokenClaims.Some?
                                        then attempt.result.value.idTokenClaims else UserOf(s))
  {
    if UserOf(s).None? then Step(s, TokenRefused(LOG_IN_REQUIRED))
    else match silent(scopes, forceRefresh)
      case NoMatchingAccount => Step(s, TokenRefused(CACHE_MISSED))
      case SilentAttempt(result, cacheAfter) =>
        var saved := SaveCacheSpec(s, cacheAfter);
        var renewed :=
          if result.Some? && result.value.TokenGranted? && result.value.idTokenClaims.Some?
          then saved[USER := SignedInUser(result.value.idTokenClaims.value)]
          else saved;
        Step(renewed, if result.Some? then result.value else TokenRefused(CACHE_MISSED))
  }

  /** `get_user()` at time `now`, with `silent` answering the refresh it may attempt. */
  function GetUserSpec(s: SessionData, now: int, silent: (seq<string>, bool) -> SilentReply): (st: Step<Option<Claims>>)
    ensures Valid(s) ==> Valid(st.session)
    ensures UnchangedExcept(s, st.session, {USER, TOKEN_CACHE})
    ensures st.result.Some? ==> st.result == UserOf(st.session)
    ensures UserOf(s).None? ==> st == Step(s, None)
  {
    match UserOf(s)
    case None => Step(s, None)
    case Some(claims) =>
      if IsValid(claims, now, None, None) then Step(s, Some(claims))
      else
        var refreshed := TokenForUserSpec(s, [], true, silent);
        if refreshed.result.TokenRefused? then Step(refreshed.session, None)
        else Step(refreshed.session, UserOf(refreshed.session))
  }

  // ---------------------------------------------------------------------------
  // log_out

  /** `log_out(homepage)`, with `discovery` the outcome of fetching the discovery document. */
  function LogOutSpec(s: SessionData, homepage: string, discovery: DiscoveryReply): (st: Step<string>)
    ensures Valid(s) ==> Valid(st.session)
    ensures USER !in st.session && TOKEN_CACHE !in st.session
    ensures UnchangedExcept(s, st.session, {USER, TOKEN_CACHE})
    ensures IsSuffix(homepage, st.result)
    ensures st.result != homepage <==> discovery.DiscoveryFetched? && Truthy(discovery.endSessionEndpoint)
    ensures st.result != homepage ==>
              st.result == discovery.endSessionEndpoint.value + POST_LOGOUT_REDIRECT + homepage
  {
    var cleared := s - {USER, TOKEN_CACHE};
    match discovery
    case DiscoveryRequestFailed => Step(cleared, homepage)
    case DiscoveryFetched(endpoint) =>
      Step(cleared, if Truthy(endpoint) then endpoint.value + POST_LOGOUT_REDIRECT + homepage else homepage)
  }

  // ===========================================================================
  // What the engine promises

  /** The three no-op exits of `complete_log_in` leave the session exactly as it was. */
  lemma CompleteLogInNoOpExits(s: SessionData, authResponse: map<string, string>, codeRedemption: CodeRedemption,
                               deviceReply: RedeemReply, cacheAfter: CacheReport)
    requires || IsNoOpResponse(authResponse)
             || FlowOf(s).None?
             || (|authResponse| > 0 && codeRedemption.CodeRedemptionRaisedValueError?)
    ensures CompleteLogInSpec(s, authResponse, codeRedemption, deviceReply, cacheAfter) == Step(s, NoOp)
  {
  }

  /** A provider error is returned unchanged and nothing is saved. */
  lemma CompleteLogInPassesErrorsThrough(s: SessionData, authResponse: map<string, string>, codeRedemption: CodeRedemption,
                                         deviceReply: RedeemReply, cacheAfter: CacheReport, failure: ProviderError)
    requires !IsNoOpResponse(authResponse) && FlowOf(s).Some?
    requires |authResponse| > 0 ==> codeRedemption == CodeRedemptionReturned(RedeemRefused(failure))
    requires |authResponse| == 0 ==> deviceReply == RedeemRefused(failure)
    ensures CompleteLogInSpec(s, authResponse, codeRedemption, deviceReply, cacheAfter) == Step(s, CompleteRefused(failure))
  {
  }

  /**
   * A grant that lacks a requested scope is an `invalid_scope` failure whose
   * description names that scope; the user is not saved, the cache is not
   * written and the flow stays in the session.
   */
  lemma CompleteLogInRejectsPartialGrant(s: SessionData, authResponse: map<string, string>, codeRedemption: CodeRedemption,
                                         deviceReply: RedeemReply, cacheAfter: CacheReport,
                                         claims: Claims, granted: string, missing: string)
    requires !IsNoOpResponse(authResponse) && FlowOf(s).Some?
    requires |authResponse| > 0 ==> codeRedemption == CodeRedemptionReturned(RedeemGranted(claims, Some(granted)))
    requires |authResponse| == 0 ==> deviceReply == RedeemGranted(claims, Some(granted))
    requires missing in FlowOf(s).value.requestedScopes && missing !in Words(granted)
    ensures var ungranted := Absent(FlowOf(s).value.requestedScopes, Words(granted));
            && CompleteLogInSpec(s, authResponse, codeRedemption, deviceReply, cacheAfter)
               == Step(s, CompleteRefused(InvalidScope(ungranted)))
            && IsInfix(missing, InvalidScope(ungranted).description.value)
  {
    UngrantedScopeIsNamed(FlowOf(s).value.requestedScopes, Words(granted), missing);
    assert ChosenReply(authResponse, codeRedemption, deviceReply) == RedeemGranted(claims, Some(granted));
  }

  /** The `invalid_scope` description names every requested scope that was not granted. */
  lemma UngrantedScopeIsNamed(requested: seq<string>, granted: seq<string>, missing: string)
    requires missing in requested && missing !in granted
    ensures Absent(requested, granted) != []
    ensures InvalidScope(Absent(requested, granted)).description.Some?
    ensures IsInfix(missing, InvalidScope(Absent(requested, granted)).description.value)
  {
    var ungranted := Absent(requested, granted);
    assert missing in ungranted;
    var k :| 0 <= k < |ungranted| && ungranted[k] == missing;
    JoinContainsMember(ungranted, " ", k);
    InfixInContext(missing, Join(ungranted, " "), "Ungranted scope(s): ", "");
    assert "Ungranted scope(s): " + Join(ungranted, " ") + "" == "Ungranted scope(s): " + Join(ungranted, " ");
  }

  /**
   * A full grant signs the user in: the claims are saved, the flow is
   * popped, the cache is written exactly when it changed, every other key is
   * untouched, and the stored next link is returned.
   */
  lemma CompleteLogInSucceeds(s: SessionData, authResponse: map<string, string>, codeRedemption: CodeRedemption,
                              deviceReply: RedeemReply, cacheAfter: CacheReport,
                              claims: Claims, granted: Option<string>)
    requires !IsNoOpResponse(authResponse) && FlowOf(s).Some?
    requires |authResponse| > 0 ==> codeRedemption == CodeRedemptionReturned(RedeemGranted(claims, granted))
    requires |authResponse| == 0 ==> deviceReply == RedeemGranted(claims, granted)
    requires granted.Some? ==> forall x :: x in FlowOf(s).value.requestedScopes ==> x in Words(granted.value)
    ensures var st := CompleteLogInSpec(s, authResponse, codeRedemption, deviceReply, cacheAfter);
            && st.result == LoggedIn(FlowOf(s).value.nextLink)
            && UserOf(st.session) == Some(claims)
            && AUTH_FLOW !in st.session
            && (cacheAfter.CacheChanged? ==> TOKEN_CACHE in st.session && st.session[TOKEN_CACHE] == TokenCacheBlob(cacheAfter.serialized))
            && (cacheAfter.CacheUnchanged? ==> (TOKEN_CACHE in st.session <==> TOKEN_CACHE in s))
            && (cacheAfter.CacheUnchanged? && TOKEN_CACHE in s ==> st.session[TOKEN_CACHE] == s[TOKEN_CACHE])
            && UnchangedExcept(s, st.session, {USER, TOKEN_CACHE, AUTH_FLOW})
  {
  }

  /** Once a login completes, the flow is consumed: completing again is a no-op. */
  lemma CompleteLogInIsOneShot(s: SessionData, authResponse: map<string, string>, codeRedemption: CodeRedemption,
                               deviceReply: RedeemReply, cacheAfter: CacheReport,
                               authResponse2: map<string, string>, codeRedemption2: CodeRedemption,
                               deviceReply2: RedeemReply, cacheAfter2: CacheReport)
    requires CompleteLogInSpec(s, authResponse, codeRedemption, deviceReply, cacheAfter).result.LoggedIn?
    ensures var s1 := CompleteLogInSpec(s, authResponse, codeRedemption, deviceReply, cacheAfter).session;
            CompleteLogInSpec(s1, authResponse2, codeRedemption2, deviceReply2, cacheAfter2) == Step(s1, NoOp)
  {
  }

  /**
   * The two legs together: a flow started by `log_in` in redirect mode and
   * redeemed with every requested scope granted signs the user in and hands
   * back the next link given to `log_in`.
   */
  lemma {:induction false} LogInThenCompleteLogIn(s: SessionData, clientId: string, scopes: seq<string>, redirectUri: string,
                               nextLink: Option<string>, authUri: string, continuation: map<string, string>,
                               deviceFlow: DeviceFlowReply, authResponse: map<string, string>,
                               claims: Claims, granted: Option<string>, deviceReply: RedeemReply, cacheAfter: CacheReport)
    requires clientId != "" && redirectUri != ""
    requires |authResponse| > 0 && !IsNoOpResponse(authResponse)
    requires granted.Some? ==> forall x :: x in scopes ==> x in Words(granted.value)
    ensures var first := LogInSpec(s, clientId, scopes, redirectUri, nextLink, CodeFlowStarted(authUri, continuation), deviceFlow);
            var second := CompleteLogInSpec(first.session, authResponse,
                                            CodeRedemptionReturned(RedeemGranted(claims, granted)), deviceReply, cacheAfter);
            && first.result == VisitAuthUri(authUri)
            && second.result == LoggedIn(nextLink)
            && UserOf(second.session) == Some(claims)
            && AUTH_FLOW !in second.session
  {
    var first := LogInSpec(s, clientId, scopes, redirectUri, nextLink, CodeFlowStarted(authUri, continuation), deviceFlow);
    CompleteLogInSucceeds(first.session, authResponse, CodeRedemptionReturned(RedeemGranted(claims, granted)),
                          deviceReply, cacheAfter, claims, granted);
  }

  /**
   * Requesting scopes and being granted fewer of them fails the login with
   * `invalid_scope` naming a missing one, and leaves the flow pending.
   */
  lemma {:induction false} LogInThenPartialGrant(s: SessionData, clientId: string, scopes: seq<string>, redirectUri: string,
                              nextLink: Option<string>, authUri: string, continuation: map<string, string>,
                              deviceFlow: DeviceFlowReply, authResponse: map<string, string>,
                              claims: Claims, granted: string, missing: string,
                              deviceReply: RedeemReply, cacheAfter: CacheReport)
    requires clientId != "" && redirectUri != ""
    requires |authResponse| > 0 && !IsNoOpResponse(authResponse)
    requires missing in scopes && missing !in Words(granted)
    ensures var first := LogInSpec(s, clientId, scopes, redirectUri, nextLink, CodeFlowStarted(authUri, continuation), deviceFlow);
            var ungranted := Absent(scopes, Words(granted));
            && FlowOf(first.session).Some?
            && CompleteLogInSpec(first.session, authResponse, CodeRedemptionReturned(RedeemGranted(claims, Some(granted))),
                                 deviceReply, cacheAfter)
               == Step(first.session, CompleteRefused(InvalidScope(ungranted)))
            && IsInfix(missing, InvalidScope(ungranted).description.value)
  {
    var first := LogInSpec(s, clientId, scopes, redirectUri, nextLink, CodeFlowStarted(authUri, continuation), deviceFlow);
    var flow := AuthFlow(AuthCodeFlow(authUri, continuation), scopes, nextLink);
    assert first.session == s[AUTH_FLOW := PendingFlow(flow)];
    assert FlowOf(first.session) == Some(flow);
    CompleteLogInRejectsPartialGrant(first.session, authResponse, CodeRedemptionReturned(RedeemGranted(claims, Some(granted))),
                                     deviceReply, cacheAfter, claims, granted, missing);
  }


  /** A fresh user is returned verbatim and no refresh is attempted: the session stays as it was. */
  lemma GetUserWhenFresh(s: SessionData, now: int, silent: (seq<string>, bool) -> SilentReply, claims: Claims)
    requires UserOf(s) == Some(claims) && IsValid(claims, now, None, None)
    ensures GetUserSpec(s, now, silent) == Step(s, Some(claims))
  {
  }

  /**
   * A stale user triggers exactly one silent refresh, for no scopes and with
   * force-refresh: the outcome depends on no other answer of `silent`, and
   * the user is returned exactly when that refresh reports no error.
   */
  lemma GetUserWhenStale(s: SessionData, now: int, silent: (seq<string>, bool) -> SilentReply,
                         other: (seq<string>, bool) -> SilentReply, claims: Claims)
    requires UserOf(s) == Some(claims) && !IsValid(claims, now, None, None)
    requires other([], true) == silent([], true)
    ensures var st := GetUserSpec(s, now, silent);
            var refresh := TokenForUserSpec(s, [], true, silent);
            && st == GetUserSpec(s, now, other)
            && st.session == refresh.session
            && (st.result.Some? <==> !refresh.result.TokenRefused?)
  {
    assert TokenForUserSpec(s, [], true, silent) == TokenForUserSpec(s, [], true, other);
  }

  /** A silent acquisition that fails still saves the cache it changed, and its error is returned as given. */
  lemma SilentFailureStillSavesCache(s: SessionData, scopes: seq<string>, forceRefresh: bool,
                                     silent: (seq<string>, bool) -> SilentReply, failure: ProviderError, blob: string)
    requires UserOf(s).Some?
    requires silent(scopes, forceRefresh) == SilentAttempt(Some(TokenRefused(failure)), CacheChanged(blob))
    ensures TokenForUserSpec(s, scopes, forceRefresh, silent) == Step(s[TOKEN_CACHE := TokenCacheBlob(blob)], TokenRefused(failure))
  {
  }

  /** A successful forced refresh that carries new ID-token claims makes `get_user` return them. */
  lemma GetUserRenewsClaims(s: SessionData, now: int, silent: (seq<string>, bool) -> SilentReply, claims: Claims,
                            renewed: Claims, accessToken: Option<string>, scope: Option<string>, tokenType: Option<string>,
                            expiresIn: Option<int>, refreshToken: Option<string>, cacheAfter: CacheReport)
    requires UserOf(s) == Some(claims) && !IsValid(claims, now, None, None)
    requires silent([], true) ==
             SilentAttempt(Some(TokenGranted(accessToken, Some(renewed), scope, tokenType, expiresIn, refreshToken)), cacheAfter)
    ensures GetUserSpec(s, now, silent).result == Some(renewed)
  {
  }

  /** After `log_out`, the user and the token cache are gone whatever the discovery fetch did, and doing it again changes nothing. */
  lemma LogOutIsIdempotent(s: SessionData, homepage: string, discovery: DiscoveryReply,
                           homepage2: string, discovery2: DiscoveryReply)
    ensures var s1 := LogOutSpec(s, homepage, discovery).session;
            LogOutSpec(s1, homepage2, discovery2).session == s1
  {
  }

  /** After `log_out`, `get_user` returns no one and attempts no refresh. */
  lemma GetUserAfterLogOut(s: SessionData, homepage: string, discovery: DiscoveryReply,
                           now: int, silent: (seq<string>, bool) -> SilentReply)
    ensures var s1 := LogOutSpec(s, homepage, discovery).session;
            GetUserSpec(s1, now, silent) == Step(s1, None)
  {
  }
}
