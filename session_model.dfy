/**
 * What the web login engine keeps in the caller's session, and the answers
 * its collaborators (the MSAL client, the OIDC discovery document) give it.
 * The collaborators are not modelled: each call becomes a reply value that
 * the engine's operations take as a parameter.
 */
module SessionModel {
  import opened Wrappers

  /** Session keys reserved by the engine (identity/web.py:39-41). */
  const TOKEN_CACHE: string := "_token_cache"
  const AUTH_FLOW: string := "_auth_flow"
  const USER: string := "_logged_in_user"

  /** Auth-response `state` that asks the engine to ignore the response (identity/web.py:43). */
  const STATE_NO_OP: string := "identity.web.no_op"

  /** Default clock skew, in seconds, allowed when checking ID-token freshness. */
  const DEFAULT_SKEW: int := 210

  /** The claims of a validated ID token, as stored in the session. */
  datatype Claims = Claims(iat: int, exp: int, preferredUsername: Option<string>, others: map<string, string>)

  /** The continuation state the provider hands out when a flow starts. */
  datatype ProviderFlow =
    | AuthCodeFlow(authUri: string, continuation: map<string, string>)
    | DeviceCodeFlow(verificationUri: string, userCode: string, continuation: map<string, string>)

  /** A pending flow: the provider's record tagged with the explicitly requested scopes and the next link. */
  datatype AuthFlow = AuthFlow(provider: ProviderFlow, requestedScopes: seq<string>, nextLink: Option<string>)

  /** A session value: the engine's three kinds, or anything the caller keeps under its own keys. */
  datatype Value =
    | TokenCacheBlob(blob: string)
    | PendingFlow(flow: AuthFlow)
    | SignedInUser(claims: Claims)
    | CallerValue(data: string)

  type SessionData = map<string, Value>

  /** Each reserved key, when present, holds the kind of value the engine put there. */
  predicate Valid(s: SessionData)
  {
    && (TOKEN_CACHE in s ==> s[TOKEN_CACHE].TokenCacheBlob?)
    && (AUTH_FLOW in s ==> s[AUTH_FLOW].PendingFlow?)
    && (USER in s ==> s[USER].SignedInUser?)
  }

  /** `t` agrees with `s` on every key outside `keys`. */
  ghost predicate UnchangedExcept(s: SessionData, t: SessionData, keys: set<string>)
  {
    forall k :: k !in keys ==> (k in s <==> k in t) && (k in s ==> s[k] == t[k])
  }

  /** `session.get(_USER)`. */
  function UserOf(s: SessionData): Option<Claims>
  {
    if USER in s && s[USER].SignedInUser? then Some(s[USER].claims) else None
  }

  /** `session.get(_AUTH_FLOW)`. */
  function FlowOf(s: SessionData): Option<AuthFlow>
  {
    if AUTH_FLOW in s && s[AUTH_FLOW].PendingFlow? then Some(s[AUTH_FLOW].flow) else None
  }

  // ---------------------------------------------------------------------------
  // Replies of the collaborators

  /** An OAuth2 error response: `{"error": ..., "error_description": ...}`. */
  datatype ProviderError = ProviderError(error: string, description: Option<string>)

  /** What the in-memory token cache reports after an MSAL call: `has_state_changed` and `serialize()`. */
  datatype CacheReport = CacheUnchanged | CacheChanged(serialized: string)

  /** The reply of `initiate_auth_code_flow`. */
  datatype CodeFlowReply =
    | CodeFlowRefused(failure: ProviderError)
    | CodeFlowStarted(authUri: string, continuation: map<string, string>)

  /** The reply of `initiate_device_flow`. */
  datatype DeviceFlowReply =
    | DeviceFlowRefused(failure: ProviderError)
    | DeviceFlowStarted(verificationUri: string, userCode: string, continuation: map<string, string>)

  /** The reply of redeeming a flow: an error dict, or tokens with the ID-token claims and the granted `scope`. */
  datatype RedeemReply =
    | RedeemRefused(failure: ProviderError)
    | RedeemGranted(idTokenClaims: Claims, scope: Option<string>)

  /** `acquire_token_by_auth_code_flow` either raises `ValueError` (state mismatch) or replies. */
  datatype CodeRedemption =
    | CodeRedemptionRaisedValueError
    | CodeRedemptionReturned(reply: RedeemReply)

  /** A token response of silent or client-credential acquisition. */
  datatype TokenReply =
    | TokenRefused(failure: ProviderError)
    | TokenGranted(accessToken: Option<string>, idTokenClaims: Option<Claims>, scope: Option<string>,
                   tokenType: Option<string>, expiresIn: Option<int>, refreshToken: Option<string>)

  /**
   * Silent acquisition for the signed-in user: no account in the cache
   * matched the user's `preferred_username`, or an account did and
   * `acquire_token_silent_with_error` returned `result` (possibly `None`)
   * leaving the cache as `cacheAfter`.
   */
  datatype SilentReply =
    | NoMatchingAccount
    | SilentAttempt(result: Option<TokenReply>, cacheAfter: CacheReport)

  /** Fetching the authority's OIDC discovery document for its `end_session_endpoint`. */
  datatype DiscoveryReply =
    | DiscoveryRequestFailed
    | DiscoveryFetched(endSessionEndpoint: Option<string>)

  predicate HasAccessToken(t: TokenReply)
  {
    t.TokenGranted? && t.accessToken.Some?
  }

  // ---------------------------------------------------------------------------
  // ID-token freshness

  /**
   * `_is_valid(claims, skew, seconds)` at time `now` (whole seconds since the
   * epoch; the comparison with an integer bound is the same for the floor of
   * the clock reading). Without `seconds` the token lives until `exp`; with
   * it, until `iat + seconds`; either way `skew` is added.
   */
  function IsValid(claims: Claims, now: int, skew: Option<int>, seconds: Option<int>): (valid: bool)
    ensures skew.None? && seconds.None? ==> (valid <==> now < claims.exp + DEFAULT_SKEW)
    ensures seconds.Some? && skew.Some? ==> (valid <==> now - skew.value < claims.iat + seconds.value)
  {
    var allowed := if skew.Some? then skew.value else DEFAULT_SKEW;
    now < allowed + (if seconds.None? then claims.exp else claims.iat + seconds.value)
  }

  /** The freshness window: 210 seconds past `exp` by default, and the skew still applies when a lifetime is given. */
  lemma FreshnessWindow(claims: Claims, now: int, seconds: int)
    ensures IsValid(claims, now, None, None) <==> now < claims.exp + 210
    ensures IsValid(claims, now, None, Some(seconds)) <==> now < claims.iat + seconds + 210
    ensures IsValid(claims, now, Some(0), None) <==> now < claims.exp
  {
  }

  /** A token fresh at some time was fresh at every earlier time. */
  lemma FreshnessIsMonotone(claims: Claims, earlier: int, later: int, skew: Option<int>, seconds: Option<int>)
    requires earlier <= later
    requires IsValid(claims, later, skew, seconds)
    ensures IsValid(claims, earlier, skew, seconds)
  {
  }
}
