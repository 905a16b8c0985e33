/**
 * The login engine as the object the web framework holds: `Auth` keeps a
 * reference to the caller's `Session` and updates it in place. Each method is
 * proved to leave the session, and return, exactly what the step function of
 * module LoginEngine describes for the session it started from.
 */
module WebAuth {
  import opened Wrappers
  import opened Strings
  import opened SessionModel
  import opened LoginEngine

  /** The caller's per-user session store (a Flask/Django/Quart session). */
  class Session {
    var data: SessionData

    constructor(initial: SessionData)
      ensures data == initial
    {
      data := initial;
    }
  }

  class Auth {
    const session: Session
    const clientId: string
    const oidcAuthority: string
    const authority: string

    constructor(session: Session, clientId: string, oidcAuthority: string, authority: string)
      ensures this.session == session && this.clientId == clientId
      ensures this.oidcAuthority == oidcAuthority && this.authority == authority
    {
      this.session := session;
      this.clientId := clientId;
      this.oidcAuthority := oidcAuthority;
      this.authority := authority;
    }

    /** `_load_cache`: the serialized cache to start from, when the session holds a non-empty one. */
    method LoadCache() returns (blob: Option<string>)
      ensures blob.Some? <==> TOKEN_CACHE in session.data && session.data[TOKEN_CACHE].TokenCacheBlob?
                                && session.data[TOKEN_CACHE].blob != ""
      ensures blob.Some? ==> session.data[TOKEN_CACHE] == TokenCacheBlob(blob.value)
    {
      blob := None;
      if TOKEN_CACHE in session.data {
        var v := session.data[TOKEN_CACHE];
        if v.TokenCacheBlob? && v.blob != "" {
          blob := Some(v.blob);
        }
      }
    }

    /** `_save_cache`. */
    method SaveCache(cacheAfter: CacheReport)
      modifies session
      ensures session.data == SaveCacheSpec(old(session.data), cacheAfter)
    {
      if cacheAfter.CacheChanged? {
        session.data := session.data[TOKEN_CACHE := TokenCacheBlob(cacheAfter.serialized)];
      }
    }

    /** `log_in`: starts an auth-code flow when there is a redirect URI, a device-code flow otherwise. */
    method LogIn(scopes: seq<string>, redirectUri: string, nextLink: Option<string>,
                 codeReply: CodeFlowReply, deviceReply: DeviceFlowReply) returns (r: LogInResult)
      modifies session
      ensures Step(session.data, r) == LogInSpec(old(session.data), clientId, scopes, redirectUri, nextLink, codeReply, deviceReply)
    {
      if clientId == "" {
        return ClientIdMissing;
      }
      var provider: ProviderFlow;
      if redirectUri != "" {
        if codeReply.CodeFlowRefused? {
          return LogInRefused(codeReply.failure);
        }
        provider := AuthCodeFlow(codeReply.authUri, codeReply.continuation);
      } else {
        if deviceReply.DeviceFlowRefused? {
          return LogInRefused(deviceReply.failure);
        }
        provider := DeviceCodeFlow(deviceReply.verificationUri, deviceReply.userCode, deviceReply.continuation);
      }
      session.data := session.data[AUTH_FLOW := PendingFlow(AuthFlow(provider, scopes, nextLink))];
      if redirectUri != "" {
        r := VisitAuthUri(provider.authUri);
      } else {
        r := EnterUserCode(provider.verificationUri, provider.userCode);
      }
    }

    /** `complete_log_in`: redeems the pending flow and signs the user in. */
    method CompleteLogIn(authResponse: map<string, string>, codeRedemption: CodeRedemption,
                         deviceReply: RedeemReply, cacheAfter: CacheReport) returns (r: CompleteResult)
      modifies session
      ensures Step(session.data, r) == CompleteLogInSpec(old(session.data), authResponse, codeRedemption, deviceReply, cacheAfter)
    {
      if IsNoOpResponse(authResponse) {
        return NoOp;
      }
      var flow := FlowOf(session.data);
      if flow.None? {
        return NoOp;
      }
      var reply: RedeemReply;
      if |authResponse| > 0 {
        if codeRedemption.CodeRedemptionRaisedValueError? {
          return NoOp;
        }
        reply := codeRedemption.reply;
      } else {
        reply := deviceReply;
      }
      if reply.RedeemRefused? {
        return CompleteRefused(reply.failure);
      }
      if reply.scope.Some? {
        var ungranted := Absent(flow.value.requestedScopes, Words(reply.scope.value));
        if ungranted != [] {
          return CompleteRefused(InvalidScope(ungranted));
        }
      }
      session.data := session.data[USER := SignedInUser(reply.idTokenClaims)];
      SaveCache(cacheAfter);
      session.data := session.data - {AUTH_FLOW};
      r := LoggedIn(flow.value.nextLink);
    }

    /** `_get_token_for_user(scopes, force_refresh)`. */
    method TokenForUser(scopes: seq<string>, forceRefresh: bool, silent: (seq<string>, bool) -> SilentReply)
      returns (r: TokenReply)
      modifies session
      ensures Step(session.data, r) == TokenForUserSpec(old(session.data), scopes, forceRefresh, silent)
    {
      if UserOf(session.data).None? {
        return TokenRefused(LOG_IN_REQUIRED);
      }
      var attempt := silent(scopes, forceRefresh);
      if attempt.NoMatchingAccount? {
        return TokenRefused(CACHE_MISSED);
      }
      SaveCache(attempt.cacheAfter);
      var result := attempt.result;
      if result.Some? && result.value.TokenGranted? && result.value.idTokenClaims.Some? {
        session.data := session.data[USER := SignedInUser(result.value.idTokenClaims.value)];
      }
      if result.Some? {
        return result.value;
      }
      r := TokenRefused(CACHE_MISSED);
    }

    /** `get_token_for_user(scopes)`: a silent acquisition without forcing a refresh. */
    method GetTokenForUser(scopes: seq<string>, silent: (seq<string>, bool) -> SilentReply) returns (r: TokenReply)
      modifies session
      ensures Step(session.data, r) == TokenForUserSpec(old(session.data), scopes, false, silent)
    {
      r := TokenForUser(scopes, false, silent);
    }

    /** `get_user()` at time `now`. */
    method GetUser(now: int, silent: (seq<string>, bool) -> SilentReply) returns (user: Option<Claims>)
      modifies session
      ensures Step(session.data, user) == GetUserSpec(old(session.data), now, silent)
    {
      var claims := UserOf(session.data);
      if claims.None? {
        return None;
      }
      if IsValid(claims.value, now, None, None) {
        return claims;
      }
      var result := TokenForUser([], true, silent);
      user := None;
      if !result.TokenRefused? {
        user := UserOf(session.data);
      }
    }

    /** `log_out(homepage)`. */
    method LogOut(homepage: string, discovery: DiscoveryReply) returns (url: string)
      modifies session
      ensures Step(session.data, url) == LogOutSpec(old(session.data), homepage, discovery)
    {
      session.data := session.data - {USER};
      session.data := session.data - {TOKEN_CACHE};
      if discovery.DiscoveryRequestFailed? {
        return homepage;
      }
      var endpoint := discovery.endSessionEndpoint;
      url := if Truthy(endpoint) then endpoint.value + POST_LOGOUT_REDIRECT + homepage else homepage;
    }

    /**
     * `get_token_for_client(scopes)`: the token found silently when it has an
     * access token, otherwise the reply of a client-credentials request. The
     * caller obtains a token exactly when one of the two sources has one.
     */
    method GetTokenForClient(silentReply: Option<TokenReply>, clientReply: TokenReply) returns (r: TokenReply)
      ensures silentReply.Some? && HasAccessToken(silentReply.value) ==> r == silentReply.value
      ensures !(silentReply.Some? && HasAccessToken(silentReply.value)) ==> r == clientReply
      ensures HasAccessToken(r) <==> (silentReply.Some? && HasAccessToken(silentReply.value)) || HasAccessToken(clientReply)
    {
      if silentReply.Some? && HasAccessToken(silentReply.value) {
        return silentReply.value;
      }
      r := clientReply;
    }
  }
}
