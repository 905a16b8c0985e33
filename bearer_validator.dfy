/**
 * `ApiAuth` of identity/web.py: the bearer-token gate in front of a web API.
 * It parses the `Authorization` header, finds the signing key by `kid`,
 * lets PyJWT decode the token, checks the `scp` claim against the expected
 * scopes and the `iss` claim against the expected issuer, and reports every
 * rejection as an HTTP error carrying a `WWW-Authenticate` challenge
 * (section 3 of RFC 6750).
 *
 * Decoding, key download and OIDC discovery are not modelled: their outcomes
 * are inputs, gathered in `Provider`.
 */
module BearerValidator {
  import opened Wrappers
  import opened Strings

  const INVALID_REQUEST: string := "invalid_request"
  const INVALID_TOKEN: string := "invalid_token"
  const INSUFFICIENT_SCOPE: string := "insufficient_scope"
  const TENANT_PLACEHOLDER: string := "{tenantid}"
  const MISSING_HEADER: string := "Authorization header is missing"

  /** The settings of an `ApiAuth`; an authority that was not given is `None`. */
  datatype ApiAuth = ApiAuth(clientId: string, oidcAuthority: Option<string>, authority: Option<string>)
  {
    /** `oidc_authority or authority`. */
    function Realm(): (r: Option<string>)
      ensures Truthy(oidcAuthority) ==> r == oidcAuthority
      ensures !Truthy(oidcAuthority) ==> r == authority
      ensures Truthy(r) <==> Truthy(oidcAuthority) || Truthy(authority)
    {
      if Truthy(oidcAuthority) then oidcAuthority else authority
    }
  }

  /** What `raise_http_error` raises. */
  datatype HttpError = HttpError(status: int, wwwAuthenticate: Option<string>, description: Option<string>)

  // ---------------------------------------------------------------------------
  // __raise_oauth2_error

  /** The status for an OAuth2 error code (section 3.1 of RFC 6750), 400 for unknown codes. */
  function StatusFor(code: string): (status: int)
    ensures status == 401 <==> code == INVALID_TOKEN
    ensures status == 403 <==> code == INSUFFICIENT_SCOPE
    ensures status == 400 <==> code != INVALID_TOKEN && code != INSUFFICIENT_SCOPE
  {
    if code == INVALID_REQUEST then 400
    else if code == INVALID_TOKEN then 401
    else if code == INSUFFICIENT_SCOPE then 403
    else 400
  }

  /** The parameters a challenge may carry, in the order it lists them. */
  datatype ChallengeField = RealmField | ErrorField | DescriptionField | UriField | ScopeField
  {
    function Name(): string
    {
      match this
      case RealmField => "realm"
      case ErrorField => "error"
      case DescriptionField => "error_description"
      case UriField => "error_uri"
      case ScopeField => "scope"
    }

    function Rank(): nat
    {
      match this
      case RealmField => 0
      case ErrorField => 1
      case DescriptionField => 2
      case UriField => 3
      case ScopeField => 4
    }
  }

  /** The value given for each challenge parameter. */
  function Given(f: ChallengeField, realm: Option<string>, code: string, description: Option<string>,
                 errorUri: Option<string>, scope: Option<string>): Option<string>
  {
    match f
    case RealmField => realm
    case ErrorField => Some(code)
    case DescriptionField => description
    case UriField => errorUri
    case ScopeField => scope
  }

  function Field(f: ChallengeField, value: Option<string>): seq<(ChallengeField, string)>
  {
    if Truthy(value) then [(f, value.value)] else []
  }

  /**
   * The challenge's parameters: exactly the ones given a non-empty value,
   * each with that value, in the order realm, error, error_description,
   * error_uri, scope.
   */
  function ChallengeParams(realm: Option<string>, code: string, description: Option<string>,
                           errorUri: Option<string>, scope: Option<string>): (ps: seq<(ChallengeField, string)>)
    ensures forall i, j :: 0 <= i < j < |ps| ==> ps[i].0.Rank() < ps[j].0.Rank()
    ensures forall i :: 0 <= i < |ps| ==> ps[i].1 != ""
  {
    Field(RealmField, realm) + Field(ErrorField, Some(code)) + Field(DescriptionField, description)
    + Field(UriField, errorUri) + Field(ScopeField, scope)
  }

  /** Each parameter appears in the challenge exactly when it was given a non-empty value, and with that value. */
  lemma ChallengeParamsPresent(realm: Option<string>, code: string, description: Option<string>,
                               errorUri: Option<string>, scope: Option<string>, f: ChallengeField, v: string)
    ensures var ps := ChallengeParams(realm, code, description, errorUri, scope);
            var given := Given(f, realm, code, description, errorUri, scope);
            (f, v) in ps <==> Truthy(given) && v == given.value
  {
    var a := Field(RealmField, realm);
    var b := Field(ErrorField, Some(code));
    var c := Field(DescriptionField, description);
    var d := Field(UriField, errorUri);
    var e := Field(ScopeField, scope);
    var ps := a + b + c + d + e;
    assert (f, v) in ps <==> (f, v) in a || (f, v) in b || (f, v) in c || (f, v) in d || (f, v) in e;
  }

  /** One parameter as `name: "value"`, double quotes inside the value turned into single quotes. */
  function Quoted(param: (ChallengeField, string)): string
  {
    param.0.Name() + ": \"" + ReplaceAll(param.1, "\"", "'") + "\""
  }

  function QuotedAll(ps: seq<(ChallengeField, string)>): (qs: seq<string>)
    ensures |qs| == |ps|
    ensures forall i :: 0 <= i < |ps| ==> qs[i] == Quoted(ps[i])
  {
    if ps == [] then [] else [Quoted(ps[0])] + QuotedAll(ps[1..])
  }

  /** The `WWW-Authenticate` value for a list of parameters. */
  function Challenge(ps: seq<(ChallengeField, string)>): (c: string)
    ensures IsPrefix("Bearer ", c)
    ensures ps == [] ==> c == "Bearer "
  {
    "Bearer " + Join(QuotedAll(ps), ", ")
  }

  /**
   * Each rendered parameter is its name, `: "`, the value with every double
   * quote turned into a single quote, and a closing `"`: the value inside
   * the quotes holds no double quote, so it cannot end the quoted string early.
   */
  lemma RenderedValueIsQuoteFree(ps: seq<(ChallengeField, string)>, i: int)
    requires 0 <= i < |ps|
    ensures var inner := ReplaceAll(ps[i].1, "\"", "'");
            && QuotedAll(ps)[i] == ps[i].0.Name() + ": \"" + inner + "\""
            && '"' !in inner
  {
    assert "\"" == ['"'];
    ReplaceCharRemoves(ps[i].1, '"', "'");
  }

  /** The error codes the validator raises. */
  datatype ErrorCode = InvalidRequest | InvalidToken | InsufficientScope
  {
    function Name(): string
    {
      match this
      case InvalidRequest => INVALID_REQUEST
      case InvalidToken => INVALID_TOKEN
      case InsufficientScope => INSUFFICIENT_SCOPE
    }
  }

  /**
   * Why a request is refused: `__raise_oauth2_error(code, error_description,
   * scopes)`, the bare realm challenge of `_validate`, or a server error of
   * the key download.
   */
  datatype Refusal =
    | OAuth2Refusal(code: ErrorCode, description: Option<string>, scopes: seq<string>)
    | BareRefusal(reason: string)
    | ServerRefusal(reason: string)

  /** `__raise_oauth2_error(code, error_description, error_uri, scopes)`. */
  function OAuth2Error(api: ApiAuth, code: string, description: Option<string>, errorUri: Option<string>,
                       scopes: seq<string>): (e: HttpError)
    ensures e.status == StatusFor(code)
    ensures e.wwwAuthenticate.Some? && IsPrefix("Bearer ", e.wwwAuthenticate.value)
    ensures e.description == Some(code + ": " + Str(description))
  {
    var scope := if scopes != [] then Some(Join(scopes, " ")) else None;
    HttpError(StatusFor(code), Some(Challenge(ChallengeParams(api.Realm(), code, description, errorUri, scope))),
              Some(code + ": " + Str(description)))
  }

  /** What `raise_http_error` raises for a refusal. */
  function Raise(api: ApiAuth, r: Refusal): (e: HttpError)
    ensures r.OAuth2Refusal? ==> e.status == StatusFor(r.code.Name())
    ensures r.BareRefusal? ==> e.status == 401
    ensures r.ServerRefusal? ==> e == HttpError(500, None, Some(r.reason))
  {
    match r
    case OAuth2Refusal(code, description, scopes) => OAuth2Error(api, code.Name(), description, None, scopes)
    case BareRefusal(description) => HttpError(401, Some("Bearer realm=\"" + Str(api.Realm()) + "\""), Some(description))
    case ServerRefusal(description) => HttpError(500, None, Some(description))
  }

  // ---------------------------------------------------------------------------
  // Collaborators

  /** A JWK from the authority's key set; the PyJWT key built from it is not modelled. */
  datatype Jwk = Jwk(issuer: Option<string>)

  /** `__get_keys`: the fetch fails, a key lacks `kid`, or the keys are indexed by `kid`. */
  datatype KeysReply =
    | KeysFetchFailed(detail: string)
    | KeyWithoutKid(detail: string)
    | KeysFetched(keys: map<string, Jwk>)

  /** `jwt.get_unverified_header(token)`: a `DecodeError`, a header without `kid`, or the `kid`. */
  datatype HeaderReply =
    | HeaderUnreadable(message: string)
    | HeaderWithoutKid
    | HeaderKid(kid: string)

  /** The claims of a decoded access token that the validator inspects; `scp` is "" when the token has none. */
  datatype TokenClaims = TokenClaims(scp: string, iss: Option<string>, tid: Option<string>, others: map<string, string>)

  /**
   * `jwt.decode(token, key, algorithms=["RS256"], audience=client_id)`: one
   * of the errors the validator catches (`DecodeError`,
   * `InvalidSignatureError`, `InvalidAudienceError`), any other
   * `InvalidTokenError` (an expired or not-yet-valid token, a missing
   * required claim), or the verified claims.
   */
  datatype DecodeReply =
    | DecodeRejected(message: string)
    | DecodeRaisedOther(message: string)
    | DecodeAccepted(claims: TokenClaims)

  /** `_oidc_discovery()["issuer"]`. */
  datatype IssuerReply = IssuerFetchFailed | IssuerFetched(issuer: string)

  /** The outcomes of every collaborator for one request. */
  datatype Provider = Provider(header: string -> HeaderReply, keys: KeysReply, decode: string -> DecodeReply,
                               discovery: IssuerReply)

  /** `expected_scopes`: a list, or a mapping from the name in `scp` to the name a client requests. */
  datatype ExpectedScopes =
    | ScopeList(scopes: seq<string>)
    | ScopeMapping(entries: seq<(string, string)>)

  /** `set(scopes or [])`: the scope names looked for in `scp`. */
  function ExpectedNames(expected: ExpectedScopes): seq<string>
  {
    match expected
    case ScopeList(scopes) => scopes
    case ScopeMapping(entries) => seq(|entries|, i requires 0 <= i < |entries| => entries[i].0)
  }

  /** The scopes named in the challenge: the list itself, or the mapping's values. */
  function ChallengeScopes(expected: ExpectedScopes): seq<string>
  {
    match expected
    case ScopeList(scopes) => scopes
    case ScopeMapping(entries) => seq(|entries|, i requires 0 <= i < |entries| => entries[i].1)
  }

  /** The exceptions that escape `_validate` instead of becoming an HTTP error. */
  datatype Crash =
    | BlankAuthorizationHeader
    | HeaderWithoutKidRaised
    | DecodeFailureUncaught(message: string)
    | IssuerDiscoveryFailed

  datatype Validation = Authorized(claims: TokenClaims) | Rejected(refusal: Refusal) | Crashed(crash: Crash)

  // ---------------------------------------------------------------------------
  // _validate_bearer_token

  /** The scopes granted by `scp`, split on whitespace. */
  function GrantedScopes(claims: TokenClaims): (granted: seq<string>)
    ensures forall i :: 0 <= i < |granted| ==> IsWord(granted[i])
  {
    Words(claims.scp)
  }

  function InsufficientScopeMessage(expected: seq<string>, granted: seq<string>): string
  {
    "Insufficient scope(s). This API expects \"" + Join(Absent(expected, []), " ")
    + "\", but got only \"" + Join(Absent(granted, []), " ") + "\"."
  }

  function IssuerMismatchMessage(issuer: string, iss: Option<string>): string
  {
    "Issuer mismatch. (Expected " + issuer + ", got " + Str(iss) + ")"
  }

  /**
   * The issuer a token must carry: the key's own `issuer`, else the one from
   * discovery (`None` when discovery fails), with `{tenantid}` replaced by
   * the token's `tid` when an `authority` is configured.
   */
  function ExpectedIssuer(api: ApiAuth, key: Jwk, claims: TokenClaims, discovery: IssuerReply): (r: Option<string>)
    ensures r.None? <==> !Truthy(key.issuer) && discovery.IssuerFetchFailed?
    ensures r.Some? && !(Truthy(api.authority) && claims.tid.Some?) ==>
              r.value == (if Truthy(key.issuer) then key.issuer.value else discovery.issuer)
  {
    var base := if Truthy(key.issuer) then key.issuer
                else if discovery.IssuerFetched? then Some(discovery.issuer) else None;
    if base.None? then None
    else if Truthy(api.authority) && claims.tid.Some? then Some(ReplaceAll(base.value, TENANT_PLACEHOLDER, claims.tid.value))
    else base
  }

  /** The checks that follow a successful decode: scopes, then issuer. */
  function CheckClaims(api: ApiAuth, key: Jwk, claims: TokenClaims, expected: ExpectedScopes, discovery: IssuerReply)
    : (v: Validation)
    ensures v.Authorized? <==>
              && Absent(ExpectedNames(expected), GrantedScopes(claims)) == []
              && ExpectedIssuer(api, key, claims, discovery).Some?
              && claims.iss == ExpectedIssuer(api, key, claims, discovery)
    ensures v.Authorized? ==> v.claims == claims
    ensures v.Crashed? ==> v.crash == IssuerDiscoveryFailed
    ensures v.Rejected? ==> v.refusal.OAuth2Refusal? && v.refusal.code != InvalidRequest
  {
    var missing := Absent(ExpectedNames(expected), GrantedScopes(claims));
    if missing != [] then
      Rejected(OAuth2Refusal(InsufficientScope, Some(InsufficientScopeMessage(ExpectedNames(expected), GrantedScopes(claims))),
                             ChallengeScopes(expected)))
    else
      match ExpectedIssuer(api, key, claims, discovery)
      case None => Crashed(IssuerDiscoveryFailed)
      case Some(issuer) =>
        if claims.iss != Some(issuer) then
          Rejected(OAuth2Refusal(InvalidToken, Some(IssuerMismatchMessage(issuer, claims.iss)), []))
        else Authorized(claims)
  }

  /** From the `kid` on: fetch the keys, find the key, decode, check the claims. */
  function AfterKid(api: ApiAuth, token: string, kid: string, expected: ExpectedScopes, provider: Provider): (v: Validation)
    ensures v.Crashed? ==> v.crash.DecodeFailureUncaught? || v.crash == IssuerDiscoveryFailed
    ensures v.Authorized? <==>
              && (Truthy(api.oidcAuthority) || Truthy(api.authority))
              && provider.keys.KeysFetched? && kid in provider.keys.keys
              && provider.decode(token).DecodeAccepted?
              && CheckClaims(api, provider.keys.keys[kid], provider.decode(token).claims, expected, provider.discovery).Authorized?
    ensures v.Authorized? ==> provider.decode(token) == DecodeAccepted(v.claims)
    ensures !(Truthy(api.oidcAuthority) || Truthy(api.authority)) ==>
              v == Rejected(ServerRefusal("No authority to fetch keys from"))
    ensures (Truthy(api.oidcAuthority) || Truthy(api.authority)) && provider.keys.KeysFetchFailed? ==>
              v == Rejected(ServerRefusal("Failed to get keys: " + provider.keys.detail))
    ensures (Truthy(api.oidcAuthority) || Truthy(api.authority)) && provider.keys.KeyWithoutKid? ==>
              v == Rejected(ServerRefusal("Key should have \"kid\": " + provider.keys.detail))
    ensures (Truthy(api.oidcAuthority) || Truthy(api.authority)) && provider.keys.KeysFetched?
            && kid in provider.keys.keys && provider.decode(token).DecodeRejected? ==>
              v == Rejected(OAuth2Refusal(InvalidToken, Some(provider.decode(token).message), []))
    ensures v.Crashed? && v.crash.DecodeFailureUncaught? ==>
              provider.decode(token) == DecodeRaisedOther(v.crash.message)
  {
    if !(Truthy(api.oidcAuthority) || Truthy(api.authority)) then
      Rejected(ServerRefusal("No authority to fetch keys from"))
    else match provider.keys
      case KeysFetchFailed(detail) => Rejected(ServerRefusal("Failed to get keys: " + detail))
      case KeyWithoutKid(detail) => Rejected(ServerRefusal("Key should have \"kid\": " + detail))
      case KeysFetched(keys) =>
        if kid !in keys then Rejected(OAuth2Refusal(InvalidToken, Some("Key not found for kid " + kid), []))
        else match provider.decode(token)
          case DecodeRejected(message) => Rejected(OAuth2Refusal(InvalidToken, Some(message), []))
          case DecodeRaisedOther(message) => Crashed(DecodeFailureUncaught(message))
          case DecodeAccepted(claims) => CheckClaims(api, keys[kid], claims, expected, provider.discovery)
  }

  /** `_validate_bearer_token(token, scopes=expected)`, as written. */
  function ValidateBearerToken(api: ApiAuth, token: string, expected: ExpectedScopes, provider: Provider): (v: Validation)
    ensures v.Authorized? <==>
              provider.header(token).HeaderKid? && AfterKid(api, token, provider.header(token).kid, expected, provider).Authorized?
    ensures v.Authorized? ==> provider.decode(token) == DecodeAccepted(v.claims)
    ensures provider.header(token).HeaderUnreadable? ==>
              v == Rejected(OAuth2Refusal(InvalidToken, Some(provider.header(token).message), []))
    ensures v.Crashed? && v.crash == HeaderWithoutKidRaised ==> provider.header(token) == HeaderWithoutKid
  {
    match provider.header(token)
    case HeaderUnreadable(message) => Rejected(OAuth2Refusal(InvalidToken, Some(message), []))
    case HeaderWithoutKid => Crashed(HeaderWithoutKidRaised)
    case HeaderKid(kid) => AfterKid(api, token, kid, expected, provider)
  }

  // ---------------------------------------------------------------------------
  // _validate

  /** The header is `Bearer` followed by a token: `split(maxsplit=1)` gives the scheme and the rest. */
  predicate IsBearerHeader(parts: seq<string>)
  {
    |parts| == 2 && parts[0] == "Bearer"
  }

  function InvalidHeaderMessage(authorization: string): string
  {
    "Authorization header is invalid. (" + authorization + ")"
  }

  /** `_validate(request, expected_scopes=expected)` given the request's `Authorization` header, as written. */
  function Validate(api: ApiAuth, authorization: Option<string>, expected: ExpectedScopes, provider: Provider): (v: Validation)
    ensures !Truthy(authorization) ==> v == Rejected(BareRefusal(MISSING_HEADER))
    ensures v.Authorized? ==>
              && Truthy(authorization) && IsBearerHeader(SplitOnce(authorization.value))
              && ValidateBearerToken(api, SplitOnce(authorization.value)[1], expected, provider) == v
  {
    if !Truthy(authorization) then Rejected(BareRefusal(MISSING_HEADER))
    else
      var parts := SplitOnce(authorization.value);
      if parts == [] then Crashed(BlankAuthorizationHeader)
      else if IsBearerHeader(parts) then ValidateBearerToken(api, parts[1], expected, provider)
      else Rejected(BareRefusal(InvalidHeaderMessage(authorization.value)))
  }

  // ---------------------------------------------------------------------------
  // Corrected validator

  /** The key lookup with `kid` read by `.get`: a missing `kid` is an unknown key; every decode failure is `invalid_token`. */
  function AfterKidFixed(api: ApiAuth, token: string, kid: Option<string>, expected: ExpectedScopes, provider: Provider)
    : (v: Validation)
    ensures v.Crashed? ==> v.crash == IssuerDiscoveryFailed
  {
    if !(Truthy(api.oidcAuthority) || Truthy(api.authority)) then
      Rejected(ServerRefusal("No authority to fetch keys from"))
    else match provider.keys
      case KeysFetchFailed(detail) => Rejected(ServerRefusal("Failed to get keys: " + detail))
      case KeyWithoutKid(detail) => Rejected(ServerRefusal("Key should have \"kid\": " + detail))
      case KeysFetched(keys) =>
        if kid.None? || kid.value !in keys then
          Rejected(OAuth2Refusal(InvalidToken, Some("Key not found for kid " + Str(kid)), []))
        else match provider.decode(token)
          case DecodeRejected(message) => Rejected(OAuth2Refusal(InvalidToken, Some(message), []))
          case DecodeRaisedOther(message) => Rejected(OAuth2Refusal(InvalidToken, Some(message), []))
          case DecodeAccepted(claims) => CheckClaims(api, keys[kid.value], claims, expected, provider.discovery)
  }

  /** With a `kid`, the corrected key lookup answers as the original wherever the original answers. */
  lemma AfterKidFixedAgrees(api: ApiAuth, token: string, kid: string, expected: ExpectedScopes, provider: Provider)
    ensures var original := AfterKid(api, token, kid, expected, provider);
            var fixed := AfterKidFixed(api, token, Some(kid), expected, provider);
            && (!original.Crashed? ==> fixed == original)
            && (original.Crashed? && original.crash.DecodeFailureUncaught? ==>
                  fixed == Rejected(OAuth2Refusal(InvalidToken, Some(original.crash.message), [])))
  {
    if (Truthy(api.oidcAuthority) || Truthy(api.authority)) && provider.keys.KeysFetched? && kid in provider.keys.keys {
      match provider.decode(token)
      case DecodeRejected(_) =>
      case DecodeRaisedOther(_) =>
      case DecodeAccepted(claims) =>
        assert AfterKid(api, token, kid, expected, provider)
               == CheckClaims(api, provider.keys.keys[kid], claims, expected, provider.discovery);
    }
  }

  /**
   * The validator with its three escapes closed: a blank header is refused
   * like any other unusable header, a token header without `kid` is an
   * unknown key, and every `InvalidTokenError` from decoding is an
   * `invalid_token`. Only a failed discovery fetch still escapes.
   */
  function ValidateFixed(api: ApiAuth, authorization: Option<string>, expected: ExpectedScopes, provider: Provider)
    : (v: Validation)
    ensures v.Crashed? ==> v.crash == IssuerDiscoveryFailed
    ensures !Truthy(authorization) ==> v == Rejected(BareRefusal(MISSING_HEADER))
  {
    if !Truthy(authorization) then Rejected(BareRefusal(MISSING_HEADER))
    else
      var parts := SplitOnce(authorization.value);
      if IsBearerHeader(parts) then ValidateBearerTokenFixed(api, parts[1], expected, provider)
      else Rejected(BareRefusal(InvalidHeaderMessage(authorization.value)))
  }

  /** The token validator with `kid` read by `.get`. */
  function ValidateBearerTokenFixed(api: ApiAuth, token: string, expected: ExpectedScopes, provider: Provider)
    : (v: Validation)
    ensures v.Crashed? ==> v.crash == IssuerDiscoveryFailed
  {
    match provider.header(token)
    case HeaderUnreadable(message) => Rejected(OAuth2Refusal(InvalidToken, Some(message), []))
    case HeaderWithoutKid => AfterKidFixed(api, token, None, expected, provider)
    case HeaderKid(kid) => AfterKidFixed(api, token, Some(kid), expected, provider)
  }

  /**
   * The corrected token validator answers as the original wherever the
   * original answers, and refuses where the original escapes other than
   * through a failed discovery fetch.
   */
  lemma BearerTokenFixedAgrees(api: ApiAuth, token: string, expected: ExpectedScopes, provider: Provider)
    ensures var original := ValidateBearerToken(api, token, expected, provider);
            var fixed := ValidateBearerTokenFixed(api, token, expected, provider);
            && (!original.Crashed? ==> fixed == original)
            && (original.Crashed? && original.crash != IssuerDiscoveryFailed ==> fixed.Rejected?)
  {
    match provider.header(token)
    case HeaderUnreadable(_) =>
    case HeaderWithoutKid =>
    case HeaderKid(kid) =>
      AfterKidFixedAgrees(api, token, kid, expected, provider);
  }

  // ===========================================================================
  // What the validator promises

  /** `Bearer <token>` reaches the token validator with exactly that token. */
  lemma BearerHeaderReachesTokenCheck(api: ApiAuth, token: string, expected: ExpectedScopes, provider: Provider)
    requires token != [] && !IsSpace(token[0])
    ensures Validate(api, Some("Bearer " + token), expected, provider)
            == ValidateBearerToken(api, token, expected, provider)
  {
    assert IsWord("Bearer");
    SplitOnceRoundTrip("Bearer", token);
    assert "Bearer " + token == "Bearer" + " " + token;
    assert IsBearerHeader(SplitOnce("Bearer " + token));
  }

  /** The bare refusal is a 401 whose challenge names only the realm. */
  lemma BareRefusalChallenge(api: ApiAuth, reason: string)
    ensures Raise(api, BareRefusal(reason)).status == 401
    ensures Raise(api, BareRefusal(reason)).wwwAuthenticate == Some("Bearer realm=\"" + Str(api.Realm()) + "\"")
    ensures Raise(api, BareRefusal(reason)).description == Some(reason)
  {
  }

  /** Any other scheme, or `Bearer` alone, gets the bare realm challenge. */
  lemma OtherSchemesGetBareChallenge(api: ApiAuth, authorization: string, expected: ExpectedScopes, provider: Provider)
    requires SplitOnce(authorization) != [] && !IsBearerHeader(SplitOnce(authorization))
    ensures Validate(api, Some(authorization), expected, provider)
            == Rejected(BareRefusal(InvalidHeaderMessage(authorization)))
  {
    assert IsWord(SplitOnce(authorization)[0]);
  }

  /** A token signed with a key the authority does not publish is an `invalid_token` (401) naming the `kid`. */
  lemma UnknownKidIsInvalidToken(api: ApiAuth, token: string, expected: ExpectedScopes, provider: Provider, kid: string)
    requires provider.header(token) == HeaderKid(kid)
    requires Truthy(api.oidcAuthority) || Truthy(api.authority)
    requires provider.keys.KeysFetched? && kid !in provider.keys.keys
    ensures var v := ValidateBearerToken(api, token, expected, provider);
            && v == Rejected(OAuth2Refusal(InvalidToken, Some("Key not found for kid " + kid), []))
            && Raise(api, v.refusal).status == 401
  {
  }

  /**
   * A token the handler catches a decode error for (`DecodeError`,
   * `InvalidSignatureError`, `InvalidAudienceError`) is an `invalid_token`
   * (401) whose description is the error's message.
   */
  lemma CaughtDecodeFailureIsInvalidToken(api: ApiAuth, token: string, kid: string, expected: ExpectedScopes,
                                          provider: Provider, message: string)
    requires provider.header(token) == HeaderKid(kid)
    requires Truthy(api.oidcAuthority) || Truthy(api.authority)
    requires provider.keys.KeysFetched? && kid in provider.keys.keys
    requires provider.decode(token) == DecodeRejected(message)
    ensures var v := ValidateBearerToken(api, token, expected, provider);
            && v == Rejected(OAuth2Refusal(InvalidToken, Some(message), []))
            && Raise(api, v.refusal).status == 401
            && Raise(api, v.refusal).description == Some(INVALID_TOKEN + ": " + message)
  {
  }

  /** A token whose header cannot be read is an `invalid_token` (401) whose description is the decode error's message. */
  lemma UnreadableHeaderIsInvalidToken(api: ApiAuth, token: string, expected: ExpectedScopes, provider: Provider,
                                       message: string)
    requires provider.header(token) == HeaderUnreadable(message)
    ensures var v := ValidateBearerToken(api, token, expected, provider);
            && v == Rejected(OAuth2Refusal(InvalidToken, Some(message), []))
            && Raise(api, v.refusal).status == 401
            && Raise(api, v.refusal).description == Some(INVALID_TOKEN + ": " + message)
  {
  }

  /** Without an authority there are no keys to fetch: every token with a `kid` gets a 500 saying so. */
  lemma NoAuthorityIsServerError(api: ApiAuth, token: string, kid: string, expected: ExpectedScopes, provider: Provider)
    requires provider.header(token) == HeaderKid(kid)
    requires !(Truthy(api.oidcAuthority) || Truthy(api.authority))
    ensures var v := ValidateBearerToken(api, token, expected, provider);
            && v.Rejected?
            && Raise(api, v.refusal) == HttpError(500, None, Some("No authority to fetch keys from"))
  {
  }

  /** A key download that fails, or a key without `kid`, gives a 500 naming the cause. */
  lemma KeyDownloadFailureIsServerError(api: ApiAuth, token: string, kid: string, expected: ExpectedScopes,
                                        provider: Provider)
    requires provider.header(token) == HeaderKid(kid)
    requires Truthy(api.oidcAuthority) || Truthy(api.authority)
    requires !provider.keys.KeysFetched?
    ensures var v := ValidateBearerToken(api, token, expected, provider);
            && v.Rejected?
            && Raise(api, v.refusal) == HttpError(500, None, Some(
                 if provider.keys.KeysFetchFailed? then "Failed to get keys: " + provider.keys.detail
                 else "Key should have \"kid\": " + provider.keys.detail))
  {
  }

  /**
   * A token lacking an expected scope is refused with 403
   * `insufficient_scope`, and the challenge names every expected scope that
   * is free of double quotes.
   */
  lemma MissingScopeIsInsufficientScope(api: ApiAuth, key: Jwk, claims: TokenClaims, expected: ExpectedScopes,
                                        discovery: IssuerReply, missing: string)
    requires missing in ExpectedNames(expected) && missing !in GrantedScopes(claims)
    ensures var v := CheckClaims(api, key, claims, expected, discovery);
            && v.Rejected? && v.refusal.OAuth2Refusal? && v.refusal.code == InsufficientScope
            && Raise(api, v.refusal).status == 403
            && Raise(api, v.refusal).wwwAuthenticate.Some?
            && forall x :: x in ChallengeScopes(expected) && x != "" && '"' !in x ==>
                 IsInfix(x, Raise(api, v.refusal).wwwAuthenticate.value)
  {
    assert missing in Absent(ExpectedNames(expected), GrantedScopes(claims));
    var v := CheckClaims(api, key, claims, expected, discovery);
    assert v.refusal.scopes == ChallengeScopes(expected);
    forall x | x in ChallengeScopes(expected) && x != "" && '"' !in x
      ensures IsInfix(x, Raise(api, v.refusal).wwwAuthenticate.value)
    {
      ScopeInChallenge(api, ChallengeScopes(expected), x, v.refusal.description);
    }
  }

  /** A quote-free piece of any parameter's value survives into the rendered challenge. */
  lemma ParamValueInChallenge(ps: seq<(ChallengeField, string)>, i: int, x: string)
    requires 0 <= i < |ps| && '"' !in x && IsInfix(x, ps[i].1)
    ensures IsInfix(x, Challenge(ps))
  {
    var qs := QuotedAll(ps);
    ReplaceCharKeepsInfix(x, ps[i].1, '"', "'");
    InfixInContext(x, ReplaceAll(ps[i].1, "\"", "'"), ps[i].0.Name() + ": \"", "\"");
    assert qs[i] == Quoted(ps[i]);
    JoinContainsMember(qs, ", ", i);
    InfixTransitive(x, qs[i], Join(qs, ", "));
    InfixInContext(x, Join(qs, ", "), "Bearer ", "");
    assert "Bearer " + Join(qs, ", ") + "" == Challenge(ps);
  }

  /** An `insufficient_scope` refusal renders the realm, the code, the description and the space-joined scopes. */
  lemma InsufficientScopeChallenge(api: ApiAuth, description: Option<string>, scopes: seq<string>)
    requires scopes != []
    ensures Raise(api, OAuth2Refusal(InsufficientScope, description, scopes)).wwwAuthenticate
            == Some(Challenge(ChallengeParams(api.Realm(), INSUFFICIENT_SCOPE, description, None, Some(Join(scopes, " ")))))
  {
    assert InsufficientScope.Name() == INSUFFICIENT_SCOPE;
  }

  /** A quote-free piece of the `scope` value survives into the challenge. */
  lemma ScopeParamInChallenge(realm: Option<string>, code: string, description: Option<string>, joined: string, x: string)
    requires joined != "" && '"' !in x && IsInfix(x, joined)
    ensures IsInfix(x, Challenge(ChallengeParams(realm, code, description, None, Some(joined))))
  {
    var ps := ChallengeParams(realm, code, description, None, Some(joined));
    ChallengeParamsPresent(realm, code, description, None, Some(joined), ScopeField, joined);
    var i :| 0 <= i < |ps| && ps[i] == (ScopeField, joined);
    ParamValueInChallenge(ps, i, x);
  }

  /** Each requested scope free of double quotes appears in an `insufficient_scope` challenge. */
  lemma ScopeInChallenge(api: ApiAuth, scopes: seq<string>, x: string, description: Option<string>)
    requires x in scopes && x != "" && '"' !in x
    ensures IsInfix(x, Raise(api, OAuth2Refusal(InsufficientScope, description, scopes)).wwwAuthenticate.value)
  {
    var joined := Join(scopes, " ");
    var k :| 0 <= k < |scopes| && scopes[k] == x;
    JoinContainsMember(scopes, " ", k);
    var p, q :| joined == p + x + q;
    assert joined != "";
    ScopeParamInChallenge(api.Realm(), INSUFFICIENT_SCOPE, description, joined, x);
    InsufficientScopeChallenge(api, description, scopes);
  }

  /** A token whose issuer differs from the expected one is an `invalid_token` (401) naming both issuers. */
  lemma IssuerMismatchIsInvalidToken(api: ApiAuth, key: Jwk, claims: TokenClaims, expected: ExpectedScopes,
                                     discovery: IssuerReply, issuer: string)
    requires Absent(ExpectedNames(expected), GrantedScopes(claims)) == []
    requires ExpectedIssuer(api, key, claims, discovery) == Some(issuer)
    requires claims.iss != Some(issuer)
    ensures var v := CheckClaims(api, key, claims, expected, discovery);
            && v == Rejected(OAuth2Refusal(InvalidToken, Some(IssuerMismatchMessage(issuer, claims.iss)), []))
            && Raise(api, v.refusal).status == 401
  {
  }

  /**
   * With an `authority` configured, an issuer template accepts the issuer of
   * whatever tenant the token names in `tid`.
   */
  lemma TenantIssuerIsSubstituted(api: ApiAuth, prefix: string, suffix: string, tid: string, claims: TokenClaims,
                                  discovery: IssuerReply)
    requires Truthy(api.authority)
    requires '{' !in prefix && '{' !in suffix
    requires claims.tid == Some(tid)
    ensures ExpectedIssuer(api, Jwk(Some(prefix + TENANT_PLACEHOLDER + suffix)), claims, discovery)
            == Some(prefix + tid + suffix)
  {
    var rest := TENANT_PLACEHOLDER + suffix;
    assert prefix + TENANT_PLACEHOLDER + suffix == prefix + rest;
    assert TENANT_PLACEHOLDER[0] == '{';
    ReplaceSkipsPrefix(prefix, rest, TENANT_PLACEHOLDER, tid);
    assert rest[..|TENANT_PLACEHOLDER|] == TENANT_PLACEHOLDER;
    assert rest[|TENANT_PLACEHOLDER|..] == suffix;
    assert ReplaceAll(rest, TENANT_PLACEHOLDER, tid) == tid + ReplaceAll(suffix, TENANT_PLACEHOLDER, tid);
    ReplaceSkipsPrefix(suffix, "", TENANT_PLACEHOLDER, tid);
    assert suffix + "" == suffix;
    assert ReplaceAll("", TENANT_PLACEHOLDER, tid) == "";
    assert ReplaceAll(suffix, TENANT_PLACEHOLDER, tid) == suffix;
    assert ReplaceAll(prefix + TENANT_PLACEHOLDER + suffix, TENANT_PLACEHOLDER, tid) == prefix + (tid + suffix);
    assert prefix + (tid + suffix) == prefix + tid + suffix;
    assert Truthy(Some(prefix + TENANT_PLACEHOLDER + suffix));
  }

  /** Without an `authority` the key's issuer is compared verbatim: no tenant substitution. */
  lemma OidcIssuerIsVerbatim(api: ApiAuth, key: Jwk, claims: TokenClaims, discovery: IssuerReply)
    requires !Truthy(api.authority) && Truthy(key.issuer)
    ensures ExpectedIssuer(api, key, claims, discovery) == key.issuer
  {
  }

  // ---------------------------------------------------------------------------
  // The escapes, and the corrected validator

  /** As written, a header of whitespace only (here one no-break space) is an uncaught `IndexError`. */
  lemma BlankHeaderCrashes(api: ApiAuth, expected: ExpectedScopes, provider: Provider)
    ensures Validate(api, Some([0xA0 as char]), expected, provider) == Crashed(BlankAuthorizationHeader)
  {
    assert IsSpace([0xA0 as char][0]);
    assert [0xA0 as char][1..] == [];
  }

  /** As written, a token whose header has no `kid` is an uncaught `KeyError`. */
  lemma TokenWithoutKidCrashes(api: ApiAuth, token: string, expected: ExpectedScopes, provider: Provider)
    requires provider.header(token) == HeaderWithoutKid
    ensures ValidateBearerToken(api, token, expected, provider) == Crashed(HeaderWithoutKidRaised)
  {
  }

  /** As written, an expired token (any decode error outside the three caught ones) escapes. */
  lemma ExpiredTokenCrashes(api: ApiAuth, token: string, kid: string, expected: ExpectedScopes, provider: Provider,
                            message: string)
    requires provider.header(token) == HeaderKid(kid)
    requires Truthy(api.oidcAuthority) || Truthy(api.authority)
    requires provider.keys.KeysFetched? && kid in provider.keys.keys
    requires provider.decode(token) == DecodeRaisedOther(message)
    ensures ValidateBearerToken(api, token, expected, provider) == Crashed(DecodeFailureUncaught(message))
  {
  }

  /** The corrected validator answers every request the original answers, and in the same way. */
  lemma FixedAgreesWhereOriginalAnswers(api: ApiAuth, authorization: Option<string>,
                                        expected: ExpectedScopes, provider: Provider)
    requires !Validate(api, authorization, expected, provider).Crashed?
    ensures ValidateFixed(api, authorization, expected, provider) == Validate(api, authorization, expected, provider)
  {
    if Truthy(authorization) && IsBearerHeader(SplitOnce(authorization.value)) {
      BearerTokenFixedAgrees(api, SplitOnce(authorization.value)[1], expected, provider);
    }
  }

  /** Where the original escapes other than through a failed discovery fetch, the corrected validator answers with an HTTP error. */
  lemma FixedAnswersEscapes(api: ApiAuth, authorization: Option<string>, expected: ExpectedScopes, provider: Provider)
    requires Validate(api, authorization, expected, provider).Crashed?
    requires Validate(api, authorization, expected, provider).crash != IssuerDiscoveryFailed
    ensures ValidateFixed(api, authorization, expected, provider).Rejected?
  {
    if IsBearerHeader(SplitOnce(authorization.value)) {
      BearerTokenFixedAgrees(api, SplitOnce(authorization.value)[1], expected, provider);
    } else {
      assert SplitOnce(authorization.value) == [];
    }
  }

  /** The corrected validator gives a header of whitespace only the bare realm challenge any unusable header gets. */
  lemma FixedRefusesBlankHeader(api: ApiAuth, authorization: string, expected: ExpectedScopes, provider: Provider)
    requires authorization != "" && SplitOnce(authorization) == []
    ensures Validate(api, Some(authorization), expected, provider) == Crashed(BlankAuthorizationHeader)
    ensures ValidateFixed(api, Some(authorization), expected, provider)
            == Rejected(BareRefusal(InvalidHeaderMessage(authorization)))
  {
    assert !IsBearerHeader(SplitOnce(authorization));
  }

  /** The corrected key lookup treats a token header without `kid` as naming an unknown key. */
  lemma FixedRefusesTokenWithoutKid(api: ApiAuth, token: string, expected: ExpectedScopes, provider: Provider)
    requires Truthy(api.oidcAuthority) || Truthy(api.authority)
    requires provider.keys.KeysFetched?
    ensures AfterKidFixed(api, token, None, expected, provider)
            == Rejected(OAuth2Refusal(InvalidToken, Some("Key not found for kid None"), []))
    ensures Raise(api, AfterKidFixed(api, token, None, expected, provider).refusal).status == 401
  {
    var none: Option<string> := None;
    assert Str(none) == "None";
    assert "Key not found for kid " + Str(none) == "Key not found for kid None";
  }
}
