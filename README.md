# identity: the login engine and the bearer-token checks, in Dafny

The `identity` package adds Microsoft Entra ID / OpenID Connect sign-in to Python web apps. It also protects web APIs with bearer tokens. This project models the package's decision logic and proves what that logic promises:

- **The session-based login engine** (`Auth` in `identity/web.py`) keeps three reserved keys in the caller's session:
  - the serialized token cache;
  - the pending auth flow;
  - the signed-in user's ID-token claims.

  It offers `log_in`, `complete_log_in`, `get_user`, `get_token_for_user`, `log_out` and `get_token_for_client`, plus the ID-token freshness test `_is_valid`.
  - Module `LoginEngine` states each operation as a pure step function from the session before to the session after, plus the return value.
  - Module `WebAuth` holds the same operations as a `class Auth` that updates a shared `class Session` in place. Each method is proved to produce exactly the step function's session and result.
- **The framework glue** (`WebFrameworkAuth`) covers two pieces:
  - the configuration check, which returns a hint instead of raising;
  - the context that a `login_required` view receives (module `WebFramework`).
- **The web-API gate** (`ApiAuth` in `identity/web.py`) parses the `Authorization` header and finds the signing key by `kid`. It checks the `scp` scopes and the `iss` issuer, and turns every refusal into an HTTP error with a `WWW-Authenticate` challenge (section 3 of RFC 6750). This is module `BearerValidator`, which also holds the corrected validator described under Findings.
- **The standalone API validator** (`Auth` in `identity/api.py`) covers:
  - token extraction;
  - audience and issuer matching;
  - key selection from a JWK set;
  - the mapping of signature-verification outcomes to error codes.

  This is module `IdentityApi`.

The model does not reimplement MSAL, PyJWT, python-jose, HTTP or the clock. Each call to them is a reply value passed in as a parameter, for example:

- `CodeFlowReply` and `RedeemReply` for MSAL's flow calls;
- `SilentReply` for silent acquisition, given as a function of the scopes and `force_refresh`;
- `DiscoveryReply` and `Provider` for the OIDC documents and PyJWT;
- `JoseReply` for python-jose.

The model therefore covers every outcome the reply types list; the exceptions those libraries can raise beyond them are named under "Left out".

Python's string operations are defined in module `Strings`:

- `str.split()` is `Words`.
- `str.split(maxsplit=1)` is `SplitOnce`.
- `sep.join` is `Join`.
- `str.replace` is `ReplaceAll`.
- Set difference is `Absent`.

Python `None` and truthiness are in module `Wrappers`.

## Model

| member | source | states |
|---|---|---|
| SessionModel.IsValid | identity/web.py:350-356 | With neither skew nor lifetime given, a token is valid exactly while the time is before `exp + 210`. With both given, it is valid exactly while the time minus the skew is before `iat + seconds`. |
| SessionModel.FreshnessWindow | identity/web.py:350-356 | An ID token counts as fresh until 210 seconds past `exp` by default. With a lifetime it counts until `iat + seconds + 210`. With zero skew it counts until exactly `exp`. |
| SessionModel.FreshnessIsMonotone | identity/web.py:350-356 | A token that is fresh at some time was fresh at every earlier time, whatever the skew and lifetime. |
| LoginEngine.SaveCacheSpec | identity/web.py:98-100 | The token cache is written only when the cache reports a change, and then holds its serialization. No other session key changes. |
| LoginEngine.LogInSpec | identity/web.py:153-177 | Without a client id the call fails (`ValueError`). A redirect URI starts an auth-code flow, and no redirect URI starts a device-code flow. A provider error is returned and leaves the session untouched. A started flow is stored with the explicitly requested scopes and the next link. The result carries the provider's auth URI, or its verification URI and user code. Only the flow key changes. |
| LoginEngine.CompleteLogInSpec | identity/web.py:197-244 | A no-op state or a missing flow gives `{}`. Every result other than a completed login leaves the session unchanged. A completed login consumes the stored flow and signs a user in, and its next link is the one `log_in` stored. Only the user, cache and flow keys change. |
| LoginEngine.SignIn | identity/web.py:241-243 | After a successful redemption the user is the redeemed ID token's claims and the flow is gone. Only the user, cache and flow keys change. |
| LoginEngine.TokenForUserSpec | identity/web.py:280-297 | Without a signed-in user the reply is "Log in required" and nothing changes. With one, no matching account gives "Cache missed" and leaves the session unchanged. Otherwise the silent result is returned as given, or "Cache missed" when it is `None`. A changed cache is saved whatever the reply, and an unchanged one is left as it was. New ID-token claims in a granted reply become the signed-in user, and otherwise the user stays. Only the user and cache keys change. |
| LoginEngine.GetUserSpec | identity/web.py:256-263 | With no user in the session the result is `None` and nothing changes. A returned user is always the one the session now holds. Only the user and cache keys change. |
| LoginEngine.LogOutSpec | identity/web.py:312-327 | The user and the token cache are removed whatever happens. The URL ends with the homepage. It differs from the homepage exactly when discovery yields an end-session endpoint, and is then `endpoint?post_logout_redirect_uri=homepage`. |
| LoginEngine.CompleteLogInNoOpExits | identity/web.py:197-220 | A no-op state, a missing flow, or a `ValueError` while redeeming the code each return `{}` and leave the session as it was. |
| LoginEngine.CompleteLogInPassesErrorsThrough | identity/web.py:226-227 | A provider error from the redemption is returned unchanged and nothing is saved. |
| LoginEngine.CompleteLogInRejectsPartialGrant | identity/web.py:228-239 | If a requested scope is missing from the granted `scope`, the result is `invalid_scope` listing the ungranted scopes. The description names the missing scope and the session stays as it was. |
| LoginEngine.InvalidScope | identity/web.py:234-238 | Ungranted scopes are reported as an `invalid_scope` error whose description is present and starts with `Ungranted scope(s): `; UngrantedScopeIsNamed shows every missing scope is named in it. |
| LoginEngine.UngrantedScopeIsNamed | identity/web.py:231-238 | Each requested scope that was not granted appears in the `invalid_scope` description. |
| LoginEngine.CompleteLogInSucceeds | identity/web.py:228-244 | A full grant signs in the redeemed user and removes the flow. It returns the stored next link. The cache is written exactly when it changed. Every other key is unchanged. |
| LoginEngine.CompleteLogInIsOneShot | identity/web.py:243 | After a completed login, completing again is a no-op. |
| LoginEngine.LogInThenCompleteLogIn | identity/web.py:153-177 | `log_in` followed by `complete_log_in` with a full grant returns the auth URI and then the stored next link. The user is then signed in and no flow is left. |
| LoginEngine.LogInThenPartialGrant | identity/web.py:228-239 | `log_in` followed by a partial grant refuses with `invalid_scope` naming the missing scope. The flow stays stored. |
| LoginEngine.GetUserWhenFresh | identity/web.py:259-260 | Fresh claims are returned verbatim, no refresh is attempted and the session is unchanged. |
| LoginEngine.GetUserWhenStale | identity/web.py:261-263 | Stale claims trigger exactly one silent acquisition, with no scopes and a forced refresh. The result depends only on that reply. A user is returned exactly when the refresh was not an error. |
| LoginEngine.GetUserRenewsClaims | identity/web.py:261-263 | A forced refresh that carries new ID-token claims makes `get_user` return those new claims. |
| LoginEngine.SilentFailureStillSavesCache | identity/web.py:289-296 | A silent acquisition that fails still saves the cache it changed, and its error is returned unchanged. |
| LoginEngine.LogOutIsIdempotent | identity/web.py:312-313 | After `log_out` the session has no user and no cache. Logging out again leaves it unchanged. |
| LoginEngine.GetUserAfterLogOut | identity/web.py:256-258 | After `log_out`, `get_user` returns `None` and attempts no refresh. |
| WebAuth.Session.constructor | identity/web.py:37 | The session starts with the caller's data. |
| WebAuth.Auth.constructor | identity/web.py:37 | The engine keeps the caller's session object (aliased, not copied) and its settings. |
| WebAuth.Auth.LoadCache | identity/web.py:92-96 | A cache blob is loaded exactly when the session holds a non-empty one, and it is that blob. It stands alone: the other operations take the cache's state after the MSAL call as an input, because MSAL's deserialisation is not modelled. |
| WebAuth.Auth.SaveCache | identity/web.py:98-100 | The session after the call is `SaveCacheSpec` of the session before. |
| WebAuth.Auth.LogIn | identity/web.py:121-177 | The session after the call and the result equal `LogInSpec` of the session before. |
| WebAuth.Auth.CompleteLogIn | identity/web.py:179-244 | The session after the call and the result equal `CompleteLogInSpec` of the session before. |
| WebAuth.Auth.TokenForUser | identity/web.py:280-297 | The session after the call and the result equal `TokenForUserSpec` of the session before. |
| WebAuth.Auth.GetTokenForUser | identity/web.py:265-278 | The same as `TokenForUser` with `force_refresh` off. |
| WebAuth.Auth.GetUser | identity/web.py:246-263 | The session after the call and the result equal `GetUserSpec` of the session before. |
| WebAuth.Auth.LogOut | identity/web.py:299-327 | The session after the call and the URL equal `LogOutSpec` of the session before. |
| WebAuth.Auth.GetTokenForClient | identity/web.py:343-347 | A silent result with an access token is returned. Otherwise the client-credentials reply is returned. The caller gets a token exactly when one of the two sources has one. |
| WebFramework.ConfigurationError | identity/web.py:465-475 | The hint is produced exactly when the client id is missing or both authorities are missing. |
| WebFramework.ConfiguredAppCanLogIn | identity/web.py:469 | An app that passes the configuration check never makes `log_in` fail for a missing client id. |
| WebFramework.LoginContext | identity/web.py:487-514 | There is no context exactly when there is no user, or when scopes were requested and no access token came back. With no scopes the context is the user alone. Otherwise it holds the user, the access token and the refresh token. The token type and `expires_in` are carried over when given, and default to `Bearer` and 300 otherwise. The scopes are exactly the split `scope` when one is given, else the requested scopes. |
| WebFramework.LoginContextReportsGrantedScopes | identity/web.py:502-503 | When the provider grants the requested scopes joined by spaces, the context lists exactly the requested scopes. |
| WebFramework.LoginRequired | identity/web.py:487-514 | The silent acquisition runs only for a user with scopes, through `get_token_for_user`, and the session changes as it describes. The context is `LoginContext` of its reply. |
| WebFramework.LoginContextNeedsSession | identity/web.py:490-509 | If the session has no signed-in user, a scoped view gets no context even when the caller passes a user. |
| BearerValidator.ApiAuth.Realm | identity/web.py:587 | The realm is the OIDC authority when one is set, otherwise the authority. |
| BearerValidator.StatusFor | identity/web.py:614-618 | `invalid_token` is 401 and `insufficient_scope` is 403. Every other code is 400. |
| BearerValidator.ChallengeParams | identity/web.py:605-612 | Parameters appear in the order realm, error, error_description, error_uri, scope. Each carries a non-empty value. |
| BearerValidator.ChallengeParamsPresent | identity/web.py:605-612 | A parameter appears in the challenge exactly when it was given a non-empty value, and it carries that value. |
| BearerValidator.Challenge | identity/web.py:605-619 | A challenge always starts with `Bearer `, and with no parameters it is exactly `Bearer `. |
| BearerValidator.QuotedAll | identity/web.py:605-606 | Each parameter is rendered as `name: "value"`, one rendering per parameter, in order. |
| BearerValidator.OAuth2Error | identity/web.py:596-621 | The status comes from the code. The challenge starts with `Bearer `. The description is `code: description`, with a missing description shown as `None`. |
| BearerValidator.Raise | identity/web.py:590-594 | An OAuth2 refusal gets its code's status. A bare refusal is 401. A key-download failure is a 500 with its reason. |
| BearerValidator.GrantedScopes | identity/web.py:676 | The granted scopes are the whitespace-separated words of `scp`. |
| BearerValidator.ExpectedIssuer | identity/web.py:689-691 | The issuer is the key's own issuer, else the discovered one. It is missing only when both are missing. With an authority and a `tid` claim, `{tenantid}` is substituted. |
| BearerValidator.CheckClaims | identity/web.py:675-696 | The claims are accepted exactly when no expected scope is missing from `scp` and `iss` equals the expected issuer. A refusal is `insufficient_scope` or `invalid_token`. The only crash is a failed discovery fetch. |
| BearerValidator.AfterKid | identity/web.py:630-701 | The token is accepted exactly when an authority is configured, the keys are fetched, the `kid` is among them, PyJWT accepts the token and the claims pass. The accepted claims are the decoded ones. No authority, a failed key fetch and a key without `kid` each give the server refusal with the source's message. A decode error the handler catches becomes `invalid_token` carrying its message, and only an uncaught decode error crashes. |
| BearerValidator.ValidateBearerToken | identity/web.py:655-701 | The token is accepted exactly when its header has a `kid` and the checks from the key on accept it. An unreadable header is `invalid_token` carrying the decode error's message, and the `KeyError` crash happens only for a header without `kid`. |
| BearerValidator.Validate | identity/web.py:703-734 | A missing or empty header gets the bare 401 "Authorization header is missing". Acceptance means the header is `Bearer` plus a token, and the token validator accepted that token. |
| BearerValidator.BearerHeaderReachesTokenCheck | identity/web.py:718-726 | `Bearer <token>` reaches the token validator with exactly that token. |
| BearerValidator.BareRefusalChallenge | identity/web.py:729-733 | A bare refusal is a 401 whose challenge is `Bearer realm="<realm>"` and whose description is the reason. |
| BearerValidator.OtherSchemesGetBareChallenge | identity/web.py:727-733 | Any other scheme, or `Bearer` without a token, gets the bare challenge quoting the header. |
| BearerValidator.UnknownKidIsInvalidToken | identity/web.py:663-667 | A `kid` not among the published keys is a 401 `invalid_token` that names the `kid`. |
| BearerValidator.CaughtDecodeFailureIsInvalidToken | identity/web.py:698-701 | A `DecodeError`, `InvalidSignatureError` or `InvalidAudienceError` from `jwt.decode` is a 401 `invalid_token` whose description is `invalid_token: <message>`. |
| BearerValidator.UnreadableHeaderIsInvalidToken | identity/web.py:662-701 | A header PyJWT cannot read is a 401 `invalid_token` whose description is `invalid_token: <message>`. |
| BearerValidator.NoAuthorityIsServerError | identity/web.py:632-634 | Without `oidc_authority` or `authority`, a token with a `kid` gets a 500 "No authority to fetch keys from" with no challenge. |
| BearerValidator.KeyDownloadFailureIsServerError | identity/web.py:647-650 | A failed key download is a 500 "Failed to get keys: …", and a key without `kid` is a 500 `Key should have "kid": …`. |
| BearerValidator.MissingScopeIsInsufficientScope | identity/web.py:675-686 | A missing expected scope is a 403 `insufficient_scope`, for a list of expected scopes and for a mapping alike. The challenge names every quote-free scope of the list, or every quote-free value of the mapping. |
| BearerValidator.ParamValueInChallenge | identity/web.py:605-612 | Any quote-free piece of a parameter's value survives into the rendered challenge. |
| BearerValidator.InsufficientScopeChallenge | identity/web.py:610-612 | An `insufficient_scope` challenge carries the realm, the code, the description and the space-joined scopes. |
| BearerValidator.ScopeParamInChallenge | identity/web.py:611 | Any quote-free piece of the `scope` value survives into the challenge. |
| BearerValidator.ScopeInChallenge | identity/web.py:675-686 | Each expected scope free of double quotes appears in the `insufficient_scope` challenge. |
| BearerValidator.IssuerMismatchIsInvalidToken | identity/web.py:692-695 | An issuer other than the expected one is a 401 `invalid_token` naming both issuers. |
| BearerValidator.TenantIssuerIsSubstituted | identity/web.py:690-691 | With an authority configured, an issuer template accepts the issuer of the tenant named in `tid`. |
| BearerValidator.OidcIssuerIsVerbatim | identity/web.py:689-690 | Without an authority, the key's issuer is compared verbatim. |
| BearerValidator.BlankHeaderCrashes | identity/web.py:718-719 | As written, a header made only of whitespace escapes as an `IndexError`. |
| BearerValidator.TokenWithoutKidCrashes | identity/web.py:662 | As written, a token header without `kid` escapes as a `KeyError`. |
| BearerValidator.ExpiredTokenCrashes | identity/web.py:668-701 | As written, a decode error outside the three caught kinds escapes, for example an expired token; the three caught kinds become a 401 (CaughtDecodeFailureIsInvalidToken). |
| BearerValidator.AfterKidFixed | identity/web.py:662-701 | Corrected key lookup. Among the modelled replies, the only remaining crash is a failed discovery fetch. |
| BearerValidator.AfterKidFixedAgrees | identity/web.py:663-701 | With a `kid`, the corrected lookup answers as the original wherever the original answers. An uncaught decode error becomes `invalid_token` with its message. |
| BearerValidator.ValidateBearerTokenFixed | identity/web.py:655-701 | Corrected token validator. Among the modelled replies, the only remaining crash is a failed discovery fetch. |
| BearerValidator.BearerTokenFixedAgrees | identity/web.py:655-701 | The corrected token validator agrees with the original wherever the original answers. It refuses wherever the original escapes, except for a failed discovery fetch. |
| BearerValidator.ValidateFixed | identity/web.py:703-734 | Corrected `_validate`. A missing header is refused as before, and among the modelled replies the only remaining crash is a failed discovery fetch. |
| BearerValidator.FixedAgreesWhereOriginalAnswers | identity/web.py:703-734 | The corrected validator gives the same answer wherever the original answers. |
| BearerValidator.FixedAnswersEscapes | identity/web.py:703-734 | Wherever the original escapes, except for a failed discovery fetch, the corrected validator refuses with an HTTP error. |
| BearerValidator.FixedRefusesBlankHeader | identity/web.py:718-733 | A whitespace-only header crashes the original. The corrected validator gives it the bare "Authorization header is invalid" challenge. |
| BearerValidator.FixedRefusesTokenWithoutKid | identity/web.py:662-667 | The corrected lookup treats a missing `kid` as an unknown key: a 401 `invalid_token` "Key not found for kid None". |
| IdentityApi.Failure | identity/api.py:19-25 | Every error carries a `code` and `details` and has status 401. |
| IdentityApi.GetToken | identity/api.py:11-48 | Errors are always well formed. A missing or empty header is `missing_authentication_header`. Anything other than exactly two words is `invalid_header` "malformed". Two words whose first is not the keyword (ignoring case) give `invalid_header` "Authorization header must start with <keyword>". A token is returned exactly when the header is two words and the first equals the keyword ignoring case. The token is the second word. |
| IdentityApi.GetTokenRoundTrip | identity/api.py:27-48 | `"<keyword in any case> <token>"` gives back exactly the token. |
| IdentityApi.DefaultKeywordAcceptsBearer | identity/api.py:11-48 | With the default keyword `bearer`, `Bearer <token>` gives the token back. |
| IdentityApi.GetTokenRejectsExtraWords | identity/api.py:27-37 | A header of three words is malformed, whatever the first word is. |
| IdentityApi.IsValidAud | identity/api.py:51-54 | The audience is valid exactly when it is one of the app's ID URIs. |
| IdentityApi.IsValidIssuer | identity/api.py:56-65 | A multitenant issuer must start with the Microsoft login URL and end with `/v2`. A single-tenant issuer must be exactly `https://login.microsoftonline.com/<tenant>/v2`. |
| IdentityApi.SingleTenantIssuerIsMultitenant | identity/api.py:63-65 | Any issuer that passes the single-tenant check also passes the multitenant check. |
| IdentityApi.MultitenantAcceptsEveryTenant | identity/api.py:63-64 | The multitenant check accepts the issuer of every tenant. |
| IdentityApi.Restrict | identity/api.py:78-84 | The chosen key keeps exactly `kty`, `kid`, `use`, `n` and `e`, with their values. |
| IdentityApi.RsaKeyErrorAsWrittenLacksDetails | identity/api.py:88-94 | As written, the "Unable to generate rsa key" error has no `details` field. |
| IdentityApi.RsaKeyErrorIsWellFormed | identity/api.py:88-94 | The corrected error carries `details` "Unable to generate rsa key". |
| IdentityApi.ScanKeys | identity/api.py:73-96 | Any failure inside the `try` gives the one key-search error, which is a parameter: the source's `detailsn` payload or the corrected one. A found key has exactly the five RSA fields. |
| IdentityApi.ScanKeysSawEveryKid | identity/api.py:76-77 | A scan that succeeds saw a `kid` in every key. A non-empty key set also needs the token's `kid`. |
| IdentityApi.ScanKeysEmptyIffNoMatch | identity/api.py:74-84 | The scan finds nothing exactly when no key has the token's `kid`. |
| IdentityApi.ScanKeysFindsLastMatch | identity/api.py:76-84 | A found key comes from the last key with the token's `kid`, and that key has the five RSA fields. |
| IdentityApi.ScanKeysFindsPresentKey | identity/api.py:74-84 | When every key has a `kid` and every key with the token's `kid` has the RSA fields, the scan succeeds. It finds a key exactly when one carries the token's `kid`. |
| IdentityApi.ScanKeysErrorPersists | identity/api.py:85-94 | Once a prefix of the key set fails, the whole scan fails with the same error. |
| IdentityApi.KeyWithoutKidAsWrittenLacksDetails | identity/api.py:76-94 | As written, a JWK set with a key lacking `kid` raises the `detailsn` error, which is not well formed. |
| IdentityApi.KeySearchErrorsAreWellFormed | identity/api.py:85-94 | With the corrected payload, every failure of the key search is well formed and says "Unable to generate rsa key". |
| IdentityApi.GetRsaKey | identity/api.py:67-96 | The loop returns what `ScanKeys` specifies for the same key-search error. A key set without `keys` raises that error. |
| IdentityApi.ValidateTokenSigning | identity/api.py:98-134 | A failed key search propagates its error unchanged: the `detailsn` payload as written, the well-formed one when corrected. Every other error is well formed. Success happens exactly when a key is found and the signature verifies, and the success payload is `valid_signature`. No key gives "Invalid RSA key". An expired token gives `token_expired`, a claims error gives `invalid_claims`, and any other failure gives "Error parsing token.". |
| IdentityApi.NoMatchingKeyIsInvalidRsaKey | identity/api.py:74-134 | A key set without the token's `kid` yields no key, so the token is refused as "Invalid RSA key". |
| Strings.SplitOnce | identity/web.py:718-720 | `split(maxsplit=1)` gives at most two pieces, and none exactly when the text is all whitespace. The first piece is a word, and the rest starts with a non-space. |
| Strings.SplitOnceAgreesWithWords | identity/web.py:718-720 | `split(maxsplit=1)` and `split()` agree on the first word, on emptiness and on having a single word. |
| Strings.WordsJoinRoundTrip | identity/web.py:502-503 | Splitting a space-joined list of words gives back the list. |
| Strings.Absent | identity/web.py:231-233 | The set difference holds exactly the wanted items that are not had. |
| Strings.AbsentHasNoDuplicates | identity/web.py:231-233 | Like a set, the difference lists each item once. |
| Strings.ReplaceCharRemoves | identity/web.py:606 | Replacing every occurrence of a character by a text that does not contain it leaves no occurrence of that character. |
| BearerValidator.RenderedValueIsQuoteFree | identity/web.py:605-606 | Each parameter rendered into a challenge is `name: "value"` whose value holds no double quote, since every `"` in it became `'`. |

## Left out

- I/O and collaborators are inputs or parameters:
  - MSAL (flow start and redemption, silent and client-credential acquisition, `get_accounts`);
  - PyJWT and python-jose (header parsing, signature and claim verification);
  - HTTP (OIDC discovery, JWKS download);
  - the clock (`now` is whole seconds; a comparison with integer `iat`/`exp` gives the same answer);
  - `logger`.
- `__get_keys` and `_get_keys` (identity/web.py:630-654): the daily `lru_cache` and the JWK-to-PyJWT key conversion are not modelled. Their outcome is the `KeysReply` input.
- `_build_msal_app`, the HTTP cache, and the choice between confidential and public client are not modelled. They only pick which MSAL object answers.
- The `state` and `prompt` arguments of `log_in` are not modelled, because they only pass through to MSAL. `next_link` and the explicitly requested scopes are modelled.
- `force_refresh=None` is modelled as `false`. Both are falsy to MSAL.
- B2C settings, edit-profile and reset-password authorities, framework-specific adapters (Flask, Django, Quart), templates, the `authorization_required` decorator wiring and `raise_http_error` overrides are left out. They hold no decision logic beyond what is modelled.
- Claims are modelled as string values plus `iat`/`exp`. Non-string claim values and an empty claims dict (which is falsy in Python) are not represented.
- `Strings.Lower`: `str.lower()` is modelled for ASCII letters only.
- `IsSpace` covers the characters `str.isspace()` accepts.
- The iteration order of Python sets, used when joining the ungranted or expected scopes into a message, is not modelled. `Absent` lists items in first-occurrence order instead.
- `IdentityApi.ValidateTokenSigning`: the source returns a one-element tuple holding the success dict (trailing comma at identity/api.py:113). The model returns the dict itself.
- `IdentityApi.GetRsaKey`: `jwt.get_unverified_header` at identity/api.py:71 runs outside the `try`, so its own errors propagate. The model takes the already-read `kid` as input. A header without `kid` is modelled as `kid` = `None`, which fails inside the loop as the source does.
- `IdentityApi.GetRsaKey`: the JWKS download at identity/api.py:70 is an input. A download without `keys` is `None`.
- `BearerValidator.ExpectedScopes`: a `ScopeMapping` is a list of pairs, so it can repeat a key, which a Python dict cannot. Only the pairs' order and contents are used, so repeated keys add nothing the model relies on.
- `BearerValidator.Validate`: a failed OIDC discovery while looking up the issuer (identity/web.py:689) is an uncaught `RequestException` in the source. The model reports it as the crash `IssuerDiscoveryFailed`. The corrected validator keeps that behaviour.
- Where the code departs from a reference it cites, the model follows the code:
  - `log_in` raises `ValueError` when the client id is missing (identity/web.py:154), although the comment at identity/web.py:466 says configuration problems are reported rather than raised;
  - a `Bearer` header without a token gets the bare realm challenge rather than the `invalid_request` error that section 3.1 of RFC 6750 (cited at identity/web.py:614) defines for a malformed request. For a header with another scheme the bare challenge is what section 3 of RFC 6750 (cited at identity/web.py:711) asks for, so no departure is involved;
  - challenge parameters are rendered as `name: "value"` rather than the `name="value"` auth-param form of section 3 of RFC 6750, which the code cites at identity/web.py:604.
- Two further modelling notes, with no reference behind them: errors from starting a device-code flow are returned as the provider gave them, and `_is_valid` adds the skew even when a lifetime (`seconds`) is given.
- Exceptions the code does not catch and the reply types do not list:
  - a `kid` header value that is not a string makes PyJWT raise `InvalidTokenError`, which escapes the validator's handler at identity/web.py:698-701;
  - `RSAAlgorithm.from_jwk` raising `InvalidKeyError` for a malformed key (identity/web.py:643) escapes the handlers at identity/web.py:647-650;
  - MSAL's `initiate_auth_code_flow` and `initiate_device_flow` raising `ValueError` for reserved scopes (identity/web.py:158-163) escape `log_in`.

## Findings

| source | as written | input that shows it | evidently intended | confidence | as-written member | corrected member |
|---|---|---|---|---|---|---|
| identity/web.py:718-719 | `authz.split(maxsplit=1)[0]` is read without checking that the split gave anything | an `Authorization` header made only of whitespace, e.g. a single no-break space U+00A0: it is truthy, splits to `[]`, and indexing raises `IndexError` | refuse it like any other unusable header, with the bare 401 realm challenge | high (not executed) | BearerValidator.BlankHeaderCrashes | BearerValidator.FixedRefusesBlankHeader |
| identity/web.py:662 | `jwt.get_unverified_header(token)["kid"]` raises `KeyError`, which the `except` does not catch | a well-formed JWT whose header has no `kid` | treat it as an unknown key: 401 `invalid_token` | high (not executed) | BearerValidator.TokenWithoutKidCrashes | BearerValidator.FixedRefusesTokenWithoutKid |
| identity/web.py:668-701 | only `DecodeError`, `InvalidSignatureError` and `InvalidAudienceError` are caught around `jwt.decode` | an expired token (PyJWT raises `ExpiredSignatureError`, which is none of the three), so it escapes instead of becoming an HTTP error | refuse every token PyJWT rejects with 401 `invalid_token` | medium; depends on PyJWT's exception hierarchy (not executed) | BearerValidator.ExpiredTokenCrashes | BearerValidator.AfterKidFixedAgrees |
| identity/api.py:91 | the error payload key is spelled `"detailsn"` | any JWK set that lacks `keys` or has a key without `kid`: the raised error has no `details` field, unlike every other error of this validator | `"details": "Unable to generate rsa key"` | high (not executed) | IdentityApi.KeyWithoutKidAsWrittenLacksDetails | IdentityApi.KeySearchErrorsAreWellFormed |

How each half is modelled:

- `IdentityApi.ScanKeys`, `IdentityApi.GetRsaKey` and `IdentityApi.ValidateTokenSigning` take the key-search error as a parameter. `RSA_KEY_ERROR_AS_WRITTEN` gives the program as written, and `RSA_KEY_ERROR` gives the corrected one.
- `BearerValidator.ValidateFixed`, with `FixedAgreesWhereOriginalAnswers` and `FixedAnswersEscapes`, closes the three escapes at once. It gives the same answer wherever the original already answers.
