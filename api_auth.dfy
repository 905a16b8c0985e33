/**
 * `Auth` of identity/api.py: a framework-agnostic bearer-token validator. It
 * extracts the token from the `Authorization` header, checks audience and
 * issuer strings, picks the signing key from a JWK set by `kid`, and maps
 * the outcome of signature verification to error codes. Every failure is an
 * `AuthenticationError` carrying a `code`/`details` payload and status 401.
 *
 * Fetching the JWK set, reading the token's unverified header and verifying
 * the signature are not modelled: their outcomes are inputs.
 */
module IdentityApi {
  import opened Wrappers
  import opened Strings

  const UNAUTHORIZED: int := 401
  const DEFAULT_KEYWORD: string := "bearer"
  const MICROSOFT_LOGIN: string := "https://login.microsoftonline.com/"
  const ISSUER_VERSION: string := "/v2"

  /** The error the validator raises: a payload and an HTTP status. */
  datatype AuthenticationError = AuthenticationError(error: map<string, string>, status: int)

  /** A payload a client can read: it has a `code` and `details`, and the status is 401. */
  predicate WellFormed(e: AuthenticationError)
  {
    "code" in e.error && "details" in e.error && e.status == UNAUTHORIZED
  }

  function Failure(code: string, details: string): (e: AuthenticationError)
    ensures WellFormed(e) && e.error["code"] == code && e.error["details"] == details
  {
    AuthenticationError(map["code" := code, "details" := details], UNAUTHORIZED)
  }

  const MISSING_HEADER: AuthenticationError :=
    Failure("missing_authentication_header", "Expected authorization header but couldn't find it.")
  const MALFORMED_HEADER: AuthenticationError := Failure("invalid_header", "Authorization header is malformed.")

  function WrongKeyword(keyword: string): AuthenticationError
  {
    Failure("invalid_header", "Authorization header must start with " + keyword)
  }

  // ---------------------------------------------------------------------------
  // get_token

  /**
   * `get_token(request, keyword)` given the `Authorization` header: the
   * header must split on whitespace into exactly the keyword (compared
   * case-insensitively) and one token, which is returned.
   */
  function GetToken(authorization: Option<string>, keyword: string): (r: Result<string, AuthenticationError>)
    ensures r.Err? ==> WellFormed(r.error)
    ensures !Truthy(authorization) ==> r == Err(MISSING_HEADER)
    ensures Truthy(authorization) && |Words(authorization.value)| != 2 ==> r == Err(MALFORMED_HEADER)
    ensures (Truthy(authorization) && |Words(authorization.value)| == 2
             && Lower(Words(authorization.value)[0]) != Lower(keyword)) ==> r == Err(WrongKeyword(keyword))
    ensures r.Ok? <==>
              Truthy(authorization) && |Words(authorization.value)| == 2
              && Lower(Words(authorization.value)[0]) == Lower(keyword)
    ensures r.Ok? ==> r.value == Words(authorization.value)[1] && IsWord(r.value)
  {
    if !Truthy(authorization) then Err(MISSING_HEADER)
    else
      var sections := Words(authorization.value);
      if |sections| <= 1 || |sections| > 2 then Err(MALFORMED_HEADER)
      else if Lower(sections[0]) != Lower(keyword) then Err(WrongKeyword(keyword))
      else Ok(sections[1])
  }

  /** A header built from the keyword, in any letter case, and a token gives that token back. */
  lemma GetTokenRoundTrip(scheme: string, token: string, keyword: string)
    requires IsWord(scheme) && IsWord(token)
    requires Lower(scheme) == Lower(keyword)
    ensures GetToken(Some(scheme + " " + token), keyword) == Ok(token)
  {
    WordsJoinRoundTrip([scheme, token]);
    assert Join([scheme, token], " ") == scheme + " " + token;
  }

  /** With the default keyword, `Bearer <token>` gives the token back. */
  lemma DefaultKeywordAcceptsBearer(token: string)
    requires IsWord(token)
    ensures GetToken(Some("Bearer " + token), DEFAULT_KEYWORD) == Ok(token)
  {
    assert Lower("Bearer") == Lower(DEFAULT_KEYWORD) by {
      assert Lower("Bearer") == "bearer";
    }
    assert IsWord("Bearer");
    GetTokenRoundTrip("Bearer", token, DEFAULT_KEYWORD);
    assert "Bearer" + " " + token == "Bearer " + token;
  }

  /** A header with extra words is malformed even when it starts with the keyword. */
  lemma GetTokenRejectsExtraWords(scheme: string, token: string, extra: string, keyword: string)
    requires IsWord(scheme) && IsWord(token) && IsWord(extra)
    ensures GetToken(Some(Join([scheme, token, extra], " ")), keyword) == Err(MALFORMED_HEADER)
  {
    var header := Join([scheme, token, extra], " ");
    WordsJoinRoundTrip([scheme, token, extra]);
    assert |Words(header)| == 3;
    assert header != "" by {
      assert scheme != [] && header[..|scheme|] == scheme;
    }
  }

  // ---------------------------------------------------------------------------
  // is_valid_aud and is_valid_issuer

  /** `is_valid_aud(aud, app_id_uris)`: the audience is one of the app's ID URIs. */
  function IsValidAud(aud: string, appIdUris: seq<string>): (r: bool)
    ensures r <==> exists i :: 0 <= i < |appIdUris| && appIdUris[i] == aud
  {
    aud in appIdUris
  }

  /**
   * `is_valid_issuer(iss, tenant_id, multitenant)`: any Microsoft login
   * issuer of version 2 for a multi-tenant app, the one issuer of the
   * app's tenant otherwise.
   */
  function IsValidIssuer(iss: string, tenantId: string, multitenant: bool): (r: bool)
    ensures multitenant ==> (r <==> IsPrefix(MICROSOFT_LOGIN, iss) && IsSuffix(ISSUER_VERSION, iss))
    ensures !multitenant ==> (r <==> iss == MICROSOFT_LOGIN + tenantId + ISSUER_VERSION)
  {
    if multitenant then IsPrefix(MICROSOFT_LOGIN, iss) && IsSuffix(ISSUER_VERSION, iss)
    else iss == MICROSOFT_LOGIN + tenantId + ISSUER_VERSION
  }

  /** An issuer a single-tenant app accepts is accepted by every multi-tenant app. */
  lemma SingleTenantIssuerIsMultitenant(iss: string, tenantId: string, otherTenant: string)
    requires IsValidIssuer(iss, tenantId, false)
    ensures IsValidIssuer(iss, otherTenant, true)
  {
    assert iss == MICROSOFT_LOGIN + (tenantId + ISSUER_VERSION);
    assert iss[..|MICROSOFT_LOGIN|] == MICROSOFT_LOGIN;
    assert iss == (MICROSOFT_LOGIN + tenantId) + ISSUER_VERSION;
    assert iss[|iss| - |ISSUER_VERSION|..] == ISSUER_VERSION;
  }

  /** A multi-tenant app accepts the issuer of every tenant. */
  lemma MultitenantAcceptsEveryTenant(tenantId: string, anyTenant: string)
    ensures IsValidIssuer(MICROSOFT_LOGIN + tenantId + ISSUER_VERSION, anyTenant, true)
  {
    SingleTenantIssuerIsMultitenant(MICROSOFT_LOGIN + tenantId + ISSUER_VERSION, tenantId, anyTenant);
  }

  // ---------------------------------------------------------------------------
  // get_rsa_key

  /** The JWK members an RSA key keeps. */
  predicate HasRsaFields(key: map<string, string>)
  {
    "kty" in key && "kid" in key && "use" in key && "n" in key && "e" in key
  }

  /** The key restricted to `kty`, `kid`, `use`, `n` and `e`. */
  function Restrict(key: map<string, string>): (k: map<string, string>)
    requires HasRsaFields(key)
    ensures k.Keys == {"kty", "kid", "use", "n", "e"}
    ensures forall f :: f in k ==> f in key && k[f] == key[f]
  {
    map["kty" := key["kty"], "kid" := key["kid"], "use" := key["use"], "n" := key["n"], "e" := key["e"]]
  }

  /**
   * The error of a failed key search, with the payload key `details` a
   * client reads. The key search takes its error as a parameter: the source
   * raises `RSA_KEY_ERROR_AS_WRITTEN`, the corrected program this one.
   */
  const RSA_KEY_ERROR: AuthenticationError := Failure("invalid_header", "Unable to generate rsa key")

  /** The same error as the source spells it: its payload key is `detailsn`. */
  const RSA_KEY_ERROR_AS_WRITTEN: AuthenticationError :=
    AuthenticationError(map["code" := "invalid_header", "detailsn" := "Unable to generate rsa key"], UNAUTHORIZED)

  /** As written, the key-search error carries no `details`: a client reading it finds none. */
  lemma RsaKeyErrorAsWrittenLacksDetails()
    ensures !WellFormed(RSA_KEY_ERROR_AS_WRITTEN)
    ensures "details" !in RSA_KEY_ERROR_AS_WRITTEN.error
  {
    assert RSA_KEY_ERROR_AS_WRITTEN.error.Keys == {"code", "detailsn"};
  }

  /** The key search's error, as corrected, is well formed like every other error of the validator. */
  lemma RsaKeyErrorIsWellFormed()
    ensures WellFormed(RSA_KEY_ERROR)
    ensures RSA_KEY_ERROR.error["details"] == "Unable to generate rsa key"
  {
  }

  /** One step of the search: a key without `kid`, or a header without one, is an error; a matching key replaces the result. */
  function ScanStep(found: map<string, string>, key: map<string, string>, kid: Option<string>, keyError: AuthenticationError)
    : Result<map<string, string>, AuthenticationError>
  {
    if "kid" !in key || kid.None? then Err(keyError)
    else if key["kid"] != kid.value then Ok(found)
    else if !HasRsaFields(key) then Err(keyError)
    else Ok(Restrict(key))
  }

  /**
   * The search over `keys` in order, for the token header's `kid` (`None`
   * when the header has none); every failure inside the `try` becomes
   * `keyError`.
   */
  function ScanKeys(keys: seq<map<string, string>>, kid: Option<string>, keyError: AuthenticationError)
    : (r: Result<map<string, string>, AuthenticationError>)
    ensures r.Err? ==> r.error == keyError
    ensures r.Ok? ==> r.value == map[] || r.value.Keys == {"kty", "kid", "use", "n", "e"}
    decreases |keys|
  {
    if keys == [] then Ok(map[])
    else match ScanKeys(keys[..|keys| - 1], kid, keyError)
      case Err(e) => Err(e)
      case Ok(found) => ScanStep(found, keys[|keys| - 1], kid, keyError)
  }

  /** The key `keys[j]` matches the `kid` and no later key does. */
  ghost predicate LastMatch(keys: seq<map<string, string>>, kid: string, j: int)
    requires forall i :: 0 <= i < |keys| ==> "kid" in keys[i]
  {
    && 0 <= j < |keys| && keys[j]["kid"] == kid
    && forall i :: j < i < |keys| ==> keys[i]["kid"] != kid
  }

  /** A successful search saw a `kid` on every key, and a `kid` in the token header unless there were no keys. */
  lemma {:induction false} ScanKeysSawEveryKid(keys: seq<map<string, string>>, kid: Option<string>, keyError: AuthenticationError)
    requires ScanKeys(keys, kid, keyError).Ok?
    ensures forall i :: 0 <= i < |keys| ==> "kid" in keys[i]
    ensures keys != [] ==> kid.Some?
    decreases |keys|
  {
    if keys != [] {
      var init := keys[..|keys| - 1];
      ScanKeysSawEveryKid(init, kid, keyError);
      assert forall i :: 0 <= i < |init| ==> keys[i] == init[i];
    }
  }

  /** A successful search over keys returns `{}` exactly when no key carries the token's `kid`. */
  lemma {:induction false} ScanKeysEmptyIffNoMatch(keys: seq<map<string, string>>, kid: string, keyError: AuthenticationError)
    requires ScanKeys(keys, Some(kid), keyError).Ok?
    ensures forall i :: 0 <= i < |keys| ==> "kid" in keys[i]
    ensures ScanKeys(keys, Some(kid), keyError).value == map[] <==> forall i :: 0 <= i < |keys| ==> keys[i]["kid"] != kid
    decreases |keys|
  {
    ScanKeysSawEveryKid(keys, Some(kid), keyError);
    if keys != [] {
      var init := keys[..|keys| - 1];
      ScanKeysEmptyIffNoMatch(init, kid, keyError);
      assert forall i :: 0 <= i < |init| ==> keys[i] == init[i];
    }
  }

  /** A non-empty result is the last key carrying the token's `kid`, restricted to its RSA members. */
  lemma {:induction false} ScanKeysFindsLastMatch(keys: seq<map<string, string>>, kid: string, keyError: AuthenticationError)
    requires ScanKeys(keys, Some(kid), keyError).Ok? && ScanKeys(keys, Some(kid), keyError).value != map[]
    ensures forall i :: 0 <= i < |keys| ==> "kid" in keys[i]
    ensures exists j :: LastMatch(keys, kid, j) && HasRsaFields(keys[j])
                        && ScanKeys(keys, Some(kid), keyError).value == Restrict(keys[j])
    decreases |keys|
  {
    ScanKeysSawEveryKid(keys, Some(kid), keyError);
    var init := keys[..|keys| - 1];
    var last := keys[|keys| - 1];
    assert ScanKeys(init, Some(kid), keyError).Ok?;
    assert forall i :: 0 <= i < |init| ==> keys[i] == init[i];
    if last["kid"] == kid {
      assert LastMatch(keys, kid, |keys| - 1);
    } else {
      ScanKeysFindsLastMatch(init, kid, keyError);
      var j :| LastMatch(init, kid, j) && HasRsaFields(init[j]) && ScanKeys(init, Some(kid), keyError).value == Restrict(init[j]);
      assert LastMatch(keys, kid, j);
    }
  }

  /** Once the search meets an error it keeps it, whatever keys follow. */
  lemma {:induction false} ScanKeysErrorPersists(keys: seq<map<string, string>>, n: nat, kid: Option<string>, keyError: AuthenticationError)
    requires n <= |keys|
    requires ScanKeys(keys[..n], kid, keyError).Err?
    ensures ScanKeys(keys, kid, keyError) == Err(keyError)
    decreases |keys| - n
  {
    if n < |keys| {
      assert keys[..n + 1][..n] == keys[..n];
      ScanKeysErrorPersists(keys, n + 1, kid, keyError);
    } else {
      assert keys[..n] == keys;
    }
  }

  /**
   * When every key carries a `kid` and every key with the token's `kid` has
   * the RSA members, the search succeeds, and it finds a key exactly when
   * one carries that `kid`.
   */
  lemma {:induction false} ScanKeysFindsPresentKey(keys: seq<map<string, string>>, kid: string, keyError: AuthenticationError)
    requires forall i :: 0 <= i < |keys| ==> "kid" in keys[i]
    requires forall i :: 0 <= i < |keys| && keys[i]["kid"] == kid ==> HasRsaFields(keys[i])
    ensures ScanKeys(keys, Some(kid), keyError).Ok?
    ensures ScanKeys(keys, Some(kid), keyError).value != map[] <==> exists i :: 0 <= i < |keys| && keys[i]["kid"] == kid
    decreases |keys|
  {
    if keys != [] {
      var init := keys[..|keys| - 1];
      assert forall i :: 0 <= i < |init| ==> init[i] == keys[i];
      ScanKeysFindsPresentKey(init, kid, keyError);
    }
    ScanKeysEmptyIffNoMatch(keys, kid, keyError);
  }

  /**
   * As written, a JWK set holding a key without `kid` makes the search raise
   * the error spelled with `detailsn`, which carries no `details`.
   */
  lemma KeyWithoutKidAsWrittenLacksDetails(keys: seq<map<string, string>>, kid: Option<string>)
    requires keys != [] && "kid" !in keys[0]
    ensures ScanKeys(keys, kid, RSA_KEY_ERROR_AS_WRITTEN) == Err(RSA_KEY_ERROR_AS_WRITTEN)
    ensures !WellFormed(ScanKeys(keys, kid, RSA_KEY_ERROR_AS_WRITTEN).error)
  {
    assert keys[..1][..0] == [];
    ScanKeysErrorPersists(keys, 1, kid, RSA_KEY_ERROR_AS_WRITTEN);
    RsaKeyErrorAsWrittenLacksDetails();
  }

  /** With the corrected error, every failure of the search is well formed. */
  lemma KeySearchErrorsAreWellFormed(keys: seq<map<string, string>>, kid: Option<string>)
    ensures ScanKeys(keys, kid, RSA_KEY_ERROR).Err? ==> WellFormed(ScanKeys(keys, kid, RSA_KEY_ERROR).error)
    ensures ScanKeys(keys, kid, RSA_KEY_ERROR).Err? ==>
              ScanKeys(keys, kid, RSA_KEY_ERROR).error.error["details"] == "Unable to generate rsa key"
  {
    RsaKeyErrorIsWellFormed();
  }

  /**
   * `get_rsa_key(authority, token)` given the downloaded JWK set (`None`
   * when it has no `keys`) and the token header's `kid`, raising `keyError`
   * for every failure of the search.
   */
  method GetRsaKey(jwks: Option<seq<map<string, string>>>, kid: Option<string>, keyError: AuthenticationError)
    returns (r: Result<map<string, string>, AuthenticationError>)
    ensures jwks.None? ==> r == Err(keyError)
    ensures jwks.Some? ==> r == ScanKeys(jwks.value, kid, keyError)
  {
    if jwks.None? {
      return Err(keyError);
    }
    var keys := jwks.value;
    var rsaKey: map<string, string> := map[];
    var i := 0;
    while i < |keys|
      invariant 0 <= i <= |keys|
      invariant ScanKeys(keys[..i], kid, keyError) == Ok(rsaKey)
    {
      var key := keys[i];
      assert keys[..i + 1][..i] == keys[..i];
      if "kid" !in key || kid.None? {
        ScanKeysErrorPersists(keys, i + 1, kid, keyError);
        return Err(keyError);
      }
      if key["kid"] == kid.value {
        if !HasRsaFields(key) {
          ScanKeysErrorPersists(keys, i + 1, kid, keyError);
          return Err(keyError);
        }
        rsaKey := Restrict(key);
      }
      i := i + 1;
    }
    assert keys[..i] == keys;
    r := Ok(rsaKey);
  }

  // ---------------------------------------------------------------------------
  // validate_token_signing

  /** The outcome of `jwt.decode(token, rsa_key, algorithms=["RS256"])`. */
  datatype JoseReply = JoseDecoded | JoseExpired | JoseClaimsRejected | JoseOtherFailure

  const VALID_SIGNATURE: map<string, string> := map["code" := "valid_signature", "details" := "Token singature is valid"]
  const TOKEN_EXPIRED: AuthenticationError := Failure("token_expired", "Token is expired")
  const INVALID_CLAIMS: AuthenticationError := Failure("invalid_claims", "incorrect claims. Wrong algorithm used")
  const PARSE_ERROR: AuthenticationError := Failure("invalid_header", "Error parsing token.")
  const INVALID_RSA_KEY: AuthenticationError := Failure("invalid_header", "Invalid RSA key")

  /**
   * `validate_token_signing(authority, token)`: find the key, then verify
   * the signature with it. No key is "Invalid RSA key"; the decode failures
   * map to `token_expired`, `invalid_claims` and `invalid_header`. A failed
   * key search propagates `keyError` unchanged; every other error is well
   * formed, so all are exactly when `keyError` is.
   */
  method ValidateTokenSigning(jwks: Option<seq<map<string, string>>>, kid: Option<string>, decode: JoseReply,
                              keyError: AuthenticationError)
    returns (r: Result<map<string, string>, AuthenticationError>)
    ensures r.Err? && r.error != keyError ==> WellFormed(r.error)
    ensures jwks.None? ==> r == Err(keyError)
    ensures jwks.Some? && ScanKeys(jwks.value, kid, keyError).Err? ==> r == Err(keyError)
    ensures r.Ok? <==> jwks.Some? && ScanKeys(jwks.value, kid, keyError).Ok? && ScanKeys(jwks.value, kid, keyError).value != map[]
                       && decode.JoseDecoded?
    ensures r.Ok? ==> r.value == VALID_SIGNATURE
    ensures jwks.Some? && ScanKeys(jwks.value, kid, keyError) == Ok(map[]) ==> r == Err(INVALID_RSA_KEY)
    ensures jwks.Some? && ScanKeys(jwks.value, kid, keyError).Ok? && ScanKeys(jwks.value, kid, keyError).value != map[] ==>
              r == match decode
                   case JoseDecoded => Ok(VALID_SIGNATURE)
                   case JoseExpired => Err(TOKEN_EXPIRED)
                   case JoseClaimsRejected => Err(INVALID_CLAIMS)
                   case JoseOtherFailure => Err(PARSE_ERROR)
  {
    var rsaKey := GetRsaKey(jwks, kid, keyError);
    if rsaKey.Err? {
      return Err(rsaKey.error);
    }
    if rsaKey.value == map[] {
      return Err(INVALID_RSA_KEY);
    }
    match decode {
      case JoseDecoded => r := Ok(VALID_SIGNATURE);
      case JoseExpired => r := Err(TOKEN_EXPIRED);
      case JoseClaimsRejected => r := Err(INVALID_CLAIMS);
      case JoseOtherFailure => r := Err(PARSE_ERROR);
    }
  }

  /** A JWK set with no key for the token's `kid` gives "Invalid RSA key" whatever the token holds. */
  lemma {:induction false} NoMatchingKeyIsInvalidRsaKey(keys: seq<map<string, string>>, kid: string, keyError: AuthenticationError)
    requires forall i :: 0 <= i < |keys| ==> "kid" in keys[i] && keys[i]["kid"] != kid
    ensures ScanKeys(keys, Some(kid), keyError) == Ok(map[])
    decreases |keys|
  {
    if keys != [] {
      var init := keys[..|keys| - 1];
      assert forall i :: 0 <= i < |init| ==> init[i] == keys[i];
      NoMatchingKeyIsInvalidRsaKey(init, kid, keyError);
    }
  }
}
