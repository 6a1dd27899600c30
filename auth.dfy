/**
 * The bearer-token authorization pipeline of auth/auth.py: the
 * `Authorization` header parser, the permission check, the choice of the
 * signing key from the key set (JWKS), the mapping of decode outcomes to
 * `AuthError`s, and `requires_auth`, which runs the three stages in order.
 *
 * Python exceptions are values of `Exc`; a stage either returns `Ok` or
 * raises. The key set fetched over HTTP and the jose library are inputs.
 */
module Auth {
  import opened Wrappers
  import opened Json
  import opened Text

  /** `AuthError(error, status_code)` with its `code` and `description` entries. */
  datatype AuthError = AuthError(code: string, description: string, statusCode: int)

  /** What a stage can raise. */
  datatype Exc =
    | AuthFailure(error: AuthError)   // AuthError
    | HttpAbort(code: int)            // flask.abort(code)
    | Unexpected                      // any other exception: KeyError, TypeError, a jose or database error

  datatype Outcome<T> = Ok(value: T) | Raise(exc: Exc)

  const MissingPermissions := AuthError("invalid_claims", "Permissions not included in JWT.", 400)
  const PermissionNotFound := AuthError("unauthorized", "Permission not found.", 403)
  const MalformedHeader := AuthError("invalid_header", "Authorization malformed.", 401)
  const TokenExpired := AuthError("token_expired", "Token expired.", 401)
  const IncorrectClaims := AuthError("invalid_claims", "Incorrect claims. Please, check the audience and issuer.", 401)
  const UnparsableToken := AuthError("invalid_header", "Unable to parse authentication token.", 400)
  const NoMatchingKey := AuthError("invalid_header", "Unable to find the appropriate key.", 400)

  // ---------------------------------------------------------------------
  // get_token_auth_header

  /** A scheme word that Python's `lower()` turns into "bearer". */
  predicate IsBearer(scheme: string)
  {
    Lower(scheme) == "bearer"
  }

  /**
   * The token of an `Authorization` header of the form "Bearer <token>";
   * `authorization` is None when the request carries no such header.
   */
  function GetTokenAuthHeader(authorization: Option<string>): (r: Outcome<string>)
    ensures r.Raise? ==> r.exc == HttpAbort(401)
    ensures authorization.None? ==> r.Raise?
    ensures r.Ok? ==> IsWord(r.value)
  {
    match authorization
    case None => Raise(HttpAbort(401))
    case Some(header) =>
      var parts := Split(header);
      if |parts| != 2 then Raise(HttpAbort(401))
      else if !IsBearer(parts[0]) then Raise(HttpAbort(401))
      else Ok(parts[1])
  }

  lemma BearerIsWord(scheme: string)
    requires IsBearer(scheme)
    ensures IsWord(scheme)
  {
    assert |scheme| == 6;
    forall i | 0 <= i < |scheme| ensures !IsSpace(scheme[i]) {
      assert LowerChar(scheme[i]) == "bearer"[i];
    }
  }

  /**
   * A header made of a bearer scheme and one token, with any whitespace
   * around them and at least some between them, yields exactly that token.
   */
  lemma BearerHeaderAccepted(lead: string, scheme: string, gap: string, token: string, trail: string)
    requires AllSpace(lead) && AllSpace(gap) && gap != [] && AllSpace(trail)
    requires IsBearer(scheme)
    requires IsWord(token)
    ensures GetTokenAuthHeader(Some(lead + scheme + gap + token + trail)) == Ok(token)
  {
    BearerIsWord(scheme);
    var seps, parts := [lead, gap, trail], [scheme, token];
    assert Concat(seps, parts) == lead + scheme + gap + token + trail by {
      assert seps[1..][1..] == [trail] && parts[1..][1..] == [];
      assert Concat([trail], []) == trail;
    }
    SplitConcat(seps, parts);
  }

  /**
   * Conversely, a header that yields a token has exactly that shape: the
   * token is the second of two whitespace-separated words and the first is
   * "bearer" in any letter case.
   */
  lemma AcceptedHeaderShape(header: string, token: string)
    returns (lead: string, scheme: string, gap: string, trail: string)
    requires GetTokenAuthHeader(Some(header)) == Ok(token)
    ensures AllSpace(lead) && AllSpace(gap) && gap != [] && AllSpace(trail)
    ensures IsBearer(scheme)
    ensures header == lead + scheme + gap + token + trail
  {
    var parts := Split(header);
    var seps := SplitSeparators(header);
    lead, scheme, gap, trail := seps[0], parts[0], seps[1], seps[2];
    assert parts[1..] == [token] && parts[1..][1..] == [];
    assert seps[1..][1..] == [trail];
    assert Concat([trail], []) == trail;
  }

  /** A header that is not exactly two words is refused with 401. */
  lemma WrongWordCountRefused(header: string)
    requires |Split(header)| != 2
    ensures GetTokenAuthHeader(Some(header)) == Raise(HttpAbort(401))
  {
  }

  // ---------------------------------------------------------------------
  // check_permissions

  /** Python's `permission in value` for the value of the `permissions` claim. */
  function ContainsPermission(permission: string, value: Json): (r: Outcome<bool>)
    ensures r.Raise? <==> !(value.JList? || value.JStr? || value.JObj?)
    ensures r.Raise? ==> r.exc == Unexpected
    ensures value.JList? ==> r == Ok(JStr(permission) in value.items)
    ensures value.JStr? ==> r == Ok(IsSubstring(permission, value.s))
    ensures value.JObj? ==> r == Ok(permission in value.fields)
  {
    match value
    case JList(items) => Ok(JStr(permission) in items)
    case JStr(s) => Ok(IsSubstring(permission, s))
    case JObj(fields) => Ok(permission in fields)
    case _ => Raise(Unexpected)    // TypeError: argument of type 'int' is not iterable
  }

  /**
   * `check_permissions(permission, payload)`: True, or the AuthError for a
   * payload without a `permissions` claim (checked first) or without the
   * permission in it.
   */
  function CheckPermissions(permission: string, payload: Claims): (r: Outcome<bool>)
    ensures r.Ok? ==> r.value
    ensures "permissions" !in payload <==> r == Raise(AuthFailure(MissingPermissions))
    ensures "permissions" in payload && payload["permissions"].JList? ==>
              (r.Ok? <==> JStr(permission) in payload["permissions"].items)
    ensures "permissions" in payload && payload["permissions"].JList? && JStr(permission) !in payload["permissions"].items ==>
              r == Raise(AuthFailure(PermissionNotFound))
    ensures "permissions" in payload && ContainsPermission(permission, payload["permissions"]) == Ok(true) ==>
              r == Ok(true)
    ensures "permissions" in payload && ContainsPermission(permission, payload["permissions"]) == Ok(false) ==>
              r == Raise(AuthFailure(PermissionNotFound))
    ensures "permissions" in payload && ContainsPermission(permission, payload["permissions"]).Raise? ==>
              r == Raise(Unexpected)
    ensures r.Raise? && r.exc.AuthFailure? ==>
              r.exc.error in {MissingPermissions, PermissionNotFound}
  {
    if "permissions" !in payload then Raise(AuthFailure(MissingPermissions))
    else match ContainsPermission(permission, payload["permissions"])
      case Raise(e) => Raise(e)
      case Ok(found) => if found then Ok(true) else Raise(AuthFailure(PermissionNotFound))
  }

  /** A token that lists the permission among its `permissions` is granted. */
  lemma ListedPermissionGranted(permission: string, payload: Claims, items: seq<Json>, k: nat)
    requires "permissions" in payload && payload["permissions"] == JList(items)
    requires k < |items| && items[k] == JStr(permission)
    ensures CheckPermissions(permission, payload) == Ok(true)
  {
  }

  /** A `permissions` claim that is a string is searched as a substring, as Python's `in` does. */
  lemma StringClaimIsSubstringTest(permission: string, payload: Claims, scopes: string, k: nat)
    requires "permissions" in payload && payload["permissions"] == JStr(scopes)
    requires k + |permission| <= |scopes| && scopes[k..k + |permission|] == permission
    ensures CheckPermissions(permission, payload) == Ok(true)
  {
    SubstringAt(permission, scopes, k);
  }

  // ---------------------------------------------------------------------
  // verify_decode_jwt: choosing the key

  /** A JWKS entry: a JSON object. */
  type Jwk = map<string, Json>

  /** The names copied from a matching key into `rsa_key`. */
  const RsaFields: set<string> := {"kty", "kid", "use", "n", "e"}

  predicate Matches(key: Jwk, kid: Json)
  {
    "kid" in key && key["kid"] == kid
  }

  /** A key the loop cannot get past: `key['kid']` or, on a match, one of the copied fields is missing. */
  predicate Faulty(key: Jwk, kid: Json)
  {
    "kid" !in key || (key["kid"] == kid && !(RsaFields <= key.Keys))
  }

  /** `rsa_key` as built from a matching key. */
  function RsaKeyOf(key: Jwk): (k: Jwk)
    requires RsaFields <= key.Keys
    ensures k.Keys == RsaFields
    ensures forall f :: f in RsaFields ==> k[f] == key[f]
  {
    map["kty" := key["kty"], "kid" := key["kid"], "use" := key["use"], "n" := key["n"], "e" := key["e"]]
  }

  /** The index of the last key whose `kid` is `kid`. */
  function LastMatch(keys: seq<Jwk>, kid: Json): (r: Option<nat>)
    ensures r.Some? ==> r.value < |keys| && Matches(keys[r.value], kid)
    ensures r.Some? ==> forall j :: r.value < j < |keys| ==> !Matches(keys[j], kid)
    ensures r.None? <==> forall j :: 0 <= j < |keys| ==> !Matches(keys[j], kid)
  {
    if keys == [] then None
    else if Matches(keys[|keys| - 1], kid) then Some(|keys| - 1)
    else LastMatch(keys[..|keys| - 1], kid)
  }

  /** Whether some key is faulty. */
  predicate AnyFaulty(keys: seq<Jwk>, kid: Json)
    ensures AnyFaulty(keys, kid) <==> exists j :: 0 <= j < |keys| && Faulty(keys[j], kid)
  {
    if keys == [] then false
    else AnyFaulty(keys[..|keys| - 1], kid) || Faulty(keys[|keys| - 1], kid)
  }

  /**
   * What the key loop of `verify_decode_jwt` ends with: a KeyError if some
   * key is faulty, else the fields of the last matching key, else nothing.
   */
  function KeyChoice(keys: seq<Jwk>, kid: Json): (r: Outcome<Option<Jwk>>)
    ensures r.Raise? <==> exists j :: 0 <= j < |keys| && Faulty(keys[j], kid)
    ensures r.Raise? ==> r.exc == Unexpected
    ensures r == Ok(None) <==>
              forall j :: 0 <= j < |keys| ==> !Faulty(keys[j], kid) && !Matches(keys[j], kid)
    ensures r.Ok? && r.value.Some? ==>
              exists j :: 0 <= j < |keys| && Matches(keys[j], kid) && RsaFields <= keys[j].Keys
                && r.value.value == RsaKeyOf(keys[j])
                && forall j' :: j < j' < |keys| ==> !Matches(keys[j'], kid)
  {
    if AnyFaulty(keys, kid) then Raise(Unexpected)
    else match LastMatch(keys, kid)
      case None => Ok(None)
      case Some(j) => Ok(Some(RsaKeyOf(keys[j])))
  }

  lemma KeyChoiceStep(keys: seq<Jwk>, kid: Json, i: nat)
    requires i < |keys|
    requires !AnyFaulty(keys[..i], kid)
    ensures KeyChoice(keys[..i + 1], kid) ==
              if Faulty(keys[i], kid) then Raise(Unexpected)
              else if Matches(keys[i], kid) then Ok(Some(RsaKeyOf(keys[i])))
              else KeyChoice(keys[..i], kid)
  {
    var ext := keys[..i + 1];
    assert ext[..|ext| - 1] == keys[..i];
    assert ext[|ext| - 1] == keys[i];
    if Faulty(keys[i], kid) {
      assert AnyFaulty(ext, kid);
    } else {
      assert !AnyFaulty(ext, kid);
      if Matches(keys[i], kid) {
        assert LastMatch(ext, kid) == Some(i);
      } else {
        assert LastMatch(ext, kid) == LastMatch(keys[..i], kid);
      }
    }
  }

  /** The key loop itself: scans every key and keeps the fields of the last match. */
  method SelectKey(keys: seq<Jwk>, kid: Json) returns (r: Outcome<Option<Jwk>>)
    ensures r == KeyChoice(keys, kid)
  {
    var rsaKey: Option<Jwk> := None;
    var i := 0;
    while i < |keys|
      invariant 0 <= i <= |keys|
      invariant !AnyFaulty(keys[..i], kid)
      invariant KeyChoice(keys[..i], kid) == Ok(rsaKey)
    {
      var key := keys[i];
      if "kid" !in key || (key["kid"] == kid && !(RsaFields <= key.Keys)) {
        // `key['kid']` or one of the copied fields raises KeyError.
        assert Faulty(keys[i], kid);
        r := Raise(Unexpected);
        return;
      }
      KeyChoiceStep(keys, kid, i);
      if key["kid"] == kid {
        rsaKey := Some(RsaKeyOf(key));
      }
      i := i + 1;
    }
    assert keys[..i] == keys;
    r := Ok(rsaKey);
  }

  // ---------------------------------------------------------------------
  // verify_decode_jwt: decoding

  /** What `jwt.decode` does with a token and a key: return the claims or raise. */
  datatype DecodeResult =
    | Decoded(payload: Claims)
    | Expired          // jwt.ExpiredSignatureError
    | ClaimsRejected   // jwt.JWTClaimsError: wrong audience or issuer
    | DecodeFailed     // any other exception

  /**
   * The jose library: `get_unverified_header` (None when it raises) and
   * `decode` against the expected algorithms, audience and issuer.
   */
  datatype Jose = Jose(unverifiedHeader: string -> Option<Claims>, decode: (string, Jwk) -> DecodeResult)

  /** The `try`/`except` around `jwt.decode`. */
  function DecodeOutcome(d: DecodeResult): (r: Outcome<Claims>)
    ensures r.Ok? <==> d.Decoded?
    ensures r.Ok? ==> r.value == d.payload
    ensures d.Expired? ==> r == Raise(AuthFailure(TokenExpired))
    ensures d.ClaimsRejected? ==> r == Raise(AuthFailure(IncorrectClaims))
    ensures d.DecodeFailed? ==> r == Raise(AuthFailure(UnparsableToken))
  {
    match d
    case Decoded(payload) => Ok(payload)
    case Expired => Raise(AuthFailure(TokenExpired))
    case ClaimsRejected => Raise(AuthFailure(IncorrectClaims))
    case DecodeFailed => Raise(AuthFailure(UnparsableToken))
  }

  /** `verify_decode_jwt(token)` with the fetched key set `keys`. */
  function Verify(token: string, keys: seq<Jwk>, jose: Jose): (r: Outcome<Claims>)
    ensures r.Ok? ==>
              var h := jose.unverifiedHeader(token);
              && h.Some? && "kid" in h.value
              && KeyChoice(keys, h.value["kid"]).Ok?
              && KeyChoice(keys, h.value["kid"]).value.Some?
              && jose.decode(token, KeyChoice(keys, h.value["kid"]).value.value) == Decoded(r.value)
    // get_unverified_header raising, and a KeyError in the key loop, leave the function
    ensures jose.unverifiedHeader(token).None? ==> r == Raise(Unexpected)
    ensures var h := jose.unverifiedHeader(token);
            h.Some? && "kid" in h.value && KeyChoice(keys, h.value["kid"]).Raise? ==> r == Raise(Unexpected)
    ensures var h := jose.unverifiedHeader(token);
            h.Some? && "kid" !in h.value ==> r == Raise(AuthFailure(MalformedHeader))
    ensures var h := jose.unverifiedHeader(token);
            h.Some? && "kid" in h.value && KeyChoice(keys, h.value["kid"]) == Ok(None) ==>
              r == Raise(AuthFailure(NoMatchingKey))
    // with a selected key, the outcome is exactly what jwt.decode gives with it
    ensures var h := jose.unverifiedHeader(token);
            h.Some? && "kid" in h.value && KeyChoice(keys, h.value["kid"]).Ok? && KeyChoice(keys, h.value["kid"]).value.Some? ==>
              r == DecodeOutcome(jose.decode(token, KeyChoice(keys, h.value["kid"]).value.value))
  {
    match jose.unverifiedHeader(token)
    case None => Raise(Unexpected)
    case Some(header) =>
      if "kid" !in header then Raise(AuthFailure(MalformedHeader))
      else match KeyChoice(keys, header["kid"])
        case Raise(e) => Raise(e)
        case Ok(None) => Raise(AuthFailure(NoMatchingKey))
        case Ok(Some(rsaKey)) => DecodeOutcome(jose.decode(token, rsaKey))
  }

  method VerifyDecodeJwt(token: string, keys: seq<Jwk>, jose: Jose) returns (r: Outcome<Claims>)
    ensures r == Verify(token, keys, jose)
  {
    var header := jose.unverifiedHeader(token);
    if header.None? {
      return Raise(Unexpected);
    }
    if "kid" !in header.value {
      return Raise(AuthFailure(MalformedHeader));
    }
    var rsaKey := SelectKey(keys, header.value["kid"]);
    match rsaKey
    case Raise(e) =>
      r := Raise(e);
    case Ok(None) =>
      r := Raise(AuthFailure(NoMatchingKey));
    case Ok(Some(k)) =>
      r := DecodeOutcome(jose.decode(token, k));
  }

  /** A token header without `kid` is malformed, whatever the keys and the decoder. */
  lemma NoKidIsMalformed(token: string, keys: seq<Jwk>, jose: Jose)
    requires jose.unverifiedHeader(token).Some? && "kid" !in jose.unverifiedHeader(token).value
    ensures Verify(token, keys, jose) == Raise(AuthFailure(MalformedHeader))
  {
  }

  /**
   * When no key matches, the answer is "Unable to find the appropriate key."
   * and the decoder is never consulted: any other decoder gives the same.
   */
  lemma NoKeyNoDecode(token: string, keys: seq<Jwk>, header: string -> Option<Claims>,
                      decode1: (string, Jwk) -> DecodeResult, decode2: (string, Jwk) -> DecodeResult)
    requires header(token).Some? && "kid" in header(token).value
    requires forall j :: 0 <= j < |keys| ==> "kid" in keys[j] && keys[j]["kid"] != header(token).value["kid"]
    ensures Verify(token, keys, Jose(header, decode1)) == Raise(AuthFailure(NoMatchingKey))
    ensures Verify(token, keys, Jose(header, decode2)) == Verify(token, keys, Jose(header, decode1))
  {
  }

  // ---------------------------------------------------------------------
  // requires_auth

  /**
   * The payload `requires_auth(permission)` hands to the wrapped handler,
   * or the first exception raised by the header check, the verification
   * or the permission check, in that order.
   */
  function Authorize(permission: string, authorization: Option<string>, keys: seq<Jwk>, jose: Jose): (r: Outcome<Claims>)
    ensures r.Ok? ==>
              && GetTokenAuthHeader(authorization).Ok?
              && Verify(GetTokenAuthHeader(authorization).value, keys, jose) == r
              && CheckPermissions(permission, r.value) == Ok(true)
    ensures GetTokenAuthHeader(authorization).Raise? ==> r == Raise(HttpAbort(401))
    ensures GetTokenAuthHeader(authorization).Ok? && Verify(GetTokenAuthHeader(authorization).value, keys, jose).Raise? ==>
              r == Verify(GetTokenAuthHeader(authorization).value, keys, jose)
    ensures GetTokenAuthHeader(authorization).Ok? && Verify(GetTokenAuthHeader(authorization).value, keys, jose).Ok? &&
            CheckPermissions(permission, Verify(GetTokenAuthHeader(authorization).value, keys, jose).value).Raise? ==>
              r == Raise(CheckPermissions(permission, Verify(GetTokenAuthHeader(authorization).value, keys, jose).value).exc)
  {
    match GetTokenAuthHeader(authorization)
    case Raise(e) => Raise(e)
    case Ok(token) =>
      match Verify(token, keys, jose)
      case Raise(e) => Raise(e)
      case Ok(payload) =>
        match CheckPermissions(permission, payload)
        case Raise(e) => Raise(e)
        case Ok(_) => Ok(payload)
  }

  method RequiresAuth(permission: string, authorization: Option<string>, keys: seq<Jwk>, jose: Jose)
    returns (r: Outcome<Claims>)
    ensures r == Authorize(permission, authorization, keys, jose)
  {
    var token := GetTokenAuthHeader(authorization);
    if token.Raise? {
      return Raise(token.exc);
    }
    var payload := VerifyDecodeJwt(token.value, keys, jose);
    if payload.Raise? {
      return Raise(payload.exc);
    }
    var granted := CheckPermissions(permission, payload.value);
    if granted.Raise? {
      return Raise(granted.exc);
    }
    r := Ok(payload.value);
  }

  /**
   * The handler runs only when all three stages succeed, and it receives the
   * verified payload.
   */
  lemma AuthorizedOnlyIfAllStagesPass(permission: string, authorization: Option<string>, keys: seq<Jwk>, jose: Jose)
    ensures var r := Authorize(permission, authorization, keys, jose);
            r.Ok? <==>
              && GetTokenAuthHeader(authorization).Ok?
              && Verify(GetTokenAuthHeader(authorization).value, keys, jose).Ok?
              && CheckPermissions(permission, Verify(GetTokenAuthHeader(authorization).value, keys, jose).value).Ok?
    ensures var r := Authorize(permission, authorization, keys, jose);
            r.Ok? ==> r.value == Verify(GetTokenAuthHeader(authorization).value, keys, jose).value
  {
  }

  /** A bad or missing header stops the pipeline with 401 before the key set or the token is looked at. */
  lemma HeaderCheckedFirst(permission: string, authorization: Option<string>, keys: seq<Jwk>, jose: Jose)
    requires GetTokenAuthHeader(authorization).Raise?
    ensures Authorize(permission, authorization, keys, jose) == Raise(HttpAbort(401))
  {
  }

  /** A verification failure is reported as such, whatever permission is asked for. */
  lemma VerificationBeforePermission(p1: string, p2: string, authorization: Option<string>, keys: seq<Jwk>, jose: Jose)
    requires GetTokenAuthHeader(authorization).Ok?
    requires Verify(GetTokenAuthHeader(authorization).value, keys, jose).Raise?
    ensures Authorize(p1, authorization, keys, jose) == Authorize(p2, authorization, keys, jose)
    ensures Authorize(p1, authorization, keys, jose) == Verify(GetTokenAuthHeader(authorization).value, keys, jose)
  {
  }

  /**
   * A valid token whose `permissions` list lacks the permission is refused
   * with 403 `unauthorized`.
   */
  lemma MissingScopeForbidden(permission: string, authorization: Option<string>, keys: seq<Jwk>, jose: Jose)
    requires GetTokenAuthHeader(authorization).Ok?
    requires var v := Verify(GetTokenAuthHeader(authorization).value, keys, jose);
             && v.Ok? && "permissions" in v.value && v.value["permissions"].JList?
             && JStr(permission) !in v.value["permissions"].items
    ensures Authorize(permission, authorization, keys, jose) == Raise(AuthFailure(PermissionNotFound))
  {
  }

  /** An expired token is refused with 401 `token_expired` whatever permission is asked for. */
  lemma ExpiredTokenRefused(permission: string, authorization: Option<string>, keys: seq<Jwk>, jose: Jose)
    requires GetTokenAuthHeader(authorization).Ok?
    requires var token := GetTokenAuthHeader(authorization).value;
             var h := jose.unverifiedHeader(token);
             && h.Some? && "kid" in h.value
             && KeyChoice(keys, h.value["kid"]).Ok? && KeyChoice(keys, h.value["kid"]).value.Some?
             && jose.decode(token, KeyChoice(keys, h.value["kid"]).value.value) == Expired
    ensures Authorize(permission, authorization, keys, jose) == Raise(AuthFailure(TokenExpired))
  {
  }
}
