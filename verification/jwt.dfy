/** The lab05 token service. The JWS machinery (section 7.1 of RFC 7515, HS256
    per section 3.2 of RFC 7518) is abstract: `Jws` supplies signing, decoding
    of the unverified header and claims, and signature checking, related by the
    soundness condition `Jws.Sound`. The flow of golang-jwt v4's
    `ParseWithClaims` around those primitives is modelled in `Parse`. Time is
    integer seconds supplied by the caller. */
module JwtService {
  import opened Wrappers

  /** Token lifetime: 24 hours, in seconds. */
  const TokenTTL: int := 24 * 60 * 60

  datatype Alg = HS256 | OtherAlg(name: string)

  /** The service's claims: the subject plus the registered `exp`, `iat` and
      `nbf` claims (sections 4.1.4, 4.1.6 and 4.1.5 of RFC 7519), each of
      which a token may omit. */
  datatype Claims = Claims(
    userId: int,
    email: string,
    expiresAt: Option<int>,
    issuedAt: Option<int>,
    notBefore: Option<int>)

  /** Abstract JWS primitives:
      - `sign(claims, key)`: the compact HS256 token for `claims`;
      - `decode(token)`: the header's algorithm and the claims, without any
        signature check, or `None` if the token is malformed;
      - `verify(token, key)`: the HMAC-SHA256 signature of `token` checks
        under `key`. */
  datatype Jws = Jws(
    sign: (Claims, string) -> string,
    decode: string -> Option<(Alg, Claims)>,
    verify: (string, string) -> bool)
  {
    /** What the model assumes of the primitives: a signed token is non-empty,
        decodes to HS256 and the signed claims, and verifies under its key. */
    ghost predicate Sound() {
      forall c, key :: sign(c, key) != "" && decode(sign(c, key)) == Some((HS256, c)) && verify(sign(c, key), key)
    }
  }

  datatype Service = Service(secretKey: string)

  datatype TokenError =
    | EmptySecretKey                              // "empty secretkey"
    | ValidationError(field: string, msg: string) // NewValidationError(field, msg)
    | ErrEmptyToken
    | ErrInvalidToken
    | ErrTokenExpired
    | ErrInvalidClaims

  /** `NewJWTService`: refuses the empty key, otherwise holds exactly the key. */
  function NewJWTService(secretKey: string): (r: Result<Service, TokenError>)
    ensures r.Err? <==> secretKey == ""
    ensures r.Err? ==> r.error == EmptySecretKey
    ensures r.Ok? ==> r.value.secretKey == secretKey
  {
    if secretKey == "" then Err(EmptySecretKey) else Ok(Service(secretKey))
  }

  /** The claims `GenerateToken` signs when called at time `now`. */
  function IssuedClaims(userId: int, email: string, now: int): Claims {
    Claims(userId, email, Some(now + TokenTTL), Some(now), None)
  }

  /** `GenerateToken`: a non-positive user id is refused first, then an empty
      email; otherwise the HS256 token of the subject, issued `now` and
      expiring 24 hours later. */
  function GenerateToken(svc: Service, jws: Jws, userId: int, email: string, now: int): (r: Result<string, TokenError>)
    ensures userId <= 0 ==> r == Err(ValidationError("user_id", "must be positive"))
    ensures userId > 0 && email == "" ==> r == Err(ValidationError("email", "cannot be empty"))
    ensures r.Ok? <==> userId > 0 && email != ""
  {
    if userId <= 0 then Err(ValidationError("user_id", "must be positive"))
    else if email == "" then Err(ValidationError("email", "cannot be empty"))
    else Ok(jws.sign(IssuedClaims(userId, email, now), svc.secretKey))
  }

  // ---------------------------------------------------------------------------
  // The library's parse, as golang-jwt v4 runs it

  /** The bits of a jwt.ValidationError the model distinguishes. */
  datatype Flag = Malformed | Unverifiable | SignatureInvalid | Expired | UsedBeforeIssued | NotValidYet

  /** `RegisteredClaims.Valid` at time `now`: `exp` must lie after `now`,
      `iat` and `nbf` must not; an absent claim is not checked. */
  function ClaimFlags(c: Claims, now: int): (flags: set<Flag>)
    ensures Expired in flags <==> c.expiresAt.Some? && now >= c.expiresAt.value
    ensures UsedBeforeIssued in flags <==> c.issuedAt.Some? && now < c.issuedAt.value
    ensures NotValidYet in flags <==> c.notBefore.Some? && now < c.notBefore.value
    ensures flags <= {Expired, UsedBeforeIssued, NotValidYet}
  {
    (if c.expiresAt.Some? && now >= c.expiresAt.value then {Expired} else {})
    + (if c.issuedAt.Some? && now < c.issuedAt.value then {UsedBeforeIssued} else {})
    + (if c.notBefore.Some? && now < c.notBefore.value then {NotValidYet} else {})
  }

  datatype Parsed = Valid(claims: Claims) | Invalid(flags: set<Flag>)

  /** `jwt.ParseWithClaims` with the service's key function: a malformed token
      stops at once; a header naming any algorithm but HS256 is refused by the
      key function; otherwise the claim checks and the signature check both run
      and every failure is collected. */
  function Parse(jws: Jws, token: string, key: string, now: int): (r: Parsed)
    ensures r.Valid? ==> jws.decode(token) == Some((HS256, r.claims))
    ensures r.Valid? <==>
      && jws.decode(token).Some? && jws.decode(token).value.0 == HS256
      && jws.verify(token, key) && ClaimFlags(jws.decode(token).value.1, now) == {}
    ensures r.Invalid? ==> r.flags != {}
    ensures r.Invalid? ==>
      (Expired in r.flags <==>
        jws.decode(token).Some? && jws.decode(token).value.0 == HS256 && Expired in ClaimFlags(jws.decode(token).value.1, now))
  {
    match jws.decode(token)
    case None => Invalid({Malformed})
    case Some((alg, c)) =>
      if alg != HS256 then Invalid({Unverifiable})
      else
        var flags := ClaimFlags(c, now) + (if jws.verify(token, key) then {} else {SignatureInvalid});
        if flags == {} then Valid(c) else Invalid(flags)
  }

  /** `ValidateToken`. `now` is the clock during the library's parse and
      `recheck` the clock at the second `claims.Valid()` call. An expired-flag
      in either check gives `ErrTokenExpired`; any other parse failure gives
      `ErrInvalidToken`, any other recheck failure `ErrInvalidClaims`. */
  function ValidateToken(svc: Service, jws: Jws, token: string, now: int, recheck: int): (r: Result<Claims, TokenError>)
    ensures r == Err(ErrEmptyToken) <==> token == ""
    ensures r.Ok? ==>
      && jws.decode(token) == Some((HS256, r.value))
      && jws.verify(token, svc.secretKey)
      && ClaimFlags(r.value, now) == {} && ClaimFlags(r.value, recheck) == {}
    ensures r.Ok? <==>
      && token != ""
      && jws.decode(token).Some? && jws.decode(token).value.0 == HS256
      && jws.verify(token, svc.secretKey)
      && ClaimFlags(jws.decode(token).value.1, now) == {}
      && ClaimFlags(jws.decode(token).value.1, recheck) == {}
    ensures token != "" && jws.decode(token).None? ==> r == Err(ErrInvalidToken)
    ensures r == Err(ErrTokenExpired) <==>
      && token != ""
      && jws.decode(token).Some? && jws.decode(token).value.0 == HS256
      && var c := jws.decode(token).value.1;
         || Expired in ClaimFlags(c, now)
         || (ClaimFlags(c, now) == {} && jws.verify(token, svc.secretKey) && Expired in ClaimFlags(c, recheck))
    ensures r == Err(ErrInvalidClaims) <==>
      && token != ""
      && jws.decode(token).Some? && jws.decode(token).value.0 == HS256
      && jws.verify(token, svc.secretKey)
      && var c := jws.decode(token).value.1;
         && ClaimFlags(c, now) == {}
         && ClaimFlags(c, recheck) != {} && Expired !in ClaimFlags(c, recheck)
    ensures r == Err(ErrInvalidToken) <==>
      && token != ""
      && (|| jws.decode(token).None?
          || jws.decode(token).value.0 != HS256
          || var c := jws.decode(token).value.1;
               && Expired !in ClaimFlags(c, now)
               && (ClaimFlags(c, now) != {} || !jws.verify(token, svc.secretKey)))
    ensures r.Err? ==> r.error in {ErrEmptyToken, ErrInvalidToken, ErrTokenExpired, ErrInvalidClaims}
  {
    if token == "" then Err(ErrEmptyToken)
    else match Parse(jws, token, svc.secretKey, now)
      case Invalid(flags) => if Expired in flags then Err(ErrTokenExpired) else Err(ErrInvalidToken)
      case Valid(c) =>
        var later := ClaimFlags(c, recheck);
        if later == {} then Ok(c)
        else if Expired in later then Err(ErrTokenExpired)
        else Err(ErrInvalidClaims)
  }

  /** A token whose header names another algorithm is never accepted, and is
      reported as invalid. */
  lemma OtherAlgorithmRejected(svc: Service, jws: Jws, token: string, now: int, recheck: int, name: string, c: Claims)
    requires token != ""
    requires jws.decode(token) == Some((OtherAlg(name), c))
    ensures ValidateToken(svc, jws, token, now, recheck) == Err(ErrInvalidToken)
  {
  }

  /** A well-formed HS256 token whose `exp` has passed is reported as expired,
      not as invalid, whatever its signature. */
  lemma ExpiredReportedAsExpired(svc: Service, jws: Jws, token: string, now: int, recheck: int, c: Claims)
    requires token != ""
    requires jws.decode(token) == Some((HS256, c))
    requires c.expiresAt.Some? && now >= c.expiresAt.value
    ensures ValidateToken(svc, jws, token, now, recheck) == Err(ErrTokenExpired)
  {
  }

  /** A well-formed HS256 token whose signature does not check, and which has
      not expired, is reported as invalid. */
  lemma BadSignatureIsInvalid(svc: Service, jws: Jws, token: string, now: int, recheck: int, c: Claims)
    requires token != ""
    requires jws.decode(token) == Some((HS256, c))
    requires !jws.verify(token, svc.secretKey)
    requires !(c.expiresAt.Some? && now >= c.expiresAt.value)
    ensures ValidateToken(svc, jws, token, now, recheck) == Err(ErrInvalidToken)
  {
  }

  /** A token that passes the library's parse but whose `exp` has passed by
      the service's second claims check is reported as expired. */
  lemma ExpiredAtRecheck(svc: Service, jws: Jws, token: string, now: int, recheck: int, c: Claims)
    requires token != ""
    requires jws.decode(token) == Some((HS256, c))
    requires jws.verify(token, svc.secretKey) && ClaimFlags(c, now) == {}
    requires c.expiresAt.Some? && recheck >= c.expiresAt.value
    ensures ValidateToken(svc, jws, token, now, recheck) == Err(ErrTokenExpired)
  {
  }

  /** A generated token decodes to the subject it was issued for, with an
      expiry 24 hours after its issue time. */
  lemma GeneratedClaims(svc: Service, jws: Jws, userId: int, email: string, now: int)
    requires jws.Sound()
    requires GenerateToken(svc, jws, userId, email, now).Ok?
    ensures var t := GenerateToken(svc, jws, userId, email, now).value;
      && jws.decode(t).Some?
      && jws.decode(t).value.0 == HS256
      && jws.decode(t).value.1.userId == userId
      && jws.decode(t).value.1.email == email
      && jws.decode(t).value.1.issuedAt == Some(now)
      && jws.decode(t).value.1.expiresAt == Some(now + TokenTTL)
  {
    assert jws.decode(jws.sign(IssuedClaims(userId, email, now), svc.secretKey)) == Some((HS256, IssuedClaims(userId, email, now)));
  }

  /** Round trip: a token generated at `issued` and validated with the same
      service within its 24 hours yields the subject it was issued for. */
  lemma {:induction false} GenerateThenValidate(svc: Service, jws: Jws, userId: int, email: string, issued: int, now: int, recheck: int)
    requires jws.Sound()
    requires GenerateToken(svc, jws, userId, email, issued).Ok?
    requires issued <= now < issued + TokenTTL
    requires issued <= recheck < issued + TokenTTL
    ensures var r := ValidateToken(svc, jws, GenerateToken(svc, jws, userId, email, issued).value, now, recheck);
      r.Ok? && r.value.userId == userId && r.value.email == email
  {
    var c := IssuedClaims(userId, email, issued);
    var t := jws.sign(c, svc.secretKey);
    assert t != "" && jws.decode(t) == Some((HS256, c)) && jws.verify(t, svc.secretKey);
    assert ClaimFlags(c, now) == {};
    assert ClaimFlags(c, recheck) == {};
  }

  /** Once the 24 hours have passed, the same token is reported as expired. */
  lemma {:induction false} GenerateThenExpire(svc: Service, jws: Jws, userId: int, email: string, issued: int, now: int, recheck: int)
    requires jws.Sound()
    requires GenerateToken(svc, jws, userId, email, issued).Ok?
    requires now >= issued + TokenTTL
    ensures ValidateToken(svc, jws, GenerateToken(svc, jws, userId, email, issued).value, now, recheck) == Err(ErrTokenExpired)
  {
    var c := IssuedClaims(userId, email, issued);
    var t := jws.sign(c, svc.secretKey);
    assert t != "" && jws.decode(t) == Some((HS256, c));
  }
}
