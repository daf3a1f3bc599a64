/** The token service: issues JSON Web Tokens (RFC 7519) signed with HMAC
    SHA-256 (section 3.2 of RFC 7518) and resolves the `Authorization`
    header of a request back to the claims it carries.

    The library's cryptography and wire format are abstract: a signature is
    the free term `Mac(key, alg, claims)` (two signatures agree only when
    key, algorithm and claims all agree), and the compact serialisation is
    a `Codec` whose parser inverts its serialiser. The secret and the
    current time are parameters. */
module Auth {
  import opened Wrappers

  type Bytes = seq<bv8>

  /** The issuer every token of this service names. */
  const Issuer: string := "Conduit"

  /** How long the standard claims stay valid: 24 hours, in seconds. */
  const Lifetime: int := 24 * 60 * 60

  /** The prefix a client puts before the token in the `Authorization` header. */
  const TokenPrefix: string := "Token "

  /** The registered claims the service sets: `exp` (Unix seconds) and `iss`. */
  datatype StandardClaims = StandardClaims(expiresAt: int, issuer: string)

  /** The payload: the standard claims plus the subject's ID and username. */
  datatype Claims = Claims(standard: StandardClaims, userId: int, username: string)

  /** The signing methods the library knows; `Unsecured` is `none`. */
  datatype Alg =
    | HS256 | HS384 | HS512
    | RS256 | RS384 | RS512
    | PS256 | PS384 | PS512
    | ES256 | ES384 | ES512
    | Unsecured

  /** `token.Method.(*jwt.SigningMethodHMAC)` succeeds: only the three
      HMAC methods pass, among them the HS256 that `NewToken` signs with;
      the RSA, PSS, ECDSA and `none` methods do not. */
  predicate IsHmac(alg: Alg)
    ensures IsHmac(alg) ==> alg == HS256 || alg == HS384 || alg == HS512
    ensures alg == HS256 ==> IsHmac(alg)
    ensures alg == Unsecured ==> !IsHmac(alg)
  {
    alg.HS256? || alg.HS384? || alg.HS512?
  }

  /** A signature over the header and payload, as a free term. */
  datatype Signature = Mac(key: Bytes, alg: Alg, claims: Claims)

  /** The signature that `key` and `alg` produce over `claims`. */
  function Sign(key: Bytes, alg: Alg, claims: Claims): Signature
  {
    Mac(key, alg, claims)
  }

  /** A parsed token: the header's algorithm, the payload, the signature. */
  datatype Token = Token(alg: Alg, claims: Claims, signature: Signature)

  /** The library's compact serialisation and its parser. */
  datatype Codec = Codec(serialize: Token -> string, parse: string -> Option<Token>)

  /** Parsing a serialised token gives the token back. */
  ghost predicate Faithful(codec: Codec)
  {
    forall t: Token {:trigger codec.serialize(t)} :: codec.parse(codec.serialize(t)) == Some(t)
  }

  /** The process-wide signing secret and the library's codec. */
  datatype Crypto = Crypto(secret: Bytes, codec: Codec)

  /** A JWT manager: the standard claims shared by every token it issues. */
  datatype Jwt = Jwt(claims: StandardClaims)

  /** Why a request or token is refused. `Rejected` carries the two
      validation bits the library can set together. */
  datatype AuthError =
    | HeaderEmpty
    | Malformed
    | UnexpectedSigningMethod(alg: Alg)
    | Rejected(expired: bool, signatureInvalid: bool)

  /** The library's expiry check: a zero `exp` never expires, otherwise the
      claims hold up to and including the second `exp`. */
  predicate VerifyExpiresAt(c: StandardClaims, now: int)
    ensures c.expiresAt == 0 ==> VerifyExpiresAt(c, now)
    ensures now <= c.expiresAt ==> VerifyExpiresAt(c, now)
    ensures c.expiresAt != 0 && c.expiresAt < now ==> !VerifyExpiresAt(c, now)
  {
    c.expiresAt == 0 || now <= c.expiresAt
  }

  /** `NewClaims`: the given standard claims with the subject added. */
  function NewClaims(standard: StandardClaims, id: int, username: string): (c: Claims)
    ensures c.standard == standard && c.userId == id && c.username == username
  {
    Claims(standard, id, username)
  }

  /** `NewJWT`, fixed at construction time `now`. */
  function NewJwt(now: int): (j: Jwt)
    ensures j.claims.issuer == Issuer
    ensures j.claims.expiresAt == now + Lifetime
  {
    Jwt(StandardClaims(now + Lifetime, Issuer))
  }

  /** The token `NewToken` serialises: HS256 over the manager's standard
      claims with the subject added, signed with the secret. */
  function IssuedToken(cr: Crypto, j: Jwt, id: int, username: string): Token
  {
    var claims := NewClaims(j.claims, id, username);
    Token(HS256, claims, Sign(cr.secret, HS256, claims))
  }

  /** `NewToken`. */
  function NewToken(cr: Crypto, j: Jwt, id: int, username: string): (s: string)
    ensures Faithful(cr.codec) ==> cr.codec.parse(s) == Some(IssuedToken(cr, j, id, username))
  {
    cr.codec.serialize(IssuedToken(cr, j, id, username))
  }

  /** `strings.TrimPrefix`: removes one leading `prefix`, if there is one. */
  function TrimPrefix(s: string, prefix: string): (r: string)
    ensures prefix <= s ==> prefix + r == s
    ensures !(prefix <= s) ==> r == s
  {
    if prefix <= s then s[|prefix|..] else s
  }

  /** `GetToken`, given the value of the `Authorization` header (empty
      when the header is absent). */
  function GetToken(authorization: string): (r: Result<string, AuthError>)
    ensures r.Failure? <==> authorization == ""
    ensures r.Failure? ==> r.error == HeaderEmpty
    ensures r.Success? && TokenPrefix <= authorization ==> TokenPrefix + r.value == authorization
    ensures r.Success? && !(TokenPrefix <= authorization) ==> r.value == authorization
  {
    if authorization == "" then Failure(HeaderEmpty)
    else Success(TrimPrefix(authorization, TokenPrefix))
  }

  /** The key function accepts `t` and its signature is the secret's over
      its own algorithm and claims. */
  predicate Authentic(cr: Crypto, t: Token)
    ensures Authentic(cr, t) <==>
              && IsHmac(t.alg)
              && t.signature.key == cr.secret
              && t.signature.alg == t.alg
              && t.signature.claims == t.claims
  {
    IsHmac(t.alg) && t.signature == Sign(cr.secret, t.alg, t.claims)
  }

  /** `validateToken` at time `now`. */
  function ValidateToken(cr: Crypto, now: int, s: string): (r: Result<Claims, AuthError>)
    ensures cr.codec.parse(s).None? ==> r == Failure(Malformed)
    ensures cr.codec.parse(s).Some? && !IsHmac(cr.codec.parse(s).value.alg) ==>
              r == Failure(UnexpectedSigningMethod(cr.codec.parse(s).value.alg))
    ensures r.Success? <==> cr.codec.parse(s).Some? && Authentic(cr, cr.codec.parse(s).value) &&
                            VerifyExpiresAt(cr.codec.parse(s).value.claims.standard, now)
    ensures r.Success? ==> r.value == cr.codec.parse(s).value.claims
  {
    match cr.codec.parse(s)
    case None => Failure(Malformed)
    case Some(t) =>
      if !IsHmac(t.alg) then Failure(UnexpectedSigningMethod(t.alg))
      else
        var expired := !VerifyExpiresAt(t.claims.standard, now);
        var forged := t.signature != Sign(cr.secret, t.alg, t.claims);
        if expired || forged then Failure(Rejected(expired, forged))
        else Success(t.claims)
  }

  /** `GetClaims`: the claims of a valid token, or why it is not. */
  function GetClaims(cr: Crypto, now: int, s: string): (r: Result<Claims, AuthError>)
    ensures r == ValidateToken(cr, now, s)
    ensures r.Success? ==> cr.codec.parse(s).Some? && r.value == cr.codec.parse(s).value.claims
  {
    ValidateToken(cr, now, s)
  }

  /** `CheckRequest`: the claims of the token in the `Authorization` header. */
  function CheckRequest(cr: Crypto, now: int, authorization: string): (r: Result<Claims, AuthError>)
    ensures authorization == "" ==> r == Failure(HeaderEmpty)
    ensures authorization != "" ==> r == GetClaims(cr, now, GetToken(authorization).value)
  {
    match GetToken(authorization)
    case Failure(e) => Failure(e)
    case Success(token) => GetClaims(cr, now, token)
  }

  /** The header a client sends: one prefix is removed, and only one. */
  lemma GetTokenStripsPrefix(t: string)
    ensures GetToken(TokenPrefix + t) == Success(t)
  {
    assert TokenPrefix <= TokenPrefix + t;
    assert (TokenPrefix + t)[|TokenPrefix|..] == t;
  }

  /** A non-empty header without the prefix is taken as the token itself. */
  lemma GetTokenKeepsBareToken(authorization: string)
    requires authorization != "" && !(TokenPrefix <= authorization)
    ensures GetToken(authorization) == Success(authorization)
  {
  }

  /** Round trip: an issued token yields exactly the claims it was issued
      with while they have not expired, and is rejected as expired, with a
      good signature, afterwards. */
  lemma IssuedTokenRoundTrip(cr: Crypto, j: Jwt, now: int, id: int, username: string)
    requires Faithful(cr.codec)
    ensures VerifyExpiresAt(j.claims, now) ==>
              GetClaims(cr, now, NewToken(cr, j, id, username)) == Success(NewClaims(j.claims, id, username))
    ensures !VerifyExpiresAt(j.claims, now) ==>
              GetClaims(cr, now, NewToken(cr, j, id, username)) == Failure(Rejected(true, false))
  {
    assert cr.codec.parse(NewToken(cr, j, id, username)) == Some(IssuedToken(cr, j, id, username));
  }

  /** A token issued at `issuedAt` by a fresh manager is accepted, with the
      subject it was issued for, until 24 hours have passed. */
  lemma FreshTokenAccepted(cr: Crypto, issuedAt: int, now: int, id: int, username: string)
    requires Faithful(cr.codec)
    requires now <= issuedAt + Lifetime
    ensures var r := GetClaims(cr, now, NewToken(cr, NewJwt(issuedAt), id, username));
            && r.Success?
            && r.value.userId == id && r.value.username == username
            && r.value.standard == StandardClaims(issuedAt + Lifetime, Issuer)
  {
    IssuedTokenRoundTrip(cr, NewJwt(issuedAt), now, id, username);
  }

  /** After its 24 hours a token of a fresh manager is refused as expired. */
  lemma StaleTokenRejected(cr: Crypto, issuedAt: int, now: int, id: int, username: string)
    requires Faithful(cr.codec)
    requires issuedAt + Lifetime != 0 && now > issuedAt + Lifetime
    ensures GetClaims(cr, now, NewToken(cr, NewJwt(issuedAt), id, username)) == Failure(Rejected(true, false))
  {
    IssuedTokenRoundTrip(cr, NewJwt(issuedAt), now, id, username);
  }

  /** Every token one manager issues carries the same expiry and issuer,
      whoever it is issued for. */
  lemma OneManagerOneWindow(cr: Crypto, j: Jwt, id1: int, name1: string, id2: int, name2: string)
    requires Faithful(cr.codec)
    ensures
      var t1 := cr.codec.parse(NewToken(cr, j, id1, name1));
      var t2 := cr.codec.parse(NewToken(cr, j, id2, name2));
      && t1.Some? && t2.Some?
      && t1.value.claims.standard == t2.value.claims.standard == j.claims
  {
  }

  /** A token whose header names a non-HMAC method is refused whatever its
      claims and signature. */
  lemma ForeignMethodRejected(cr: Crypto, now: int, s: string, t: Token)
    requires cr.codec.parse(s) == Some(t) && !IsHmac(t.alg)
    ensures CheckRequest(cr, now, TokenPrefix + s) == Failure(UnexpectedSigningMethod(t.alg))
  {
    GetTokenStripsPrefix(s);
  }

  /** A token whose signature was made over other content (other claims,
      another method, another key) is refused as forged. */
  lemma TamperedTokenRejected(cr: Crypto, now: int, s: string, t: Token,
                              key: Bytes, alg: Alg, signed: Claims)
    requires cr.codec.parse(s) == Some(t) && IsHmac(t.alg)
    requires t.signature == Sign(key, alg, signed)
    requires (key, alg, signed) != (cr.secret, t.alg, t.claims)
    ensures GetClaims(cr, now, s).Failure?
    ensures GetClaims(cr, now, s).error.Rejected? && GetClaims(cr, now, s).error.signatureInvalid
  {
  }

  /** The whole request path: the header a client builds from an issued
      token resolves to the subject it was issued for while it is valid. */
  lemma CheckRequestRoundTrip(cr: Crypto, j: Jwt, now: int, id: int, username: string)
    requires Faithful(cr.codec)
    requires VerifyExpiresAt(j.claims, now)
    ensures CheckRequest(cr, now, TokenPrefix + NewToken(cr, j, id, username)) ==
            Success(NewClaims(j.claims, id, username))
  {
    GetTokenStripsPrefix(NewToken(cr, j, id, username));
    IssuedTokenRoundTrip(cr, j, now, id, username);
  }
}
