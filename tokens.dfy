/** The token and password helpers of the auth library: two classes of
    signed, expiring JSON Web Tokens (an access token valid 15 minutes and a
    refresh token valid 7 days, each signed with its own secret) and salted
    password hashing. Signing and hashing are modelled abstractly: a token
    records which secret signed it, and a digest records what it is a digest
    of. Expiry follows the `exp` claim of section 4.1.4 of RFC 7519, checked
    as the token library does: a token is expired once the current second
    reaches `exp`, and the signature is checked before the expiry. */
module Tokens {
  import opened Common

  type Uid = nat

  /** JWT_SECRET and JWT_REFRESH_SECRET: two different signing secrets. */
  datatype SigningKey = AccessSecret | RefreshSecret

  /** The claims payload `{ uid, email, role }`. */
  datatype Claims = Claims(uid: Uid, email: string, role: string)

  /** A cookie value: a token signed by one of the secrets, with its issue
      time and expiry in seconds, or any other text. */
  datatype Token =
    | Jwt(key: SigningKey, claims: Claims, iat: int, exp: int)
    | Malformed(text: string)

  datatype VerifyError = TokenExpiredError | JsonWebTokenError

  /** `expiresIn: '15m'` and `expiresIn: '7d'`, in seconds. */
  const ACCESS_TTL: nat := 15 * 60
  const REFRESH_TTL: nat := 7 * 24 * 60 * 60

  /** The clock is read in milliseconds (`Date.now()`); tokens carry
      whole seconds. */
  function Seconds(nowMs: nat): nat {
    nowMs / 1000
  }

  function Sign(key: SigningKey, claims: Claims, nowMs: nat, ttl: nat): Token {
    Jwt(key, claims, Seconds(nowMs), Seconds(nowMs) + ttl)
  }

  function GenerateAccessToken(claims: Claims, nowMs: nat): (t: Token)
    ensures t.Jwt? && t.key == AccessSecret && t.claims == claims
    ensures t.exp - t.iat == 900
  {
    Sign(AccessSecret, claims, nowMs, ACCESS_TTL)
  }

  function GenerateRefreshToken(claims: Claims, nowMs: nat): (t: Token)
    ensures t.Jwt? && t.key == RefreshSecret && t.claims == claims
    ensures t.exp - t.iat == 604800
  {
    Sign(RefreshSecret, claims, nowMs, REFRESH_TTL)
  }

  /** `jwt.verify(token, secret)`: an invalid signature is reported before
      an expired one. */
  function Verify(t: Token, key: SigningKey, nowMs: nat): (r: Result)
    ensures r.Ok? <==> t.Jwt? && t.key == key && Seconds(nowMs) < t.exp
    ensures r.Ok? ==> r.claims == t.claims
    ensures r == Failed(TokenExpiredError) <==> t.Jwt? && t.key == key && t.exp <= Seconds(nowMs)
  {
    if !t.Jwt? || t.key != key then Failed(JsonWebTokenError)
    else if t.exp <= Seconds(nowMs) then Failed(TokenExpiredError)
    else Ok(t.claims)
  }

  datatype Result = Ok(claims: Claims) | Failed(error: VerifyError)

  function VerifyAccessToken(t: Token, nowMs: nat): Result {
    Verify(t, AccessSecret, nowMs)
  }

  function VerifyRefreshToken(t: Token, nowMs: nat): Result {
    Verify(t, RefreshSecret, nowMs)
  }

  /** An access token verifies to its claims until 15 minutes after the
      second it was issued in, and is expired from then on. */
  lemma AccessTokenLifetime(c: Claims, issuedMs: nat, nowMs: nat)
    ensures Seconds(nowMs) < Seconds(issuedMs) + ACCESS_TTL ==>
              VerifyAccessToken(GenerateAccessToken(c, issuedMs), nowMs) == Ok(c)
    ensures Seconds(nowMs) >= Seconds(issuedMs) + ACCESS_TTL ==>
              VerifyAccessToken(GenerateAccessToken(c, issuedMs), nowMs) == Failed(TokenExpiredError)
  {
  }

  /** A refresh token verifies to its claims for 7 days, then is expired. */
  lemma RefreshTokenLifetime(c: Claims, issuedMs: nat, nowMs: nat)
    ensures Seconds(nowMs) < Seconds(issuedMs) + REFRESH_TTL ==>
              VerifyRefreshToken(GenerateRefreshToken(c, issuedMs), nowMs) == Ok(c)
    ensures Seconds(nowMs) >= Seconds(issuedMs) + REFRESH_TTL ==>
              VerifyRefreshToken(GenerateRefreshToken(c, issuedMs), nowMs) == Failed(TokenExpiredError)
  {
  }

  /** The two secrets keep the two classes apart: a refresh token never
      passes as an access token and vice versa, whatever the clock says. */
  lemma TokenClassesSeparate(c: Claims, issuedMs: nat, nowMs: nat)
    ensures VerifyAccessToken(GenerateRefreshToken(c, issuedMs), nowMs) == Failed(JsonWebTokenError)
    ensures VerifyRefreshToken(GenerateAccessToken(c, issuedMs), nowMs) == Failed(JsonWebTokenError)
  {
  }

  /** Signing is deterministic: the same claims signed in the same second
      give the same token, so two logins within one second issue equal
      refresh tokens. */
  lemma SameSecondSameToken(c: Claims, t1: nat, t2: nat)
    requires Seconds(t1) == Seconds(t2)
    ensures GenerateRefreshToken(c, t1) == GenerateRefreshToken(c, t2)
    ensures GenerateAccessToken(c, t1) == GenerateAccessToken(c, t2)
  {
  }

  /** A bcrypt digest: the cost factor (12), the salt drawn when hashing,
      and the password it was computed from, standing for the digest. */
  datatype PasswordHash = Bcrypt(cost: nat, salt: nat, source: string)

  const BCRYPT_COST: nat := 12

  /** `bcrypt.hash(password, 12)`; the random salt is a parameter. */
  function HashPassword(password: string, salt: nat): PasswordHash {
    Bcrypt(BCRYPT_COST, salt, password)
  }

  /** `bcrypt.compare(password, hash)`. */
  function ComparePassword(password: string, hash: PasswordHash): bool {
    hash.source == password
  }

  /** A password matches a digest made from it, whatever the salt, and no
      other password does. */
  lemma CompareHash(p: string, q: string, salt: nat)
    ensures ComparePassword(p, HashPassword(p, salt))
    ensures ComparePassword(q, HashPassword(p, salt)) <==> q == p
  {
  }
}
