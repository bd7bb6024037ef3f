/**
 * JSON Web Tokens (RFC 7519) as the core uses them.  Signing and signature checking are
 * cryptography done by a library: they are the oracle functions of a JwtService value.  What
 * the core decides on top of them, the expiry check that `ignoreExpiration: false` keeps on,
 * is modelled here.
 */
module Jwt {
  import opened Wrappers
  import opened Exceptions

  /** The payload the application signs: `{ userId }`. */
  datatype TokenPayload = TokenPayload(userId: string)

  /** What a token with a good signature decodes to; `exp` is in seconds since the epoch. */
  datatype Claims = Claims(payload: TokenPayload, exp: Option<int>)

  /**
   * `sign` produces a token for a payload (the configured secret and lifetime are inside it);
   * `decode` gives the claims of a token whose signature checks out under the secret, and None
   * for a malformed token or a bad signature.
   */
  datatype JwtService = JwtService(sign: TokenPayload -> string, decode: string -> Option<Claims>)

  /** jsonwebtoken's clock: whole seconds, `Math.floor(Date.now() / 1000)`. */
  function NowSeconds(nowMs: int): int {
    nowMs / 1000
  }

  /**
   * `jwtService.verify(token)` with expiry checked: a token is expired once the clock has
   * reached its `exp`.
   */
  function Verify(jwt: JwtService, token: string, nowMs: int): (r: Result<TokenPayload, Exception>)
    ensures r.Ok? <==> jwt.decode(token).Some? &&
                       (jwt.decode(token).value.exp.Some? ==> NowSeconds(nowMs) < jwt.decode(token).value.exp.value)
    ensures r.Ok? ==> r.value == jwt.decode(token).value.payload
    ensures jwt.decode(token).None? ==> r == Err(JwtError("JsonWebTokenError"))
    ensures jwt.decode(token).Some? && !r.Ok? ==> r == Err(JwtError("TokenExpiredError"))
  {
    match jwt.decode(token)
    case None => Err(JwtError("JsonWebTokenError"))
    case Some(claims) =>
      if claims.exp.Some? && NowSeconds(nowMs) >= claims.exp.value then Err(JwtError("TokenExpiredError"))
      else Ok(claims.payload)
  }

  /** Expiry is enforced: once the clock reaches `exp`, no later time accepts the token. */
  lemma ExpiredStaysExpired(jwt: JwtService, token: string, nowMs: int, laterMs: int)
    requires jwt.decode(token).Some? && jwt.decode(token).value.exp.Some?
    requires NowSeconds(nowMs) >= jwt.decode(token).value.exp.value
    requires nowMs <= laterMs
    ensures Verify(jwt, token, laterMs) == Err(JwtError("TokenExpiredError"))
  {
  }
}
