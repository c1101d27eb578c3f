/** The two kinds of signed session claims the backend issues with `jsonwebtoken`.
    A claim carries the Kakao `providerId` and an expiry in whole seconds. The
    cryptography is not modelled: the text of a token is turned back into its claim
    by a `decode` oracle, and a claim that names the wrong secret stands for a
    signature that does not check. */
module Tokens {
  import opened Common

  /** `JWT_SECRET` signs refresh tokens, `JWT_SECRET2` signs access tokens. */
  datatype Secret = JwtSecret | JwtSecret2

  /** The payload `{id: providerId}` with the `exp` claim jsonwebtoken adds. */
  datatype Token = Token(secret: Secret, id: string, exp: int)

  /** `expiresIn: '30d'` and `expiresIn: '1h'`, in seconds. */
  const RefreshTtl: nat := 30 * 24 * 60 * 60
  const AccessTtl: nat := 60 * 60

  /** `jwt.sign({id}, secret, {expiresIn: ttl})` at clock `nowMs` (milliseconds):
      the issue time is the clock in whole seconds. */
  function Sign(secret: Secret, id: string, nowMs: nat, ttl: nat): (t: Token)
    ensures t.secret == secret && t.id == id
    ensures t.exp * 1000 <= nowMs + ttl * 1000 < t.exp * 1000 + 1000
  {
    Token(secret, id, nowMs / 1000 + ttl)
  }

  /** `jwt.verify(text, secret).id`: None stands for the exception verify throws
      on a malformed token, a signature made with another secret, or an expired
      claim (expired once the clock in whole seconds reaches `exp`). */
  function Verify(decode: string -> Option<Token>, text: string, secret: Secret, nowMs: nat): (r: Option<string>)
    ensures r.Some? <==> decode(text).Some? && decode(text).value.secret == secret
                         && nowMs / 1000 < decode(text).value.exp
    ensures r.Some? ==> r.value == decode(text).value.id
  {
    match decode(text)
    case None => None
    case Some(t) => if t.secret == secret && nowMs / 1000 < t.exp then Some(t.id) else None
  }

  /** A token signed at `signedAt` with time-to-live `ttl` verifies with its own
      secret exactly while fewer than `ttl` whole seconds have passed since the
      second it was signed in, and never verifies with the other secret. */
  lemma SignedTokenLifetime(decode: string -> Option<Token>, text: string, secret: Secret,
                            id: string, signedAt: nat, ttl: nat, nowMs: nat)
    requires decode(text) == Some(Sign(secret, id, signedAt, ttl))
    ensures Verify(decode, text, secret, nowMs) == Some(id) <==> nowMs / 1000 < signedAt / 1000 + ttl
    ensures Verify(decode, text, secret, nowMs).None? <==> nowMs / 1000 >= signedAt / 1000 + ttl
    ensures forall other: Secret :: other != secret ==> Verify(decode, text, other, nowMs) == None
  {
  }
}
