/**
 * The token issuer and verifier (jsonwebtoken in the source). A signed token
 * is modelled by its claims; the signature is modelled by the set of tokens
 * the gateway has signed with its secret, so a token verifies exactly when it
 * is one of those and has not expired. The clock is a parameter, in seconds.
 */
module Tokens {
  import opened Wrappers
  import opened Records

  /** The claims of a token: `id`, the optional `purpose`, `iat` and `exp`. */
  datatype Token = Token(subject: Id, purpose: Option<string>, issuedAt: int, expiresAt: int)

  /** The only purpose the source ever writes into a token. */
  const POST_REGISTRATION := "post-registration"

  /** Lifetimes in seconds: `expiresIn` of `'5m'`, `'1h'` and `'15m'`. */
  const POST_REGISTRATION_TTL: nat := 300
  const SESSION_TTL: nat := 3600
  const RESET_TTL: nat := 900

  /** `jwt.sign(payload, JWT_SECRET, { expiresIn: ttl })` at clock time `now`. */
  function Sign(subject: Id, purpose: Option<string>, ttl: nat, now: int): (t: Token)
    ensures t.subject == subject && t.purpose == purpose
    ensures t.issuedAt == now && t.expiresAt - t.issuedAt == ttl
  {
    Token(subject, purpose, now, now + ttl)
  }

  /**
   * `jwt.verify(token, JWT_SECRET)`: the claims when the token was signed with
   * the secret and the clock is still before `exp`; the purpose is not checked.
   */
  function Verify(issued: set<Token>, t: Token, now: int): (r: Option<Token>)
    ensures r.Some? <==> t in issued && now < t.expiresAt
    ensures r.Some? ==> r.value == t
  {
    if t in issued && now < t.expiresAt then Some(t) else None
  }

  /** A token the caller holds verifies afterwards exactly while `now < iat + ttl`, and gives back its subject and purpose. */
  lemma SignThenVerify(issued: set<Token>, subject: Id, purpose: Option<string>, ttl: nat, now: int, later: int)
    ensures var t := Sign(subject, purpose, ttl, now);
      var r := Verify(issued + {t}, t, later);
      (r.Some? <==> later < now + ttl) &&
      (r.Some? ==> r.value.subject == subject && r.value.purpose == purpose && r.value.expiresAt - r.value.issuedAt == ttl)
  {
  }

  /** Signing more tokens never invalidates one: there is no revocation. */
  lemma VerifyMonotone(issued: set<Token>, more: set<Token>, t: Token, now: int)
    requires Verify(issued, t, now).Some?
    ensures Verify(issued + more, t, now) == Some(t)
  {
  }
}
