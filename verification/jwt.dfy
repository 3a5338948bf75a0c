/**
 * What the controller relies on of its token library. Signing is not modelled as a
 * function: each handler that signs receives the token strings it would produce.
 * Verification is an oracle that either accepts a token and yields its claims, or
 * rejects it (bad signature and expiry are one outcome, as in the controller).
 */
module Jwt {
  import opened Accounts

  /** A signed token string, opaque to everything but the oracle. */
  type Token = string

  /** The payload the controller signs into both access and refresh tokens. */
  datatype Claims = Claims(id: Id, username: string, email: string, role: string)

  datatype Verdict = Verified(claims: Claims) | Rejected

  /** The claims signed for a logged-in account. */
  function ClaimsOf(id: Id, a: Account): Claims {
    Claims(id, a.username, a.email, a.role)
  }
}
