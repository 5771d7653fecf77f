/**
 * The identity carried in a JSON Web Token and the signature of the
 * token verifier. Verification itself (`jwt.verify` of the jsonwebtoken
 * library) is a foreign call: every operation that needs it takes it as a
 * function parameter, so the model holds for every verifier.
 */
module Identity {
  import opened Wrappers

  /** The `{ id, username }` payload that the servers sign and decode. */
  datatype Claims = Claims(id: nat, username: string)

  /**
   * `verify(secret, token)` is `Some(claims)` when the token's signature
   * checks against the secret and it has not expired, `None` when
   * `jwt.verify` would throw.
   */
  type Verifier = (string, string) -> Option<Claims>
}
