/**
 * The two cryptographic libraries the backend calls, as values the caller
 * supplies. Their internals (bcrypt's key schedule, JWT's HMAC and JSON
 * encoding) are not modelled; only what the backend relies on is.
 */
module Crypto {
  import opened Wrappers

  /**
   * bcryptjs as the backend uses it. `hash(password, salt)` is hashSync with
   * cost 10: the salt it draws at random is an input here. `compare(password,
   * digest)` is compareSync.
   */
  datatype Bcrypt = Bcrypt(hash: (string, nat) -> string, compare: (string, string) -> bool)

  /** A digest made from a password always matches that password. */
  ghost predicate Sound(b: Bcrypt)
  {
    forall password: string, salt: nat :: b.compare(password, b.hash(password, salt))
  }

  /**
   * jsonwebtoken under the process-wide secret, at one instant of the clock.
   * `sign(userId)` is the token for the payload { userId } with a 7-day
   * lifetime; jwt.sign reads the clock too, writing the issue time and the
   * expiry (issue time plus 7 days) into the token, so a login at another
   * instant is a call with another Jwt value. `verify(token)` gives the
   * payload's userId when the signature checks and the token has not expired
   * at that instant, and None when jwt.verify would throw.
   */
  datatype Jwt = Jwt(sign: nat -> string, verify: string -> Option<nat>)

  /**
   * A token signed for a user is non-empty and verifies, at the same instant,
   * to that user: what every route behind authRequired relies on after a login.
   */
  ghost predicate RoundTrips(j: Jwt)
  {
    forall userId: nat :: j.sign(userId) != "" && j.verify(j.sign(userId)) == Some(userId)
  }
}
