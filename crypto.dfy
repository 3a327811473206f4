/**
 * The cryptographic services the controllers call, replaced by abstract
 * values with the one property each caller relies on.
 *
 * - `hashToken` (SHA-256 of an opaque token, hex encoded) is a deterministic
 *   function, taken to be injective: a fingerprint identifies its token.
 * - `hashPassword` appends the server pepper and hashes with a random salt;
 *   `comparePassword` appends the pepper and checks against the hash. The
 *   salt is a parameter here, since it is the only source of randomness.
 * - Access tokens are signed values that name the account they were issued to.
 */
module Crypto {

  /** The stored form of an opaque token. */
  datatype Fingerprint = Sha256Hex(token: string)

  function HashToken(token: string): Fingerprint
  {
    Sha256Hex(token)
  }

  /** Single-use tokens rely on this: two tokens share a fingerprint only if they are the same token. */
  lemma HashTokenInjective(a: string, b: string)
    ensures HashToken(a) == HashToken(b) <==> a == b
  {
  }

  /** A bcrypt hash: a salt and the peppered secret it was computed from. */
  datatype PasswordHash = Bcrypt(salt: nat, peppered: string)

  function HashPassword(plain: string, pepper: string, salt: nat): PasswordHash
  {
    Bcrypt(salt, plain + pepper)
  }

  predicate ComparePassword(plain: string, pepper: string, hash: PasswordHash)
  {
    plain + pepper == hash.peppered
  }

  /**
   * A hash of `q` accepts exactly `q`, whatever the salt: appending the same
   * pepper to two passwords keeps them apart.
   */
  lemma {:induction false} CompareHashed(p: string, q: string, pepper: string, salt: nat)
    ensures ComparePassword(p, pepper, HashPassword(q, pepper, salt)) <==> p == q
  {
    if p + pepper == q + pepper {
      assert |p| == |q|;
      assert p == (p + pepper)[..|p|];
      assert q == (q + pepper)[..|q|];
    }
  }

  /** A signed access token; its payload carries the account id. */
  datatype AccessToken = Jwt(userId: nat)

  /** The two tokens handed to a client after a login or a refresh. */
  datatype TokenPair = TokenPair(accessToken: AccessToken, refreshToken: string)
}
