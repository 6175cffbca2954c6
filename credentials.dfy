/**
 * Passwords and session tokens, as far as the handlers use them.
 *
 * bcrypt is modelled symbolically: a stored hash is the term
 * `Bcrypt(salt, significant)`, where `significant` is the part of the
 * password bcrypt reads, its first 72 bytes. Checking a candidate password
 * against a hash succeeds exactly when the candidate's own first 72 bytes
 * are that part. Characters stand for bytes here, which they are for ASCII
 * passwords. The salt is drawn by the library from randomness and enters
 * here as a parameter.
 *
 * A signed JWT is represented only by the claims it carries; verification
 * (signature, secret, 24-hour expiry) is a parameter of the handlers that
 * either yields the claims or fails.
 */
module Credentials {
  import opened Wrappers
  import opened Vocabulary

  /** bcrypt ignores every byte of a password after the 72nd. */
  const BCRYPT_MAX_LENGTH: nat := 72

  datatype PasswordHash = Bcrypt(salt: nat, significant: string)

  /** The part of a password that bcrypt hashes: at most its first 72 characters. */
  function Significant(password: string): (s: string)
    ensures |s| <= BCRYPT_MAX_LENGTH && s <= password
    ensures |password| <= BCRYPT_MAX_LENGTH ==> s == password
    ensures BCRYPT_MAX_LENGTH <= |password| ==> |s| == BCRYPT_MAX_LENGTH
  {
    if |password| <= BCRYPT_MAX_LENGTH then password else password[..BCRYPT_MAX_LENGTH]
  }

  /** `bcrypt.hash(password, 10)` / `bcrypt.generate_password_hash(password)`. */
  function HashPassword(password: string, salt: nat): (h: PasswordHash)
    ensures h.salt == salt
    ensures CheckPassword(password, h)
  {
    Bcrypt(salt, Significant(password))
  }

  /** `bcrypt.compare(password, hash)` / `bcrypt.check_password_hash(hash, password)`. */
  function CheckPassword(password: string, hash: PasswordHash): (ok: bool)
    ensures ok ==> hash.significant <= password
    ensures ok && |password| <= BCRYPT_MAX_LENGTH ==> hash.significant == password
  {
    Significant(password) == hash.significant
  }

  /**
   * A hash accepts a candidate iff the candidate agrees with the hashed
   * password on their first 72 characters; for passwords of at most 72
   * characters, iff the candidate is that password, whatever the salt.
   */
  lemma CheckHashed(password: string, candidate: string, salt: nat)
    ensures CheckPassword(candidate, HashPassword(password, salt)) <==> Significant(candidate) == Significant(password)
    ensures |password| <= BCRYPT_MAX_LENGTH && |candidate| <= BCRYPT_MAX_LENGTH ==>
              (CheckPassword(candidate, HashPassword(password, salt)) <==> candidate == password)
  {
  }

  /** Two passwords that share their first 72 characters check against each other's hash. */
  lemma LongPasswordsShareHash(password: string, candidate: string, salt: nat)
    requires BCRYPT_MAX_LENGTH <= |password| && BCRYPT_MAX_LENGTH <= |candidate|
    requires password[..BCRYPT_MAX_LENGTH] == candidate[..BCRYPT_MAX_LENGTH]
    ensures CheckPassword(candidate, HashPassword(password, salt))
    ensures CheckPassword(password, HashPassword(candidate, salt))
  {
  }

  /**
   * The payload of a signed token: `{ id }` for a citizen login,
   * `{ id, role }` for an admin login.
   */
  datatype Claims = Claims(id: int, role: Option<Role>)
}
