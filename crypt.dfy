/**
 * Password hashing (passlib's bcrypt context, `generate_hashed_password` /
 * `verify_password`). A hash records the random salt it was made with and the
 * secret it was made from, so verification is exact; bcrypt's cost and
 * one-way digest are not modelled.
 */
module Crypt {
  import opened Wrappers
  import opened Values
  import opened Errors

  /** `hash_context.hash(password)` with the salt bcrypt draws at random. */
  function GenerateHashedPassword(password: string, salt: string): (h: Value)
    ensures h.Hashed? && h.salt == salt
    ensures VerifyPassword(password, h)
  {
    Hashed(salt, password)
  }

  /** `hash_context.verify(password, hashed)`: true iff the hash was made from this
      password; a missing hash (None) verifies nothing. */
  predicate VerifyPassword(password: string, hashed: Value): (b: bool)
    ensures b <==> exists salt :: hashed == Hashed(salt, password)
    ensures hashed.Null? ==> !b
  {
    hashed.Hashed? && hashed.secret == password
  }

  /** Hashing whatever value a request carried as its password: passlib only
      accepts a string and raises TypeError for anything else (None included). */
  function HashPasswordValue(password: Value, salt: string): (r: Result<Value, Error>)
    ensures password.Str? <==> r.Ok?
    ensures r.Ok? ==> r.value == GenerateHashedPassword(password.s, salt)
    ensures r.Err? ==> r.error.TypeError?
  {
    if password.Str? then Ok(GenerateHashedPassword(password.s, salt))
    else Err(TypeError("secret must be unicode or bytes"))
  }

  /** A hash never verifies a password other than the one it was made from. */
  lemma WrongPasswordRejected(password: string, other: string, salt: string)
    requires other != password
    ensures !VerifyPassword(other, GenerateHashedPassword(password, salt))
  {
  }

  /** Two hashes of one password with different salts differ, and both verify it. */
  lemma SaltedHashesDiffer(password: string, salt1: string, salt2: string)
    requires salt1 != salt2
    ensures GenerateHashedPassword(password, salt1) != GenerateHashedPassword(password, salt2)
    ensures VerifyPassword(password, GenerateHashedPassword(password, salt1))
    ensures VerifyPassword(password, GenerateHashedPassword(password, salt2))
  {
  }
}
