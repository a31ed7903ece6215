/** The password capability the `User` model relies on: a digest is stored
    in place of the plaintext and checked against it later. The real
    hashing scheme is not part of this model; this stand-in tags the
    plaintext, which keeps the two properties the handlers depend on. */
module Passwords {
  const Scheme := "$hash$"

  function Hash(plain: string): (digest: string)
    ensures digest != plain && |digest| > |plain|
  {
    Scheme + plain
  }

  predicate Verify(plain: string, digest: string) {
    Hash(plain) == digest
  }

  lemma VerifyHash(plain: string)
    ensures Verify(plain, Hash(plain))
  {
  }

  /** Only the original password verifies against a digest. */
  lemma VerifyOnlyOriginal(plain: string, other: string)
    requires Verify(other, Hash(plain))
    ensures other == plain
  {
    assert other == (Scheme + other)[|Scheme|..];
    assert plain == (Scheme + plain)[|Scheme|..];
  }
}
