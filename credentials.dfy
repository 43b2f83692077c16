/**
 * The credential hasher (bcrypt in the source), idealised: a digest names
 * exactly one password, and comparing a password with a digest succeeds
 * exactly when the digest was made from that password.
 */
module Credentials {

  /** The fixed prefix every digest starts with (bcrypt's algorithm and cost tag). */
  const DIGEST_PREFIX := "$2a$10$"

  /** `bcrypt.hash(password, 10)`, without the random salt. */
  function Hash(password: string): (digest: string)
    ensures |digest| == |DIGEST_PREFIX| + |password|
    ensures digest[..|DIGEST_PREFIX|] == DIGEST_PREFIX
  {
    DIGEST_PREFIX + password
  }

  /** `bcrypt.compare(password, digest)`: false, never an error, on a digest it did not make. */
  predicate Compare(password: string, digest: string): (r: bool)
    ensures r ==> |digest| >= |DIGEST_PREFIX| && digest[..|DIGEST_PREFIX|] == DIGEST_PREFIX &&
                  digest[|DIGEST_PREFIX|..] == password
  {
    digest == Hash(password)
  }

  /** The digest determines the password it was made from. */
  lemma HashInjective(p: string, q: string)
    requires Hash(p) == Hash(q)
    ensures p == q
  {
    assert p == Hash(p)[|DIGEST_PREFIX|..];
    assert q == Hash(q)[|DIGEST_PREFIX|..];
  }

  /** Comparing against `Hash(p)` accepts `p` and nothing else. */
  lemma CompareExactly(p: string, q: string)
    ensures Compare(q, Hash(p)) <==> q == p
  {
    if Compare(q, Hash(p)) {
      HashInjective(q, p);
    }
  }

  /** No digest is the empty string, so a blank stored value matches no password. */
  lemma CompareRejectsBlank(p: string)
    ensures !Compare(p, "")
  {
    assert |Hash(p)| > 0;
  }
}
