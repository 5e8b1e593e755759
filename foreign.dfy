/** Stand-ins for the foreign libraries the backend calls: Django's password hashers and
    the JWT minting of `rest_framework_simplejwt`. Only the property the backend relies on
    is kept: checking a candidate against a hash succeeds exactly for the hashed secret. */
module Foreign {

  /** The random salt `make_password` draws for every hash. */
  type Salt = int

  /** A stored password hash. Its representation is not observable by the backend code. */
  datatype Digest = Digest(secret: string, salt: Salt)

  /** `make_password(secret)` with the salt it happened to draw. */
  function MakePassword(secret: string, salt: Salt): Digest {
    Digest(secret, salt)
  }

  /** `check_password(candidate, digest)`. */
  predicate CheckPassword(candidate: string, digest: Digest) {
    candidate == digest.secret
  }

  /** The one property of the hasher the backend depends on, whatever salt was drawn. */
  lemma CheckMakePassword(candidate: string, secret: string, salt: Salt)
    ensures CheckPassword(candidate, MakePassword(secret, salt)) <==> candidate == secret
  {
  }

  /** `str(refresh)` and `str(refresh.access_token)` of a freshly minted `RefreshToken`. */
  datatype TokenPair = TokenPair(refresh: string, access: string)
}
