/** What the two token handlers share: the payload's type tags and the result of
    decoding a token. Signing and verification are library code and are not
    modelled: decoding is an abstract function from token text to this result. */
module TokenTypes {
  import opened Base

  /** The `type` claim of an access token and of a refresh token. */
  const ACCESS_TYPE := "access"
  const REFRESH_TYPE := "refresh"

  /** The result of `jwt.decode`: the payload, or one of the two exception classes
      the access gate tells apart (an expired signature, or any other invalid token). */
  datatype Decoded = Decoded(payload: JsonObject) | Expired | Invalid
}
