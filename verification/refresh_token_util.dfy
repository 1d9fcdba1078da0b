/**
 * Opaque refresh tokens: a token is 64 random bytes rendered in unpadded
 * base64url, and the store only ever sees the lower-case hexadecimal
 * SHA-256 digest of it.
 */
module RefreshTokenUtil {
  import opened Wrappers
  import opened Crypto
  import Base64Url

  /** The number of random bytes behind one refresh token. */
  const ENTROPY_BYTES: nat := 64

  /** What `randomBytes(64)` hands back: exactly sixty-four bytes, otherwise unconstrained. */
  type Entropy = b: seq<Byte> | |b| == ENTROPY_BYTES witness seq(64, _ => 0)

  /** `generate()`: the base64url text of the random bytes. */
  function Generate(entropy: Entropy): (token: string)
    ensures |token| == 86
    ensures Base64Url.AllUrlSafe(token)
    ensures Base64Url.Decode(token) == Some(entropy)
  {
    Base64Url.DecodeEncode(entropy);
    Base64Url.Encode(entropy)
  }

  /** Distinct random bytes never give the same token. */
  lemma GenerateInjective(a: Entropy, b: Entropy)
    ensures Generate(a) == Generate(b) <==> a == b
  {
  }

  /** `hash(token)`: the SHA-256 digest of the token as 64 lower-case hexadecimal digits. */
  function Hash(sha: Sha256, token: string): (h: string)
    ensures |h| == 64
    ensures IsLowerHex(h)
    ensures Unhex(h) == Some(sha(token))
  {
    UnhexHex(sha(token));
    Hex(sha(token))
  }

  /**
   * Two tokens address the same store key exactly when their digests agree;
   * in particular the same token always addresses the same key.
   */
  lemma HashAgreesIff(sha: Sha256, a: string, b: string)
    ensures Hash(sha, a) == Hash(sha, b) <==> sha(a) == sha(b)
  {
  }
}
