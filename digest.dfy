/** The two calls into Python's `hmac` module that the receivers make. */
module Digest {
  import opened Python

  /** A keyed hash as `hmac.new(key, msg, hash).digest()` computes it (the
      construction of RFC 2104 over SHA-512 or SHA-256 of FIPS 180-4), from
      key bytes and message bytes to digest bytes. The hash is a parameter:
      every property of the receivers is proved for all such functions. */
  type Mac = (seq<byte>, seq<byte>) -> seq<byte>

  /** Every digest of `mac` is `n` bytes long: 64 for HMAC-SHA512, 32 for
      HMAC-SHA256. */
  ghost predicate HasLength(mac: Mac, n: nat) {
    forall key, msg :: |mac(key, msg)| == n
  }

  /** `hmac.compare_digest(a, b)` on two `str` values: their equality, except
      that Python raises `TypeError` when either holds a non-ASCII character.
      Its running time, constant in the position of a mismatch, is not modelled. */
  function CompareDigest(a: string, b: string): (r: Outcome<bool>)
    ensures r == Returns(true) ==> a == b
    ensures r == Returns(false) ==> a != b
    ensures r.Raises? <==> !(IsAscii(a) && IsAscii(b))
  {
    if IsAscii(a) && IsAscii(b) then Returns(a == b) else Raises
  }
}
