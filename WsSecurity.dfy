/** The password digest of the WS-Security UsernameToken Profile 1.0,
    section 3.1: Base64(SHA-1(nonce ++ created ++ password)). SHA-1 is not
    modelled: it is a parameter, so every statement here holds for any
    hash function. */
module WsSecurity {
  import opened Base64

  type Sha1 = Bytes -> Bytes

  /** The bytes that are hashed: the decoded nonce, then the UTF-8 bytes of
      the creation time, then the UTF-8 bytes of the password. */
  function DigestInput(nonce: Bytes, created: string, password: string): (r: Bytes)
    ensures |r| == |nonce| + |Utf8(created)| + |Utf8(password)|
    ensures r[..|nonce|] == nonce
    ensures r[|nonce|..|nonce| + |Utf8(created)|] == Utf8(created)
    ensures r[|nonce| + |Utf8(created)|..] == Utf8(password)
  {
    nonce + Utf8(created) + Utf8(password)
  }

  function PasswordDigest(sha1: Sha1, nonce: Bytes, created: string, password: string): string {
    Encode(sha1(DigestInput(nonce, created, password)))
  }
}
