/** AES-256-GCM as an ideal authenticated cipher: a log of what has been
    sealed. Opening looks the log up, so nothing opens that was not sealed
    under the same key, nonce and associated data (section 5.2 of RFC 5116
    gives the 16 bytes by which a ciphertext is longer than its plaintext). */
module Aead {
  import opened Wrappers
  import opened Wire

  const TAG_LEN := 16

  datatype Sealed = Sealed(key: Bytes, nonce: Bytes, aad: Bytes, ciphertext: Bytes)

  type Log = map<Sealed, Bytes>

  /** What one encryption may add: a ciphertext of the right length that does
      not already stand for another plaintext. */
  predicate CanSeal(log: Log, s: Sealed, plaintext: Bytes) {
    |s.ciphertext| == |plaintext| + TAG_LEN && (s in log ==> log[s] == plaintext)
  }

  function Open(log: Log, key: Bytes, nonce: Bytes, ciphertext: Bytes, aad: Bytes): Option<Bytes> {
    var s := Sealed(key, nonce, aad, ciphertext);
    if s in log then Some(log[s]) else None
  }
}
