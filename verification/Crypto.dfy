/** The cryptographic library calls, symbolically: functions of which only the
    laws below are used. */
module Crypto {
  import opened Wrappers
  import opened Wire

  const KEY_LEN := 32
  const CHALLENGE_LEN := 32

  datatype Suite = Suite(
    /** The hex digest that names a device's Ed25519 public key. */
    fingerprint: Bytes -> string,
    /** X25519: the public key of a private one, and the exchange, which raises
        on a peer key that is not 32 bytes long (section 6.1 of RFC 7748). */
    publicOf: Bytes -> Bytes,
    exchange: (Bytes, Bytes) -> Option<Bytes>,
    /** HKDF-SHA256 of a shared secret with a salt (section 2 of RFC 5869). */
    derive: (Bytes, Bytes) -> Bytes,
    /** HMAC-SHA256 of a message under a key (section 2 of RFC 2104). */
    hmac: (Bytes, Bytes) -> Bytes)
  {
    /** Tags have a fixed length. */
    ghost predicate TagsHaveLength() {
      forall k, m :: |hmac(k, m)| == 32
    }

    /** Digests do not collide; keys, secrets and tags have their lengths; the
        exchange commutes, and takes no peer key of another length. Nothing is
        said of how a derived key depends on the secret and the salt. */
    ghost predicate Lawful() {
      && (forall a, b :: fingerprint(a) == fingerprint(b) ==> a == b)
      && (forall p :: |publicOf(p)| == KEY_LEN)
      && (forall p, q :: exchange(p, publicOf(q)) == exchange(q, publicOf(p)))
      && (forall p, b :: exchange(p, b).Some? ==> |b| == KEY_LEN)
      && (forall s, a :: |derive(s, a)| == KEY_LEN)
      && TagsHaveLength()
    }
  }

  /** An Ed25519 signature: valid for one signer and one message. */
  datatype Signature = Signature(signer: Bytes, message: Bytes)

  predicate Verifies(publicKey: Bytes, message: Bytes, s: Signature) {
    s == Signature(publicKey, message)
  }

  /** What both sides sign: challenge, client key and server key in a row. */
  function Binding(challenge: Bytes, clientX: Bytes, serverX: Bytes): Bytes {
    challenge + clientX + serverX
  }

  function Zeros(n: nat): (z: Bytes)
    ensures |z| == n
  {
    seq(n, _ => 0)
  }

  function AsText(b: Bytes): (t: string)
    ensures |t| == |b| && forall i | 0 <= i < |b| :: t[i] as int == b[i]
  {
    seq(|b|, i requires 0 <= i < |b| => b[i] as char)
  }

  /** The first 32 bytes, filled up with zeros. */
  function Padded(b: Bytes): (r: Bytes)
    ensures |r| == 32 && forall i | 0 <= i < 32 :: r[i] == if i < |b| then b[i] else 0
  {
    seq(32, i requires 0 <= i < 32 => if i < |b| then b[i] else 0)
  }

  /** Byte by byte, with wrap-around. */
  function Mixed(a: Bytes, b: Bytes): (r: Bytes)
    ensures |r| == 32 && forall i | 0 <= i < 32 :: r[i] == (Padded(a)[i] as int + Padded(b)[i] as int) % 256
  {
    seq(32, i requires 0 <= i < 32 => (Padded(a)[i] as int + Padded(b)[i] as int) % 256)
  }

  lemma MixedCommutes(p: Bytes, q: Bytes)
    ensures Mixed(p, Padded(q)) == Mixed(q, Padded(p))
  {
    assert Padded(Padded(p)) == Padded(p) && Padded(Padded(q)) == Padded(q);
    assert forall i | 0 <= i < 32 :: Mixed(p, Padded(q))[i] == Mixed(q, Padded(p))[i];
  }

  lemma AsTextDiffers(a: Bytes, b: Bytes)
    requires AsText(a) == AsText(b)
    ensures a == b
  {
    assert |a| == |AsText(a)| == |AsText(b)| == |b|;
    assert forall i | 0 <= i < |a| :: a[i] == AsText(a)[i] as int == AsText(b)[i] as int == b[i];
  }

  /** A suite in which the session key depends on both ends' private keys and on
      the challenge, and the tag on key and message. */
  function Toy(): Suite {
    Suite(AsText, Padded,
          (p: Bytes, b: Bytes) => if |b| == KEY_LEN then Some(Mixed(p, b)) else None,
          Mixed,
          Mixed)
  }

  lemma ToyIsLawful()
    ensures Toy().Lawful()
  {
    var c := Toy();
    forall a, b | c.fingerprint(a) == c.fingerprint(b)
      ensures a == b
    {
      AsTextDiffers(a, b);
    }
    forall p, q
      ensures c.exchange(p, c.publicOf(q)) == c.exchange(q, c.publicOf(p))
    {
      MixedCommutes(p, q);
    }
  }

  lemma MixedSeesBoth(a: Bytes)
    ensures Mixed(Zeros(1), a) != Mixed([1], a)
  {
    assert Padded(Zeros(1))[0] == 0 && Padded([1])[0] == 1;
    assert Mixed(Zeros(1), a)[0] != Mixed([1], a)[0];
  }

  /** The laws can be met, by a key that depends on the exchanged secret too. */
  lemma LawfulSuiteExists(a: Bytes)
    ensures Toy().Lawful() && exists s: Bytes, t: Bytes :: Toy().derive(s, a) != Toy().derive(t, a)
  {
    ToyIsLawful();
    MixedSeesBoth(a);
    assert Toy().derive(Zeros(1), a) != Toy().derive([1], a);
  }
}
