/** The cryptographic primitives, taken as parameters: the project assumes of them only
    the laws below, so its results hold of any primitives that meet them. */
module Crypto {
  import opened Bytes

  /** The transform suites both layers negotiate. */
  datatype Cipher = AesCbc256Sha256 | AesGcm256 | ChaCha20Poly1305 {
    predicate Aead() {
      this != AesCbc256Sha256
    }
  }

  const AES_BLOCK := 16
  const ICV_LEN := 16
  const SALT_LEN := 4
  const AEAD_IV_LEN := 8
  const PRF_LEN := 32

  lemma BlockMultiple(m: nat)
    ensures (m + (AES_BLOCK - m % AES_BLOCK) % AES_BLOCK) % AES_BLOCK == 0
  {
    var q, r := m / AES_BLOCK, m % AES_BLOCK;
    assert m == AES_BLOCK * q + r;
    if r != 0 {
      assert m + (AES_BLOCK - r) == AES_BLOCK * (q + 1);
    }
  }

  /** How many octets short of whole cipher blocks m octets are. */
  function PadToBlock(m: nat): (p: nat)
    ensures p < AES_BLOCK && (m + p) % AES_BLOCK == 0
  {
    BlockMultiple(m);
    (AES_BLOCK - m % AES_BLOCK) % AES_BLOCK
  }

  datatype Primitives = Primitives(
    /** HMAC-SHA2-256 of (key, data). */
    prf: (Bytes, Bytes) -> Bytes,
    /** AES-CBC under (key, IV) of whole blocks. */
    cbcEncrypt: (Bytes, Bytes, Bytes) -> Bytes,
    cbcDecrypt: (Bytes, Bytes, Bytes) -> Bytes,
    /** (cipher, key, nonce, plaintext, associated data) to ciphertext and tag. */
    seal: (Cipher, Bytes, Bytes, Bytes, Bytes) -> Bytes,
    open: (Cipher, Bytes, Bytes, Bytes, Bytes) -> Option<Bytes>,
    /** (group, private value), and (group, private value, peer public value). */
    dhPublic: (nat, Bytes) -> Bytes,
    dhShared: (nat, Bytes, Bytes) -> Option<Bytes>)

  ghost predicate PrfLaw(c: Primitives) {
    forall k, d :: |c.prf(k, d)| == PRF_LEN
  }

  ghost predicate CbcLaw(c: Primitives) {
    && (forall k, iv, p :: |c.cbcEncrypt(k, iv, p)| == |p|)
    && (forall k, iv, p :: |c.cbcDecrypt(k, iv, p)| == |p|)
    && (forall k, iv, p :: |p| % AES_BLOCK == 0 ==> c.cbcDecrypt(k, iv, c.cbcEncrypt(k, iv, p)) == p)
  }

  ghost predicate AeadLaw(c: Primitives) {
    && (forall s, k, n, p, a :: |c.seal(s, k, n, p, a)| == |p| + ICV_LEN)
    && (forall s, k, n, p, a :: c.open(s, k, n, c.seal(s, k, n, p, a), a) == Some(p))
    && (forall s, k, n, x, a :: c.open(s, k, n, x, a).Some? ==> |x| == |c.open(s, k, n, x, a).value| + ICV_LEN)
  }

  ghost predicate DhLaw(c: Primitives) {
    && (forall g, x, y :: c.dhShared(g, x, c.dhPublic(g, y)) == c.dhShared(g, y, c.dhPublic(g, x)))
    && (forall g, x, p :: c.dhShared(g, x, p).Some? ==> c.dhShared(g, x, p).value != [])
    && (forall g, x :: c.dhPublic(g, x) != [])
  }

  ghost predicate Laws(c: Primitives) {
    PrfLaw(c) && CbcLaw(c) && AeadLaw(c) && DhLaw(c)
  }

  /** AUTH_HMAC_SHA2_256_128: the MAC truncated to 128 bits. */
  function Mac(c: Primitives, key: Bytes, data: Bytes): Bytes {
    var m := c.prf(key, data);
    if |m| < ICV_LEN then m else m[..ICV_LEN]
  }

  /** The laws are consistent: a toy instance meets them all. */
  function Toy(): Primitives {
    Primitives(
      (k, d) => Zeros(PRF_LEN),
      (k, iv, p) => p,
      (k, iv, p) => p,
      (s, k, n, p, a) => p + Zeros(ICV_LEN),
      (s, k, n, x, a) => if |x| >= ICV_LEN then Some(x[..|x| - ICV_LEN]) else None,
      (g, x) => [1],
      (g, x, p) => Some([1]))
  }

  lemma ToyAead()
    ensures AeadLaw(Toy())
  {
    var c := Toy();
    forall s, k, n, p, a
      ensures c.open(s, k, n, c.seal(s, k, n, p, a), a) == Some(p)
    {
      assert (p + Zeros(ICV_LEN))[..|p|] == p;
    }
  }

  lemma LawsHaveAModel()
    ensures Laws(Toy())
  {
    ToyAead();
    hide AeadLaw;
  }
}
