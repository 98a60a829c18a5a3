/** The IKEv2 key schedule (sections 2.13, 2.14, 2.17 and 2.18 of RFC 7296). */
module KeySchedule {
  import opened Bytes
  import opened Crypto

  const MIN_NONCE_LEN := 16
  const MAX_BLOCKS := 255

  // ----- prf+ -----

  /** T1 | ... | Tn of prf+, and its last block. */
  function Blocks(c: Primitives, key: Bytes, seed: Bytes, n: nat): Bytes
    requires n <= MAX_BLOCKS
  {
    if n == 0 then [] else Blocks(c, key, seed, n - 1) + Block(c, key, seed, n)
  }

  function Block(c: Primitives, key: Bytes, seed: Bytes, n: nat): Bytes
    requires n <= MAX_BLOCKS
  {
    if n == 0 then [] else c.prf(key, Block(c, key, seed, n - 1) + seed + [n])
  }

  lemma {:induction false} BlocksLength(c: Primitives, key: Bytes, seed: Bytes, n: nat)
    requires PrfLaw(c) && n <= MAX_BLOCKS
    ensures |Blocks(c, key, seed, n)| == PRF_LEN * n
  {
    if n > 0 {
      BlocksLength(c, key, seed, n - 1);
    }
  }

  function BlocksFor(len: nat): nat {
    (len + PRF_LEN - 1) / PRF_LEN
  }

  /** The first len octets of the stream. */
  function PrfPlus(c: Primitives, key: Bytes, seed: Bytes, len: nat): (r: Bytes)
    requires PrfLaw(c) && len <= PRF_LEN * MAX_BLOCKS
    ensures |r| == len
  {
    BlocksLength(c, key, seed, BlocksFor(len));
    Blocks(c, key, seed, BlocksFor(len))[..len]
  }

  /** The octets of r from 32 n on, up to 32 of them, are the prf of the 32 octets before
      them, the seed and the octet n + 1. */
  predicate Continues(c: Primitives, key: Bytes, seed: Bytes, r: Bytes, n: nat)
    requires PrfLaw(c) && n < 255 && 32 * n <= |r|
  {
    var t := c.prf(key, (if n == 0 then [] else r[32 * (n - 1)..32 * n]) + seed + [n + 1]);
    if 32 * n + 32 <= |r| then r[32 * n..32 * n + 32] == t else r[32 * n..] == t[..|r| - 32 * n]
  }

  lemma {:induction false} BlockAt(c: Primitives, key: Bytes, seed: Bytes, n: nat, k: nat)
    requires PrfLaw(c) && k < n <= MAX_BLOCKS
    ensures |Blocks(c, key, seed, n)| == 32 * n
    ensures Blocks(c, key, seed, n)[32 * k..32 * k + 32] == Block(c, key, seed, k + 1)
    decreases n
  {
    BlocksLength(c, key, seed, n);
    BlocksLength(c, key, seed, n - 1);
    if k < n - 1 {
      BlockAt(c, key, seed, n - 1, k);
      assert Blocks(c, key, seed, n)[32 * k..32 * k + 32] == Blocks(c, key, seed, n - 1)[32 * k..32 * k + 32];
    }
  }

  /** Every block of the stream, the last partial one included, follows from the one
      before it. */
  lemma StreamContinues(c: Primitives, key: Bytes, seed: Bytes, len: nat, n: nat)
    requires PrfLaw(c) && len <= PRF_LEN * MAX_BLOCKS && 32 * n < len
    ensures Continues(c, key, seed, PrfPlus(c, key, seed, len), n)
  {
    hide Blocks;
    var m := BlocksFor(len);
    var all, r := Blocks(c, key, seed, m), PrfPlus(c, key, seed, len);
    BlockAt(c, key, seed, m, n);
    if n > 0 {
      BlockAt(c, key, seed, m, n - 1);
      assert r[32 * (n - 1)..32 * n] == all[32 * (n - 1)..32 * n];
    }
    if 32 * n + 32 <= len {
      assert r[32 * n..32 * n + 32] == all[32 * n..32 * n + 32];
    } else {
      assert r[32 * n..] == all[32 * n..32 * n + 32][..len - 32 * n];
    }
  }

  /** prfPlus: asking for more than 255 blocks panics, hence the precondition. */
  method ExpandKey(c: Primitives, key: Bytes, seed: Bytes, len: nat) returns (r: Bytes)
    requires PrfLaw(c) && len <= PRF_LEN * MAX_BLOCKS
    ensures r == PrfPlus(c, key, seed, len)
    ensures |r| == len && forall n: nat :: 32 * n < len ==> Continues(c, key, seed, r, n)
  {
    var out: Bytes := [];
    var prev: Bytes := [];
    var i := 1;
    while |out| < len
      invariant 1 <= i <= MAX_BLOCKS + 1 && |out| == PRF_LEN * (i - 1)
      invariant PRF_LEN * (i - 1) < len + PRF_LEN
      invariant out == Blocks(c, key, seed, i - 1) && prev == Block(c, key, seed, i - 1)
      decreases PRF_LEN * (MAX_BLOCKS + 1) - |out|
    {
      prev := c.prf(key, prev + seed + [i]);
      out := out + prev;
      i := i + 1;
    }
    assert i - 1 == BlocksFor(len);
    r := out[..len];
    forall n: nat | 32 * n < len
      ensures Continues(c, key, seed, r, n)
    {
      StreamContinues(c, key, seed, len, n);
    }
  }

  // ----- the IKE SA keys -----

  datatype Role = Initiator | Responder

  datatype IkeKeys = IkeKeys(
    suite: Cipher, role: Role, spii: uint64, spir: uint64,
    skd: Bytes, skai: Bytes, skar: Bytes, skei: Bytes, sker: Bytes, skpi: Bytes, skpr: Bytes)
  {
    /** The directional keys this role sends and receives with. */
    function OutInteg(): Bytes { if role == Initiator then skai else skar }
    function InInteg(): Bytes { if role == Initiator then skar else skai }
    function OutEncr(): Bytes { if role == Initiator then skei else sker }
    function InEncr(): Bytes { if role == Initiator then sker else skei }
  }

  function EncrLen(s: Cipher): nat { if s.Aead() then 36 else 32 }
  function IntegLen(s: Cipher): nat { if s.Aead() then 0 else 32 }

  /** The lengths deriveFromSKEYSEED gives the envelope keys. */
  predicate KeysFit(k: IkeKeys) {
    && |k.skei| == |k.sker| == EncrLen(k.suite)
    && |k.skai| == |k.skar| == IntegLen(k.suite)
  }

  /** Splits prf+(SKEYSEED, Ni | Nr | SPIi | SPIr) in the order of section 2.14. */
  function FromSkeyseed(c: Primitives, suite: Cipher, role: Role, spii: uint64, spir: uint64,
                        ni: Bytes, nr: Bytes, skeyseed: Bytes): (k: IkeKeys)
    requires PrfLaw(c)
    ensures KeysFit(k) && k.suite == suite && k.role == role && k.spii == spii && k.spir == spir && |k.skd| == PRF_LEN
  {
    var e, a := EncrLen(suite), IntegLen(suite);
    var ks := PrfPlus(c, skeyseed, ni + nr + Be64(spii) + Be64(spir), 3 * PRF_LEN + 2 * e + 2 * a);
    var o := PRF_LEN + 2 * a;
    IkeKeys(suite, role, spii, spir,
            ks[..PRF_LEN], ks[PRF_LEN..PRF_LEN + a], ks[PRF_LEN + a..o], ks[o..o + e], ks[o + e..o + 2 * e],
            ks[o + 2 * e..o + 2 * e + PRF_LEN], ks[o + 2 * e + PRF_LEN..o + 2 * e + 2 * PRF_LEN])
  }

  /** The seven keys are consecutive parts of one stream, in the order of the standard. */
  lemma KeysInOrder(c: Primitives, suite: Cipher, role: Role, spii: uint64, spir: uint64, ni: Bytes, nr: Bytes, skeyseed: Bytes)
    requires PrfLaw(c)
    ensures var k := FromSkeyseed(c, suite, role, spii, spir, ni, nr, skeyseed);
            k.skd + k.skai + k.skar + k.skei + k.sker + k.skpi + k.skpr ==
            PrfPlus(c, skeyseed, ni + nr + Be64(spii) + Be64(spir), 3 * PRF_LEN + 2 * EncrLen(suite) + 2 * IntegLen(suite))
    ensures var k, cbc := FromSkeyseed(c, suite, role, spii, spir, ni, nr, skeyseed), suite == AesCbc256Sha256;
            && |k.skd| == |k.skpi| == |k.skpr| == 32
            && |k.skai| == |k.skar| == (if cbc then 32 else 0) && |k.skei| == |k.sker| == (if cbc then 32 else 36)
  {
    hide PrfPlus;
  }

  /** deriveFromSKEYSEED: keys are taken off the stream one after the other. */
  method DeriveKeys(c: Primitives, suite: Cipher, role: Role, spii: uint64, spir: uint64,
                    ni: Bytes, nr: Bytes, skeyseed: Bytes) returns (k: IkeKeys)
    requires PrfLaw(c)
    ensures k == FromSkeyseed(c, suite, role, spii, spir, ni, nr, skeyseed)
  {
    hide PrfPlus;
    var e, a := EncrLen(suite), IntegLen(suite);
    var ks := ExpandKey(c, skeyseed, ni + nr + Be64(spii) + Be64(spir), PRF_LEN + 2 * a + 2 * e + 2 * PRF_LEN);
    var off := PRF_LEN;
    var skd := ks[..off];
    var skai := ks[off..off + a];
    off := off + a;
    var skar := ks[off..off + a];
    off := off + a;
    var skei := ks[off..off + e];
    off := off + e;
    var sker := ks[off..off + e];
    off := off + e;
    var skpi := ks[off..off + PRF_LEN];
    off := off + PRF_LEN;
    var skpr := ks[off..off + PRF_LEN];
    k := IkeKeys(suite, role, spii, spir, skd, skai, skar, skei, sker, skpi, skpr);
  }

  /** The rekey derivation: SKEYSEED = prf(SK_d of the old SA, g^ir | Ni | Nr). */
  function DeriveRekeyIke(c: Primitives, suite: Cipher, oldSkd: Bytes, role: Role, spii: uint64, spir: uint64,
                          ni: Bytes, nr: Bytes, shared: Bytes): Result<IkeKeys>
    requires PrfLaw(c)
  {
    if oldSkd == [] || |ni| < MIN_NONCE_LEN || |nr| < MIN_NONCE_LEN || shared == [] then Err
    else Ok(FromSkeyseed(c, suite, role, spii, spir, ni, nr, c.prf(oldSkd, shared + ni + nr)))
  }

  /** Two ends of one IKE SA: everything equal but the role. */
  predicate Mirrored(a: IkeKeys, b: IkeKeys) {
    a.role != b.role && b == a.(role := b.role)
  }

  /** What one end sends with the other receives with, and the initiator sends with SK_ei
      and SK_ai. */
  lemma MirroredDirections(a: IkeKeys, b: IkeKeys)
    requires Mirrored(a, b)
    ensures a.OutEncr() == b.InEncr() && a.InEncr() == b.OutEncr()
    ensures a.OutInteg() == b.InInteg() && a.InInteg() == b.OutInteg()
    ensures (a.OutEncr(), a.OutInteg()) == if a.role == Initiator then (a.skei, a.skai) else (a.sker, a.skar)
  {}

  // ----- the Child SA keys -----

  datatype ChildKeys = ChildKeys(encrIR: Bytes, integIR: Bytes, encrRI: Bytes, integRI: Bytes)

  /** KEYMAT = prf+(SK_d, [g^ir |] Ni | Nr), the initiator's keys first; shared is empty
      without a fresh Diffie-Hellman exchange. */
  function DeriveChild(c: Primitives, skd: Bytes, shared: Bytes, ni: Bytes, nr: Bytes, e: nat, a: nat): (k: ChildKeys)
    requires PrfLaw(c) && e + a <= 128
    ensures |k.encrIR| == |k.encrRI| == e && |k.integIR| == |k.integRI| == a
  {
    var ks := PrfPlus(c, skd, shared + ni + nr, 2 * (e + a));
    ChildKeys(ks[..e], ks[e..e + a], ks[e + a..2 * e + a], ks[2 * e + a..2 * e + 2 * a])
  }

  /** The initiator's pair of keys comes first, encryption before integrity. */
  lemma ChildKeysInOrder(c: Primitives, skd: Bytes, shared: Bytes, ni: Bytes, nr: Bytes, e: nat, a: nat)
    requires PrfLaw(c) && e + a <= 128
    ensures var k := DeriveChild(c, skd, shared, ni, nr, e, a);
            k.encrIR + k.integIR + k.encrRI + k.integRI == PrfPlus(c, skd, shared + ni + nr, 2 * (e + a))
  {
    hide PrfPlus;
  }

  /** deriveChildKeys: KEYMAT sliced with a moving offset. */
  method DeriveChildKeys(c: Primitives, skd: Bytes, shared: Bytes, ni: Bytes, nr: Bytes, e: nat, a: nat) returns (k: ChildKeys)
    requires PrfLaw(c) && e + a <= 128
    ensures k == DeriveChild(c, skd, shared, ni, nr, e, a)
  {
    hide PrfPlus;
    var ks := ExpandKey(c, skd, shared + ni + nr, 2 * (e + a));
    var off := 0;
    var encrIR := ks[off..off + e];
    off := off + e;
    var integIR := ks[off..off + a];
    off := off + a;
    var encrRI := ks[off..off + e];
    off := off + e;
    var integRI := ks[off..off + a];
    k := ChildKeys(encrIR, integIR, encrRI, integRI);
  }
}
