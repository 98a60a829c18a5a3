/** ESP in tunnel mode (RFC 4303): trailer and packet framing for the CBC and AEAD
    suites, and the two ends of one direction of a Child SA. */
module Esp {
  import opened Bytes
  import opened Crypto
  import Replay

  const HEADER_LEN := 8
  const CBC_IV_LEN := 16
  const CBC_ENCR_KEY_LEN := 32
  const CBC_INTEG_KEY_LEN := 32
  const AEAD_ENCR_KEY_LEN := 36
  const NEXT_HEADER_IPV4: byte := 4
  const NEXT_HEADER_IPV6: byte := 41
  const SEQ_MAX := 0xFFFF_FFFF

  /** One direction of a Child SA: the SPI its packets carry and its key material. */
  datatype Direction = Direction(suite: Cipher, spi: uint32, encr: Bytes, integ: Bytes)

  /** The key lengths NewSA insists on. */
  predicate KeysFit(d: Direction) {
    if d.suite.Aead() then |d.encr| == AEAD_ENCR_KEY_LEN && |d.integ| == 0
    else |d.encr| == CBC_ENCR_KEY_LEN && |d.integ| == CBC_INTEG_KEY_LEN
  }

  // ----- the trailer: inner | 1, 2, ..., padLen | padLen | next header -----

  function NextHeaderFor(inner: Bytes): byte {
    if |inner| > 0 && inner[0] / 16 == 6 then NEXT_HEADER_IPV6 else NEXT_HEADER_IPV4
  }

  function PadTo4(m: nat): (p: nat)
    ensures p < 4 && (m + p) % 4 == 0
  {
    (4 - m % 4) % 4
  }

  /** AEAD packets align the plaintext to 4 octets, CBC packets to the cipher block. */
  function PadLen(s: Cipher, n: nat): (p: nat)
    ensures p < 16
    ensures !s.Aead() ==> (n + 2 + p) % AES_BLOCK == 0
  {
    if s.Aead() then PadTo4(n + 2) else PadToBlock(n + 2)
  }

  function WithTrailer(inner: Bytes, padLen: byte): Bytes {
    inner + Padding(padLen) + [padLen, NextHeaderFor(inner)]
  }

  function ParseTrailer(plain: Bytes): Option<Bytes> {
    if |plain| < 2 then None else
    var padLen := plain[|plain| - 2];
    if padLen + 2 > |plain| then None
    else if plain[|plain| - 2 - padLen..|plain| - 2] != Padding(padLen) then None
    else if plain[|plain| - 1] != NEXT_HEADER_IPV4 && plain[|plain| - 1] != NEXT_HEADER_IPV6 then None
    else Some(plain[..|plain| - padLen - 2])
  }

  lemma TrailerRoundTrip(inner: Bytes, padLen: byte)
    ensures ParseTrailer(WithTrailer(inner, padLen)) == Some(inner)
  {
    var plain := WithTrailer(inner, padLen);
    assert plain[|plain| - 2] == padLen;
    assert plain[|plain| - 2 - padLen..|plain| - 2] == Padding(padLen);
    assert plain[..|plain| - padLen - 2] == inner;
  }

  // ----- packets -----

  function Plain(s: Cipher, inner: Bytes): Bytes {
    WithTrailer(inner, PadLen(s, |inner|))
  }

  function Header(spi: uint32, num: uint32): (h: Bytes)
    ensures |h| == HEADER_LEN
  {
    Be32(spi) + Be32(num)
  }

  /** salt(4) | IV(8): the salt is the tail of the AEAD key material. */
  function Nonce(encr: Bytes, iv: Bytes): Bytes
    requires |encr| >= SALT_LEN
  {
    encr[|encr| - SALT_LEN..] + iv
  }

  function AeadKey(encr: Bytes): Bytes
    requires |encr| >= SALT_LEN
  {
    encr[..|encr| - SALT_LEN]
  }

  /** The packet for sequence number num; iv is the random IV of the CBC suite. */
  function Packet(c: Primitives, d: Direction, num: uint32, iv: Bytes, inner: Bytes): Bytes
    requires KeysFit(d) && |iv| == CBC_IV_LEN
  {
    var h := Header(d.spi, num);
    if d.suite.Aead() then
      h + Be64(num) + c.seal(d.suite, AeadKey(d.encr), Nonce(d.encr, Be64(num)), Plain(d.suite, inner), h)
    else
      var body := h + iv + c.cbcEncrypt(d.encr, iv, Plain(d.suite, inner));
      body + Mac(c, d.integ, body)
  }

  /** What a receiver learns from a packet before it consults the replay window: the
      sequence number and the inner datagram (None when the decrypted content is
      malformed), or that the packet is not to be trusted at all. */
  datatype Verdict = Reject | Authentic(num: uint32, content: Option<Bytes>)

  function Inspect(c: Primitives, d: Direction, pkt: Bytes): Verdict
    requires KeysFit(d)
  {
    if d.suite.Aead() then
      if |pkt| < HEADER_LEN + AEAD_IV_LEN + 2 + ICV_LEN || U32(pkt[..4]) != d.spi then Reject else
      var iv := pkt[HEADER_LEN..HEADER_LEN + AEAD_IV_LEN];
      match c.open(d.suite, AeadKey(d.encr), Nonce(d.encr, iv), pkt[HEADER_LEN + AEAD_IV_LEN..], pkt[..HEADER_LEN])
      case None => Reject
      case Some(plain) => Authentic(U32(pkt[4..8]), ParseTrailer(plain))
    else
      if |pkt| < HEADER_LEN + CBC_IV_LEN + AES_BLOCK + ICV_LEN || U32(pkt[..4]) != d.spi then Reject else
      var icvStart := |pkt| - ICV_LEN;
      if Mac(c, d.integ, pkt[..icvStart]) != pkt[icvStart..] then Reject else
      var ct := pkt[HEADER_LEN + CBC_IV_LEN..icvStart];
      Authentic(U32(pkt[4..8]),
                if |ct| % AES_BLOCK != 0 then None
                else ParseTrailer(c.cbcDecrypt(d.encr, pkt[HEADER_LEN..HEADER_LEN + CBC_IV_LEN], ct)))
  }

  /** Byte-equal recovery: every packet is authentic at the far end and carries back
      its sequence number and inner datagram, for every suite and every datagram. */
  lemma InspectPacket(c: Primitives, d: Direction, num: uint32, iv: Bytes, inner: Bytes)
    requires Laws(c) && KeysFit(d) && |iv| == CBC_IV_LEN
    ensures Inspect(c, d, Packet(c, d, num, iv, inner)) == Authentic(num, Some(inner))
  {
    var h := Header(d.spi, num);
    var pkt := Packet(c, d, num, iv, inner);
    var plain := Plain(d.suite, inner);
    assert pkt[..HEADER_LEN] == h && pkt[..4] == Be32(d.spi) && pkt[4..8] == Be32(num);
    U32OfBe32(d.spi);
    U32OfBe32(num);
    TrailerRoundTrip(inner, PadLen(d.suite, |inner|));
    if d.suite.Aead() {
      assert pkt[8..16] == Be64(num);
      var sealed := c.seal(d.suite, AeadKey(d.encr), Nonce(d.encr, Be64(num)), plain, h);
      assert pkt[16..] == sealed;
    } else {
      var ct := c.cbcEncrypt(d.encr, iv, plain);
      var body := h + iv + ct;
      assert pkt[..|pkt| - ICV_LEN] == body && pkt[|pkt| - ICV_LEN..] == Mac(c, d.integ, body);
      assert pkt[8..24] == iv && pkt[24..|pkt| - ICV_LEN] == ct;
      assert |plain| % AES_BLOCK == 0 && |plain| >= 16;
    }
  }

  // ----- the octets of a packet -----

  predicate Counting(b: Bytes) {
    forall i :: 0 <= i < |b| ==> b[i] == (i + 1) % 256
  }

  /** inner, then 1, 2, ..., p, then p, then the protocol number of inner: 41 for IPv6,
      recognised by its version, and 4 for everything else. */
  predicate Trailed(plain: Bytes, inner: Bytes, p: nat) {
    && |plain| == |inner| + p + 2 && plain[..|inner|] == inner
    && Counting(plain[|inner|..|inner| + p]) && plain[|inner| + p] == p
    && (plain[|inner| + p + 1] == 41 <==> inner != [] && inner[0] / 16 == 6)
    && (plain[|inner| + p + 1] == 4 <==> !(inner != [] && inner[0] / 16 == 6))
  }

  /** A packet read with the keys alone: SPI and number, then for the AEAD suites the
      number again as the IV and what opens to the trailed datagram, authenticated with the
      first 8 octets; for the CBC suite the IV, what decrypts to the trailed datagram, and
      16 octets of MAC over all that precedes. The padding is the least that aligns. */
  lemma PacketOctets(c: Primitives, d: Direction, num: uint32, iv: Bytes, inner: Bytes)
    requires Laws(c) && KeysFit(d) && |iv| == 16
    ensures var pkt := Packet(c, d, num, iv, inner);
            && |pkt| >= (if d.suite == AesCbc256Sha256 then 56 else 36) && U32(pkt[..4]) == d.spi && U32(pkt[4..8]) == num
            && if d.suite != AesCbc256Sha256 then
                 var plain := c.open(d.suite, d.encr[..32], d.encr[32..36] + pkt[8..16], pkt[16..], pkt[..8]);
                 && U64(pkt[8..16]) == num && plain.Some? && |plain.value| % 4 == 0 && exists p :: 0 <= p < 4 && Trailed(plain.value, inner, p)
               else
                 var end := |pkt| - 16;
                 var plain := c.cbcDecrypt(d.encr, pkt[8..24], pkt[24..end]);
                 && pkt[8..24] == iv && pkt[end..] == c.prf(d.integ, pkt[..end])[..16]
                 && |plain| % 16 == 0 && exists p :: 0 <= p < 16 && Trailed(plain, inner, p)
  {
    hide Be32;
    var h, pkt, plain := Header(d.spi, num), Packet(c, d, num, iv, inner), Plain(d.suite, inner);
    assert pkt[..8] == h && pkt[..4] == Be32(d.spi) && pkt[4..8] == Be32(num);
    U32OfBe32(d.spi);
    U32OfBe32(num);
    PlainTrailed(d.suite, inner);
    hide Plain;
    if d.suite.Aead() {
      assert pkt[8..16] == Be64(num);
      U64OfBe64(num);
      assert AeadKey(d.encr) == d.encr[..32] && Nonce(d.encr, Be64(num)) == d.encr[32..36] + pkt[8..16];
      assert pkt[16..] == c.seal(d.suite, AeadKey(d.encr), Nonce(d.encr, Be64(num)), plain, h);
    } else {
      var ct := c.cbcEncrypt(d.encr, iv, plain);
      var body := h + iv + ct;
      assert pkt[..|pkt| - 16] == body && pkt[|pkt| - 16..] == Mac(c, d.integ, body);
      assert pkt[8..24] == iv && pkt[24..|pkt| - 16] == ct;
    }
  }

  lemma PlainTrailed(s: Cipher, inner: Bytes)
    ensures Trailed(Plain(s, inner), inner, PadLen(s, |inner|))
    ensures |Plain(s, inner)| % 4 == 0 && (!s.Aead() ==> |Plain(s, inner)| % 16 == 0 && |Plain(s, inner)| >= 16)
    ensures PadLen(s, |inner|) < if s.Aead() then 4 else 16
  {
    var plain, p := Plain(s, inner), PadLen(s, |inner|);
    assert plain[|inner|..|inner| + p] == Padding(p);
  }

  // ----- what the receiver accepts -----

  /** Any octets at all are trusted exactly when they are long enough, carry our SPI and
      authenticate, and then the number is the one they carry. */
  lemma AuthenticExactly(c: Primitives, d: Direction, pkt: Bytes)
    requires Laws(c) && KeysFit(d)
    ensures Inspect(c, d, pkt).Authentic? <==>
            && |pkt| >= (if d.suite == AesCbc256Sha256 then 56 else 34) && U32(pkt[..4]) == d.spi
            && if d.suite == AesCbc256Sha256 then pkt[|pkt| - 16..] == c.prf(d.integ, pkt[..|pkt| - 16])[..16]
               else c.open(d.suite, d.encr[..32], d.encr[32..36] + pkt[8..16], pkt[16..], pkt[..8]).Some?
    ensures Inspect(c, d, pkt).Authentic? ==> Inspect(c, d, pkt).num == U32(pkt[4..8])
  {
    hide U32;
    if d.suite.Aead() {
      assert AeadKey(d.encr) == d.encr[..32] && d.encr[32..36] == d.encr[|d.encr| - 4..];
    }
  }


  /** Exactly a datagram with the counting padding, its length and one of the two
      protocol numbers. */
  lemma TrailerExactly(plain: Bytes, inner: Bytes)
    ensures ParseTrailer(plain) == Some(inner) <==> exists p: nat :: Closed(plain, inner, p)
  {
    if |plain| >= 2 {
      var p := plain[|plain| - 2];
      if p + 2 <= |plain| {
        var mid := plain[|plain| - 2 - p..|plain| - 2];
        assert mid == Padding(p) <==> Counting(mid);
        assert ParseTrailer(plain) == Some(inner) ==> Closed(plain, inner, p);
      }
    }
  }

  predicate Closed(plain: Bytes, inner: Bytes, p: nat) {
    && |plain| == |inner| + p + 2 && plain[..|inner|] == inner
    && Counting(plain[|inner|..|inner| + p]) && plain[|inner| + p] == p && plain[|inner| + p + 1] in {4, 41}
  }

  // ----- building a packet in place -----

  /** fillTrailer: lays the plaintext out in plain[from..], which it fills exactly. */
  method FillTrailer(out: array<byte>, from: nat, inner: Bytes, padLen: byte)
    requires from + |inner| + padLen + 2 <= out.Length
    modifies out
    ensures out[..from] == old(out[..from])
    ensures out[from..from + |inner| + padLen + 2] == WithTrailer(inner, padLen)
    ensures out[from + |inner| + padLen + 2..] == old(out[from + |inner| + padLen + 2..])
  {
    ghost var was := out[..];
    forall i | 0 <= i < |inner| {
      out[from + i] := inner[i];
    }
    var i: nat := 0;
    while i < padLen
      invariant i <= padLen
      invariant forall j :: 0 <= j < from || from + |inner| + padLen <= j < out.Length ==> out[j] == was[j]
      invariant forall j :: 0 <= j < |inner| ==> out[from + j] == inner[j]
      invariant forall j :: 0 <= j < i ==> out[from + |inner| + j] == Padding(padLen)[j]
    {
      out[from + |inner| + i] := i + 1;
      i := i + 1;
    }
    var n := from + |inner| + padLen;
    out[n] := padLen;
    out[n + 1] := NextHeaderFor(inner);
    ghost var w := WithTrailer(inner, padLen);
    forall j | 0 <= j < |w| ensures out[from + j] == w[j] {
      if |inner| <= j < |inner| + padLen {
        assert w[j] == Padding(padLen)[j - |inner|];
      }
    }
  }

  /** Overwrites out[from..] with s. */
  method Put(out: array<byte>, from: nat, s: Bytes)
    requires from + |s| <= out.Length
    modifies out
    ensures out[..] == old(out[..from]) + s + old(out[from + |s|..])
  {
    forall i | 0 <= i < |s| {
      out[from + i] := s[i];
    }
  }

  /** Header, IV and plaintext of a packet in a buffer with room for the ICV. */
  method LayOut(d: Direction, num: uint32, iv: Bytes, inner: Bytes) returns (out: array<byte>)
    ensures fresh(out)
    ensures out.Length == HEADER_LEN + |iv| + |Plain(d.suite, inner)| + ICV_LEN
    ensures out[..HEADER_LEN] == Header(d.spi, num)
    ensures out[..out.Length - ICV_LEN] == Header(d.spi, num) + iv + Plain(d.suite, inner)
  {
    var padLen := PadLen(d.suite, |inner|);
    var start := HEADER_LEN + |iv|;
    out := new byte[start + |inner| + padLen + 2 + ICV_LEN](_ => 0);
    Put(out, 0, Be32(d.spi));
    Put(out, 4, Be32(num));
    Put(out, HEADER_LEN, iv);
    assert out[..start] == Header(d.spi, num) + iv;
    FillTrailer(out, start, inner, padLen);
    assert out[..out.Length - ICV_LEN] == out[..start] + out[start..start + |inner| + padLen + 2];
  }

  /** The packet assembled in one buffer: the plaintext is laid out where its
      ciphertext then replaces it, and the ICV or tag fills the rest. */
  method BuildPacket(c: Primitives, d: Direction, num: uint32, iv: Bytes, inner: Bytes) returns (pkt: Bytes)
    requires Laws(c) && KeysFit(d) && |iv| == CBC_IV_LEN
    ensures pkt == Packet(c, d, num, iv, inner)
  {
    var h := Header(d.spi, num);
    if d.suite.Aead() {
      var out := LayOut(d, num, Be64(num), inner);
      var start := HEADER_LEN + AEAD_IV_LEN;
      var plain := out[start..out.Length - ICV_LEN];
      assert plain == Plain(d.suite, inner) && out[..start] == h + Be64(num);
      Put(out, start, c.seal(d.suite, AeadKey(d.encr), Nonce(d.encr, Be64(num)), plain, out[..HEADER_LEN]));
      pkt := out[..];
    } else {
      var out := LayOut(d, num, iv, inner);
      var start := HEADER_LEN + CBC_IV_LEN;
      var end := out.Length - ICV_LEN;
      var plain := out[start..end];
      assert plain == Plain(d.suite, inner) && out[..start] == h + iv;
      Put(out, start, c.cbcEncrypt(d.encr, iv, plain));
      assert out[..end] == h + iv + c.cbcEncrypt(d.encr, iv, plain);
      Put(out, end, Mac(c, d.integ, out[..end]));
      pkt := out[..];
    }
  }

  // ----- the sending end -----

  class Sender {
    const c: Primitives
    const dir: Direction
    var counter: uint32
    /** Every sequence number this SA ever put on a packet, in order. */
    ghost var used: seq<uint32>

    ghost predicate Valid()
      reads this
    {
      && KeysFit(dir)
      && |used| == counter
      && forall i :: 0 <= i < |used| ==> used[i] == i + 1
    }

    constructor (c: Primitives, dir: Direction)
      requires KeysFit(dir)
      ensures Valid() && this.c == c && this.dir == dir && counter == 0
    {
      this.c := c;
      this.dir := dir;
      counter := 0;
      used := [];
    }

    /** Encrypt: allocates the next number, then builds the packet; iv is what the random
        source yields, which only the CBC suite asks. Its failure burns the number. */
    method Encrypt(iv: Option<Bytes>, inner: Bytes) returns (r: Option<Bytes>)
      requires Valid() && Laws(c) && (iv.Some? ==> |iv.value| == CBC_IV_LEN)
      modifies this
      ensures Valid()
      ensures counter == if old(counter) == SEQ_MAX then SEQ_MAX else old(counter) + 1
      ensures r.None? <==> old(counter) == SEQ_MAX || (!dir.suite.Aead() && iv.None?)
      ensures r.Some? ==> r.value == Packet(c, dir, counter, if iv.Some? then iv.value else Zeros(CBC_IV_LEN), inner)
    {
      if counter == SEQ_MAX {
        return None;
      }
      counter := counter + 1;
      used := used + [counter];
      if !dir.suite.Aead() && iv.None? {
        return None;
      }
      var pkt := BuildPacket(c, dir, counter, if iv.Some? then iv.value else Zeros(CBC_IV_LEN), inner);
      r := Some(pkt);
    }
  }

  // ----- the receiving end -----

  class Receiver {
    const c: Primitives
    const dir: Direction
    const window: Replay.ReplayWindow

    ghost predicate Valid()
      reads window, window.bits
    {
      KeysFit(dir) && window.Valid()
    }

    constructor (c: Primitives, dir: Direction, replayWindow: uint32)
      requires KeysFit(dir)
      ensures Valid() && this.c == c && this.dir == dir && fresh(window) && fresh(window.bits)
      ensures window.Abs() == Replay.NOTHING
    {
      this.c := c;
      this.dir := dir;
      this.window := new Replay.ReplayWindow(replayWindow);
    }

    /** Decrypt: only an authentic packet reaches the replay window. */
    method Decrypt(pkt: Bytes) returns (r: Option<Bytes>)
      requires Valid()
      modifies window, window.bits
      ensures Valid() && window.size == old(window.size)
      ensures var before := old(window.Abs());
              r == Delivered(c, dir, before, window.size, pkt)
              && window.Abs() == Moved(c, dir, before, window.size, pkt)
    {
      var v := Inspect(c, dir, pkt);
      if v.Reject? {
        return None;
      }
      var ok := window.Accept(v.num);
      if !ok {
        return None;
      }
      return v.content;
    }
  }

  /** What Decrypt hands up, and the accepted numbers afterwards. */
  function Delivered(c: Primitives, d: Direction, s: Replay.Seen, size: nat, pkt: Bytes): Option<Bytes>
    requires KeysFit(d)
  {
    var v := Inspect(c, d, pkt);
    if v.Authentic? && Replay.Fresh(s, size, v.num) then v.content else None
  }

  function Moved(c: Primitives, d: Direction, s: Replay.Seen, size: nat, pkt: Bytes): Replay.Seen
    requires KeysFit(d)
  {
    var v := Inspect(c, d, pkt);
    if v.Authentic? then Replay.Record(s, size, v.num) else s
  }
}
