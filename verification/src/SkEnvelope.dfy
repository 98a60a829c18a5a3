/** The SK{} envelope: a payload chain encrypted and authenticated inside an already
    encoded message (section 3.14 of RFC 7296, RFC 5282). */
module SkEnvelope {
  import opened Bytes
  import opened Crypto
  import opened IkeMsg
  import opened KeySchedule
  import MC = MessageCodec

  const SK_OFFSET := 32
  const SEQ_LIMIT := 0x1_0000_0000_0000_0000

  /** The IKE header fields a caller chooses for an SK{} message. */
  datatype Fields = Fields(spii: uint64, spir: uint64, exchange: byte, flags: byte, messageID: uint32)

  function Carrier(f: Fields, innerFirst: byte, data: Bytes): Message {
    Message(f.spii, f.spir, f.exchange, f.flags, f.messageID, [SK(innerFirst, data)])
  }

  // ----- padding -----

  function SkPadLen(n: nat): (p: byte)
    ensures p < AES_BLOCK && (n + 1 + p) % AES_BLOCK == 0
  {
    PadToBlock(n + 1)
  }

  function Padded(plaintext: Bytes): Bytes {
    plaintext + Padding(SkPadLen(|plaintext|)) + [SkPadLen(|plaintext|)]
  }

  /** Strips the pad length octet and that many octets before it. */
  function Strip(padded: Bytes): Option<Bytes> {
    if padded == [] then None else
    var padLen := padded[|padded| - 1];
    if padLen + 1 > |padded| then None else Some(padded[..|padded| - padLen - 1])
  }

  lemma StripPadded(plaintext: Bytes)
    ensures Strip(Padded(plaintext)) == Some(plaintext)
    ensures Strip(plaintext + [0]) == Some(plaintext)
    ensures |Padded(plaintext)| % AES_BLOCK == 0
  {
    var p := Padded(plaintext);
    assert p[..|p| - SkPadLen(|plaintext|) - 1] == plaintext;
    assert (plaintext + [0])[..|plaintext|] == plaintext;
  }

  // ----- sealing -----

  /** EncryptToSK: the SK body before the message exists; the ICV is still zero and an
      AEAD plaintext still in the clear. */
  function Draft(c: Primitives, k: IkeKeys, iv: Bytes, num: uint64, plaintext: Bytes): Bytes {
    if k.suite.Aead() then Be64(num) + plaintext + [0] + Zeros(ICV_LEN)
    else iv + c.cbcEncrypt(k.OutEncr(), iv, Padded(plaintext)) + Zeros(ICV_LEN)
  }

  function SkKey(encr: Bytes): Bytes
    requires |encr| >= SALT_LEN
  {
    encr[..|encr| - SALT_LEN]
  }

  function SkNonce(encr: Bytes, iv: Bytes): Bytes
    requires |encr| >= SALT_LEN
  {
    encr[|encr| - SALT_LEN..] + iv
  }

  /** FinalizeSK: the last n octets of raw are a draft SK body. */
  function Finalized(c: Primitives, k: IkeKeys, raw: Bytes, n: nat): Result<Bytes>
    requires KeysFit(k)
  {
    if !k.suite.Aead() then
      if |raw| < ICV_LEN then Err else
      var covered := raw[..|raw| - ICV_LEN];
      Ok(covered + Mac(c, k.OutInteg(), covered))
    else if n > |raw| || |raw| - n < SK_OFFSET || n < AEAD_IV_LEN + 1 + ICV_LEN then Err else
      var start := |raw| - n;
      var iv := raw[start..start + AEAD_IV_LEN];
      Ok(raw[..start + AEAD_IV_LEN]
         + c.seal(k.suite, SkKey(k.OutEncr()), SkNonce(k.OutEncr(), iv),
                  raw[start + AEAD_IV_LEN..|raw| - ICV_LEN], raw[..start]))
  }

  /** encodeSKWith: iv and num are the random IV (CBC) and the IV counter (AEAD). */
  function EncodeSk(c: Primitives, k: IkeKeys, f: Fields, inner: seq<Payload>, iv: Bytes, num: uint64): Result<Bytes>
    requires KeysFit(k)
  {
    match MC.Chain(inner)
    case Err => Err
    case Ok(plaintext) =>
      var sk := Draft(c, k, iv, num, plaintext);
      match MC.Marshal(Carrier(f, MC.First(inner), sk))
      case Err => Err
      case Ok(raw) => Finalized(c, k, raw, |sk|)
  }

  // ----- opening -----

  /** The plaintext when all is well; icvOK tells an authentication failure, after which
      the message may be tried under another SA, from a later one. */
  datatype Opened = Opened(plaintext: Option<Bytes>, icvOK: bool)

  function OpenSk(c: Primitives, k: IkeKeys, raw: Bytes, skData: Bytes): Opened
    requires KeysFit(k)
  {
    if k.suite.Aead() then
      if |raw| - |skData| < SK_OFFSET || |skData| < AEAD_IV_LEN + 1 + ICV_LEN then Opened(None, false) else
      match c.open(k.suite, SkKey(k.InEncr()), SkNonce(k.InEncr(), skData[..AEAD_IV_LEN]),
                   skData[AEAD_IV_LEN..], raw[..|raw| - |skData|])
      case None => Opened(None, false)
      case Some(padded) => Opened(Strip(padded), true)
    else if |raw| < ICV_LEN || raw[|raw| - ICV_LEN..] != Mac(c, k.InInteg(), raw[..|raw| - ICV_LEN]) then
      Opened(None, false)
    else if |skData| < ICV_LEN + AES_BLOCK then Opened(None, true) else
      var ct := skData[AES_BLOCK..|skData| - ICV_LEN];
      if ct == [] || |ct| % AES_BLOCK != 0 then Opened(None, true)
      else Opened(Strip(c.cbcDecrypt(k.InEncr(), skData[..AES_BLOCK], ct)), true)
  }

  datatype Decoded = Decoded(result: Result<(Message, seq<Payload>)>, icvOK: bool)

  function FirstSk(ps: seq<Payload>): Option<Payload> {
    if ps == [] then None else if ps[0].SK? then Some(ps[0]) else FirstSk(ps[1..])
  }

  /** decodeSKWith. */
  function DecodeSk(c: Primitives, k: IkeKeys, raw: Bytes): Decoded
    requires KeysFit(k)
  {
    match MC.Parse(raw)
    case Err => Decoded(Err, false)
    case Ok(m) =>
      match FirstSk(m.payloads)
      case None => Decoded(Err, false)
      case Some(enc) =>
        if !enc.SK? then Decoded(Err, false) else
        var o := OpenSk(c, k, raw, enc.data);
        if o.plaintext.None? then Decoded(Err, o.icvOK) else
        match MC.ParseChain(enc.innerFirst, o.plaintext.value)
        case Err => Decoded(Err, true)
        case Ok(inner) => Decoded(Ok((m, inner)), true)
  }

  // ----- the round trip -----

  /** The encoding of a carrier depends on its SK data only in the tail. */
  lemma CarrierBytes(f: Fields, innerFirst: byte, data: Bytes)
    ensures |data| <= MC.MAX_BODY <==> MC.Marshal(Carrier(f, innerFirst, data)).Ok?
    ensures |data| <= MC.MAX_BODY ==>
              MC.Marshal(Carrier(f, innerFirst, data)).value ==
              MC.Header(Carrier(f, innerFirst, data), PAYLOAD_SK, SK_OFFSET + |data|)
              + MC.GenericHeader(innerFirst, MC.GENERIC_HEADER_LEN + |data|) + data
  {
    hide MC.Header, MC.GenericHeader;
    var ps := [SK(innerFirst, data)];
    assert ps[1..] == [];
    if |data| <= MC.MAX_BODY {
      MC.ChainOf(ps, data, []);
      var b := MC.GenericHeader(innerFirst, MC.GENERIC_HEADER_LEN + |data|) + data;
      assert b + [] == b;
    }
  }

  /** Replacing the SK body in place, at the same length, is encoding the message that
      carries the new body. */
  lemma ReplaceTail(f: Fields, innerFirst: byte, draft: Bytes, data: Bytes)
    requires |draft| == |data| <= MC.MAX_BODY
    ensures MC.Marshal(Carrier(f, innerFirst, draft)).Ok? && MC.Marshal(Carrier(f, innerFirst, data)).Ok?
    ensures var raw := MC.Marshal(Carrier(f, innerFirst, draft)).value;
            |raw| == SK_OFFSET + |data|
            && MC.Marshal(Carrier(f, innerFirst, data)).value == raw[..SK_OFFSET] + data
  {
    CarrierBytes(f, innerFirst, draft);
    CarrierBytes(f, innerFirst, data);
    HeaderIgnoresPayloads(Carrier(f, innerFirst, draft), Carrier(f, innerFirst, data), SK_OFFSET + |data|);
    hide MC.Header, MC.GenericHeader, MC.Marshal;
    var pre := MC.Header(Carrier(f, innerFirst, data), PAYLOAD_SK, SK_OFFSET + |data|)
               + MC.GenericHeader(innerFirst, MC.GENERIC_HEADER_LEN + |data|);
    assert (pre + draft)[..SK_OFFSET] == pre;
  }

  lemma HeaderIgnoresPayloads(a: Message, b: Message, total: nat)
    requires b == a.(payloads := b.payloads)
    ensures MC.Header(a, PAYLOAD_SK, total) == MC.Header(b, PAYLOAD_SK, total)
  {}

  lemma ParseCarrier(f: Fields, innerFirst: byte, data: Bytes)
    requires |data| <= MC.MAX_BODY
    ensures MC.Marshal(Carrier(f, innerFirst, data)).Ok?
    ensures MC.Parse(MC.Marshal(Carrier(f, innerFirst, data)).value) == Ok(Carrier(f, innerFirst, data))
  {
    var m := Carrier(f, innerFirst, data);
    CarrierBytes(f, innerFirst, data);
    hide MC.Header, MC.GenericHeader;
    MC.RoundTripExactly(m);
    assert MC.WellFormed(m) by {
      assert MC.WellFormedChain(m.payloads);
    }
  }

  /** What the sealed body is, and that the far end opens it. */
  lemma OpenSealed(c: Primitives, a: IkeKeys, b: IkeKeys, iv: Bytes, num: uint64, plaintext: Bytes, raw: Bytes)
    requires Laws(c) && KeysFit(a) && Mirrored(a, b) && |iv| == AES_BLOCK
    requires |raw| == SK_OFFSET + |Draft(c, a, iv, num, plaintext)|
    requires raw[SK_OFFSET..] == Draft(c, a, iv, num, plaintext)
    ensures var fin := Finalized(c, a, raw, |raw| - SK_OFFSET);
            && fin.Ok? && |fin.value| == |raw| && fin.value[..SK_OFFSET] == raw[..SK_OFFSET]
            && OpenSk(c, b, fin.value, fin.value[SK_OFFSET..]) == Opened(Some(plaintext), true)
  {
    MirroredDirections(a, b);
    StripPadded(plaintext);
    if a.suite.Aead() {
      OpenSealedAead(c, a, b, num, plaintext, raw);
    } else {
      OpenSealedCbc(c, a, b, iv, plaintext, raw);
    }
  }

  lemma OpenSealedAead(c: Primitives, a: IkeKeys, b: IkeKeys, num: uint64, plaintext: Bytes, raw: Bytes)
    requires Laws(c) && KeysFit(a) && Mirrored(a, b) && a.suite.Aead()
    requires |raw| >= SK_OFFSET && raw[SK_OFFSET..] == Be64(num) + plaintext + [0] + Zeros(ICV_LEN)
    requires Strip(plaintext + [0]) == Some(plaintext) && a.OutEncr() == b.InEncr()
    ensures var fin := Finalized(c, a, raw, |raw| - SK_OFFSET);
            && fin.Ok? && |fin.value| == |raw| && fin.value[..SK_OFFSET] == raw[..SK_OFFSET]
            && OpenSk(c, b, fin.value, fin.value[SK_OFFSET..]) == Opened(Some(plaintext), true)
  {
    hide Strip, Zeros;
    var draft := raw[SK_OFFSET..];
    assert draft[..AEAD_IV_LEN] == Be64(num);
    assert draft[AEAD_IV_LEN..|draft| - ICV_LEN] == plaintext + [0];
    assert raw[SK_OFFSET..SK_OFFSET + AEAD_IV_LEN] == draft[..AEAD_IV_LEN];
    assert raw[SK_OFFSET + AEAD_IV_LEN..|raw| - ICV_LEN] == draft[AEAD_IV_LEN..|draft| - ICV_LEN];
    var key, nonce := SkKey(a.OutEncr()), SkNonce(a.OutEncr(), Be64(num));
    var ct := c.seal(a.suite, key, nonce, plaintext + [0], raw[..SK_OFFSET]);
    var fin := raw[..SK_OFFSET + AEAD_IV_LEN] + ct;
    assert Finalized(c, a, raw, |raw| - SK_OFFSET) == Ok(fin);
    var data := fin[SK_OFFSET..];
    assert data[..AEAD_IV_LEN] == Be64(num) && data[AEAD_IV_LEN..] == ct;
    assert fin[..|fin| - |data|] == raw[..SK_OFFSET];
    assert c.open(b.suite, key, nonce, ct, raw[..SK_OFFSET]) == Some(plaintext + [0]);
  }

  lemma OpenSealedCbc(c: Primitives, a: IkeKeys, b: IkeKeys, iv: Bytes, plaintext: Bytes, raw: Bytes)
    requires Laws(c) && KeysFit(a) && Mirrored(a, b) && !a.suite.Aead() && |iv| == AES_BLOCK
    requires |raw| >= SK_OFFSET
    requires raw[SK_OFFSET..] == iv + c.cbcEncrypt(a.OutEncr(), iv, Padded(plaintext)) + Zeros(ICV_LEN)
    requires Strip(Padded(plaintext)) == Some(plaintext) && |Padded(plaintext)| % AES_BLOCK == 0
    requires a.OutEncr() == b.InEncr() && a.OutInteg() == b.InInteg()
    ensures var fin := Finalized(c, a, raw, |raw| - SK_OFFSET);
            && fin.Ok? && |fin.value| == |raw| && fin.value[..SK_OFFSET] == raw[..SK_OFFSET]
            && OpenSk(c, b, fin.value, fin.value[SK_OFFSET..]) == Opened(Some(plaintext), true)
  {
    var padded := Padded(plaintext);
    assert |padded| > 0;
    hide Strip, Zeros, Padded;
    var ct := c.cbcEncrypt(a.OutEncr(), iv, padded);
    var draft := raw[SK_OFFSET..];
    var covered := raw[..|raw| - ICV_LEN];
    var mac := Mac(c, a.OutInteg(), covered);
    var fin := covered + mac;
    assert Finalized(c, a, raw, |raw| - SK_OFFSET) == Ok(fin);
    assert covered == raw[..SK_OFFSET] + draft[..|draft| - ICV_LEN] && draft[..|draft| - ICV_LEN] == iv + ct;
    var data := fin[SK_OFFSET..];
    assert data == iv + ct + mac;
    assert data[..AES_BLOCK] == iv && data[AES_BLOCK..|data| - ICV_LEN] == ct;
    assert fin[|fin| - ICV_LEN..] == mac && fin[..|fin| - ICV_LEN] == covered;
    assert |ct| > 0 && |ct| % AES_BLOCK == 0;
  }

  /** For mirrored IKE SAs of any suite and any well-formed payload chain, the empty one
      included, decoding the encoding returns the header fields and the chain; encoding
      fails only when the SK body would not fit its 16-bit length. */
  lemma EnvelopeRoundTrip(c: Primitives, a: IkeKeys, b: IkeKeys, f: Fields, inner: seq<Payload>, iv: Bytes, num: uint64)
    requires Laws(c) && KeysFit(a) && Mirrored(a, b) && |iv| == AES_BLOCK
    requires MC.WellFormedChain(inner)
    ensures MC.Chain(inner).Ok?
    ensures var wire := EncodeSk(c, a, f, inner, iv, num);
            && (wire.Ok? <==> |Draft(c, a, iv, num, MC.Chain(inner).value)| <= MC.MAX_BODY)
            && (wire.Ok? ==> DecodeSk(c, b, wire.value) ==
                             Decoded(Ok((Carrier(f, MC.First(inner), wire.value[SK_OFFSET..]), inner)), true))
  {
    MC.ChainRoundTrip(inner);
    var plaintext, first := MC.Chain(inner).value, MC.First(inner);
    var draft := Draft(c, a, iv, num, plaintext);
    CarrierBytes(f, first, draft);
    if |draft| <= MC.MAX_BODY {
      hide MC.Chain, MC.ParseChain, MC.WellFormedChain, MC.Header, MC.GenericHeader, Draft, OpenSk;
      ReplaceTail(f, first, draft, draft);
      var raw := MC.Marshal(Carrier(f, first, draft)).value;
      assert raw[SK_OFFSET..] == draft;
      OpenSealed(c, a, b, iv, num, plaintext, raw);
      var fin := Finalized(c, a, raw, |draft|).value;
      var data := fin[SK_OFFSET..];
      ReplaceTail(f, first, draft, data);
      assert fin == raw[..SK_OFFSET] + data;
      ParseCarrier(f, first, data);
      hide MC.Marshal, MC.Parse, Finalized;
      assert EncodeSk(c, a, f, inner, iv, num) == Ok(fin);
    }
  }

  // ----- the octets of a sealed message -----

  /** plaintext, then 1, 2, ..., p, then p, in whole blocks of 16. */
  predicate Filled(padded: Bytes, plaintext: Bytes, p: nat) {
    && p < 16 && |padded| == |plaintext| + p + 1 && |padded| % 16 == 0 && padded[..|plaintext|] == plaintext
    && (forall i :: |plaintext| <= i < |plaintext| + p ==> padded[i] == i - |plaintext| + 1) && padded[|plaintext| + p] == p
  }

  predicate PadsOut(padded: Bytes, plaintext: Bytes) {
    exists p :: 0 <= p < 16 && Filled(padded, plaintext, p)
  }

  /** The 28-octet header and the SK payload header, which names the first inner payload. */
  predicate Headed(raw: Bytes, f: Fields, first: byte) {
    && |raw| >= 32 && U64(raw[..8]) == f.spii && U64(raw[8..16]) == f.spir
    && raw[16] == 46 && raw[17] == 0x20 && raw[18] == f.exchange && raw[19] == f.flags
    && U32(raw[20..24]) == f.messageID && U32(raw[24..28]) == |raw|
    && raw[28] == first && raw[29] == 0 && (raw[30] as int) * 256 + raw[31] == |raw| - 28
  }

  /** What follows, read with the sender's keys, SK_ei and SK_ai for the initiator: for the
      AEAD suites the counter and what seals the chain and one zero octet together with
      all 32 octets before; for the CBC suite the IV, what decrypts to the padded chain, and
      16 octets of MAC over all that precedes. */
  ghost predicate SealedAs(c: Primitives, k: IkeKeys, wire: Bytes, iv: Bytes, num: uint64, plaintext: Bytes)
    requires KeysFit(k) && PrfLaw(c)
  {
    var encr, integ := if k.role == Initiator then k.skei else k.sker, if k.role == Initiator then k.skai else k.skar;
    if k.suite != AesCbc256Sha256 then
      && |wire| >= 57 && U64(wire[32..40]) == num
      && wire[40..] == c.seal(k.suite, encr[..32], encr[32..36] + wire[32..40], plaintext + [0], wire[..32])
    else
      var end := |wire| - 16;
      && end >= 64 && wire[32..48] == iv && wire[end..] == c.prf(integ, wire[..end])[..16]
      && PadsOut(c.cbcDecrypt(encr, iv, wire[48..end]), plaintext)
  }

  /** Every encoding has these octets. */
  lemma EnvelopeOctets(c: Primitives, k: IkeKeys, f: Fields, inner: seq<Payload>, iv: Bytes, num: uint64)
    requires Laws(c) && KeysFit(k) && |iv| == 16 && EncodeSk(c, k, f, inner, iv, num).Ok?
    ensures MC.Chain(inner).Ok?
    ensures var wire := EncodeSk(c, k, f, inner, iv, num).value;
            && Headed(wire, f, if inner == [] then 0 else inner[0].Type())
            && SealedAs(c, k, wire, iv, num, MC.Chain(inner).value)
  {
    var plaintext, first := MC.Chain(inner).value, MC.First(inner);
    hide MC.Chain, Draft, Headed, SealedAs, MC.Header, MC.GenericHeader;
    var draft := Draft(c, k, iv, num, plaintext);
    CarrierBytes(f, first, draft);
    ReplaceTail(f, first, draft, draft);
    var raw := MC.Marshal(Carrier(f, first, draft)).value;
    assert raw[32..] == draft;
    CarrierHeader(f, first, draft);
    hide MC.Marshal, Finalized;
    if k.suite.Aead() {
      SealedAead(c, k, iv, num, plaintext, raw);
    } else {
      SealedCbc(c, k, iv, num, plaintext, raw);
    }
    HeadedKept(raw, EncodeSk(c, k, f, inner, iv, num).value, f, first);
  }

  lemma HeadedKept(raw: Bytes, wire: Bytes, f: Fields, first: byte)
    requires Headed(raw, f, first) && |wire| == |raw| && wire[..32] == raw[..32]
    ensures Headed(wire, f, first)
  {
    hide U32, U64;
    assert forall i :: 0 <= i < 32 ==> wire[i] == wire[..32][i] == raw[i];
    assert wire[..8] == raw[..8] && wire[8..16] == raw[8..16] && wire[20..24] == raw[20..24] && wire[24..28] == raw[24..28];
  }

  lemma CarrierHeader(f: Fields, first: byte, data: Bytes)
    requires |data| <= MC.MAX_BODY
    ensures MC.Marshal(Carrier(f, first, data)).Ok?
    ensures Headed(MC.Marshal(Carrier(f, first, data)).value, f, first)
  {
    CarrierBytes(f, first, data);
    var n := SK_OFFSET + |data|;
    U64OfBe64(f.spii);
    U64OfBe64(f.spir);
    U32OfBe32(f.messageID);
    U32OfBe32(n);
    HiLo(MC.GENERIC_HEADER_LEN + |data|);
    hide MC.Marshal, Be, Hi, Lo, U32, U64;
    var h, g := MC.Header(Carrier(f, first, data), PAYLOAD_SK, n), MC.GenericHeader(first, MC.GENERIC_HEADER_LEN + |data|);
    MC.HeaderFields(Carrier(f, first, data), PAYLOAD_SK, n, g + data);
    var raw := MC.Marshal(Carrier(f, first, data)).value;
    assert raw == h + (g + data);
    assert raw[17] == h[17] && raw[28] == g[0] && raw[29] == g[1] && raw[30] == g[2] && raw[31] == g[3];
  }

  lemma SealedAead(c: Primitives, k: IkeKeys, iv: Bytes, num: uint64, plaintext: Bytes, raw: Bytes)
    requires Laws(c) && KeysFit(k) && k.suite.Aead()
    requires |raw| >= 32 && raw[32..] == Draft(c, k, iv, num, plaintext)
    ensures var fin := Finalized(c, k, raw, |raw| - 32);
            && fin.Ok? && |fin.value| == |raw| && fin.value[..32] == raw[..32]
            && SealedAs(c, k, fin.value, iv, num, plaintext)
  {
    var draft, encr := raw[32..], k.OutEncr();
    U64OfBe64(num);
    assert draft[..8] == Be64(num) && draft[8..|draft| - 16] == plaintext + [0];
    assert raw[32..40] == draft[..8] && raw[40..|raw| - 16] == draft[8..|draft| - 16];
    var sealed := c.seal(k.suite, SkKey(encr), SkNonce(encr, Be64(num)), plaintext + [0], raw[..32]);
    var fin := raw[..40] + sealed;
    assert Finalized(c, k, raw, |raw| - 32) == Ok(fin);
    assert SkKey(encr) == encr[..32] && SkNonce(encr, Be64(num)) == encr[32..36] + Be64(num);
    assert fin[..32] == raw[..32] && fin[32..40] == Be64(num) && fin[40..] == sealed;
  }

  lemma SealedCbc(c: Primitives, k: IkeKeys, iv: Bytes, num: uint64, plaintext: Bytes, raw: Bytes)
    requires Laws(c) && KeysFit(k) && !k.suite.Aead() && |iv| == 16
    requires |raw| >= 32 && raw[32..] == Draft(c, k, iv, num, plaintext)
    ensures var fin := Finalized(c, k, raw, |raw| - 32);
            && fin.Ok? && |fin.value| == |raw| && fin.value[..32] == raw[..32]
            && SealedAs(c, k, fin.value, iv, num, plaintext)
  {
    var draft, padded := raw[32..], Padded(plaintext);
    StripPadded(plaintext);
    PaddedFills(plaintext);
    hide Padded, Zeros;
    var ct := c.cbcEncrypt(k.OutEncr(), iv, padded);
    var covered := raw[..|raw| - 16];
    var fin := covered + Mac(c, k.OutInteg(), covered);
    assert Finalized(c, k, raw, |raw| - 32) == Ok(fin);
    assert draft[..16] == iv && draft[16..|draft| - 16] == ct;
    assert fin[..|raw| - 16] == covered && fin[32..48] == draft[..16] && fin[48..|raw| - 16] == draft[16..|draft| - 16];
    assert Filled(padded, plaintext, SkPadLen(|plaintext|));
  }

  lemma PaddedFills(plaintext: Bytes)
    ensures Filled(Padded(plaintext), plaintext, SkPadLen(|plaintext|)) && |Padded(plaintext)| >= 16
  {
    var padded, n := Padded(plaintext), |plaintext|;
    assert forall i :: n <= i < n + SkPadLen(n) ==> padded[i] == Padding(SkPadLen(n))[i - n];
    StripPadded(plaintext);
  }

  /** Any message at all is authenticated under an SA exactly when the tag or the MAC, by
      the peer's keys of that SA, is right. */
  lemma OpensExactly(c: Primitives, k: IkeKeys, raw: Bytes, data: Bytes)
    requires Laws(c) && KeysFit(k) && |data| <= |raw|
    ensures OpenSk(c, k, raw, data).icvOK <==>
            if k.suite != AesCbc256Sha256 then
              var encr := if k.role == Initiator then k.sker else k.skei;
              && |raw| - |data| >= 32 && |data| >= 25
              && c.open(k.suite, encr[..32], encr[32..36] + data[..8], data[8..], raw[..|raw| - |data|]).Some?
            else
              var integ := if k.role == Initiator then k.skar else k.skai;
              |raw| >= 16 && raw[|raw| - 16..] == c.prf(integ, raw[..|raw| - 16])[..16]
    ensures OpenSk(c, k, raw, data).plaintext.Some? ==> OpenSk(c, k, raw, data).icvOK
  {
    hide Strip;
    var encr := k.InEncr();
    if k.suite.Aead() {
      assert SkKey(encr) == encr[..32] && encr[32..36] == encr[|encr| - 4..];
    }
  }

  /** Whatever is decoded was authenticated: the first SK payload of a valid message, by the
      peer's keys, and its plaintext is a valid chain of the type that payload names. */
  lemma AcceptedIsAuthentic(c: Primitives, k: IkeKeys, raw: Bytes)
    requires KeysFit(k) && DecodeSk(c, k, raw).result.Ok?
    ensures var (m, inner) := DecodeSk(c, k, raw).result.value;
            && MC.Parse(raw) == Ok(m)
            && exists i :: 0 <= i < |m.payloads| && m.payloads[i].SK? && (forall j :: 0 <= j < i ==> !m.payloads[j].SK?)
                           && var o := OpenSk(c, k, raw, m.payloads[i].data);
                              o.icvOK && o.plaintext.Some? && MC.ParseChain(m.payloads[i].innerFirst, o.plaintext.value) == Ok(inner)
  {
    hide MC.Parse, MC.ParseChain;
    var m := MC.Parse(raw).value;
    var i := FirstSkAt(m.payloads);
    hide Strip;
  }

  lemma {:induction false} FirstSkAt(ps: seq<Payload>) returns (i: nat)
    requires FirstSk(ps).Some?
    ensures i < |ps| && ps[i].SK? && FirstSk(ps) == Some(ps[i]) && forall j :: 0 <= j < i ==> !ps[j].SK?
    decreases ps
  {
    if ps[0].SK? {
      i := 0;
    } else {
      var k := FirstSkAt(ps[1..]);
      i := k + 1;
      assert forall j :: 0 < j < i ==> ps[j] == ps[1..][j - 1];
    }
  }

  // ----- the grace fallback -----

  /** decodeIKE: the current SA first; when its ICV fails, the superseded SA while its
      grace lasts.  The flag says which one decoded. */
  function DecodeIke(c: Primitives, cur: IkeKeys, prior: Option<IkeKeys>, inGrace: bool, raw: Bytes): (Decoded, bool)
    requires KeysFit(cur) && (prior.Some? ==> KeysFit(prior.value))
  {
    var d := DecodeSk(c, cur, raw);
    if d.result.Ok? then (d, false)
    else if !d.icvOK && prior.Some? && inGrace && DecodeSk(c, prior.value, raw).result.Ok?
    then (DecodeSk(c, prior.value, raw), true)
    else (d, false)
  }

  /** A message the peer sealed under the current SA decodes there; one it sealed under
      the superseded SA, and that does not authenticate under the current one, decodes
      under the superseded SA exactly while the grace lasts. */
  lemma GraceDecodes(c: Primitives, peer: IkeKeys, cur: IkeKeys, prior: Option<IkeKeys>, inGrace: bool,
                     f: Fields, inner: seq<Payload>, iv: Bytes, num: uint64)
    requires Laws(c) && KeysFit(peer) && KeysFit(cur) && (prior.Some? ==> KeysFit(prior.value))
    requires |iv| == AES_BLOCK && MC.WellFormedChain(inner) && EncodeSk(c, peer, f, inner, iv, num).Ok?
    ensures var raw := EncodeSk(c, peer, f, inner, iv, num).value;
            var expected := Decoded(Ok((Carrier(f, MC.First(inner), raw[SK_OFFSET..]), inner)), true);
            && (Mirrored(peer, cur) ==> DecodeIke(c, cur, prior, inGrace, raw) == (expected, false))
            && (prior.Some? && Mirrored(peer, prior.value) && DecodeSk(c, cur, raw) == Decoded(Err, false) ==>
                  DecodeIke(c, cur, prior, inGrace, raw) == if inGrace then (expected, true) else (Decoded(Err, false), false))
  {
    if Mirrored(peer, cur) {
      EnvelopeRoundTrip(c, peer, cur, f, inner, iv, num);
    }
    if prior.Some? && Mirrored(peer, prior.value) {
      EnvelopeRoundTrip(c, peer, prior.value, f, inner, iv, num);
    }
    hide EncodeSk, DecodeSk, MC.WellFormedChain;
  }

  // ----- sealing with a counter, in place -----

  /** The self-describing padding, octet by octet. */
  method PadOut(plaintext: Bytes) returns (padded: Bytes)
    ensures padded == Padded(plaintext)
  {
    var padLen := SkPadLen(|plaintext|);
    padded := plaintext;
    var i := 1;
    while i <= padLen
      invariant 1 <= i <= padLen + 1
      invariant padded == plaintext + Padding(padLen)[..i - 1]
    {
      padded := padded + [i];
      i := i + 1;
    }
    padded := padded + [padLen];
  }

  lemma NextCounter(n: nat)
    ensures (n % SEQ_LIMIT + 1) % SEQ_LIMIT == (n + 1) % SEQ_LIMIT
  {}

  /** The IV to use; an AEAD suite never looks at it. */
  function Drawn(iv: Option<Bytes>): Bytes {
    if iv.Some? then iv.value else Zeros(AES_BLOCK)
  }

  class Sealer {
    const c: Primitives
    const keys: IkeKeys
    /** The outbound IV counter. */
    var skSeq: uint64
    /** The counter values burned so far. */
    ghost var burned: seq<uint64>

    ghost predicate Valid()
      reads this
    {
      && Laws(c) && KeysFit(keys)
      && skSeq == |burned| % SEQ_LIMIT
      && forall i :: 0 <= i < |burned| ==> burned[i] == (i + 1) % SEQ_LIMIT
    }

    constructor (c: Primitives, keys: IkeKeys)
      requires Laws(c) && KeysFit(keys)
      ensures Valid() && this.c == c && this.keys == keys && burned == []
    {
      this.c := c;
      this.keys := keys;
      skSeq := 0;
      burned := [];
    }

    /** Takes the next counter value. */
    method Burn()
      requires Valid()
      modifies this
      ensures Valid() && burned == old(burned) + [skSeq]
    {
      NextCounter(|burned|);
      skSeq := (skSeq + 1) % SEQ_LIMIT;
      burned := burned + [skSeq];
    }

    /** EncryptToSK: an AEAD suite burns one counter value per call and cannot fail; the
        CBC suite needs an IV from the random source, iv. */
    method EncryptToSk(iv: Option<Bytes>, plaintext: Bytes) returns (body: Result<Bytes>)
      requires Valid()
      modifies this
      ensures Valid()
      ensures burned == if keys.suite.Aead() then old(burned) + [skSeq] else old(burned)
      ensures body.Err? <==> !keys.suite.Aead() && iv.None?
      ensures body.Ok? ==> body.value == Draft(c, keys, Drawn(iv), skSeq, plaintext)
    {
      if keys.suite.Aead() {
        Burn();
        return Ok(Be64(skSeq) + plaintext + [0] + Zeros(ICV_LEN));
      }
      var padded := PadOut(plaintext);
      if iv.None? {
        return Err;
      }
      return Ok(iv.value + c.cbcEncrypt(keys.OutEncr(), iv.value, padded) + Zeros(ICV_LEN));
    }

    /** FinalizeSK: seals or authenticates the encoded message where it stands. */
    method FinalizeSk(raw: array<byte>, n: nat) returns (ok: bool)
      requires Valid()
      modifies raw
      ensures ok == Finalized(c, keys, old(raw[..]), n).Ok?
      ensures raw[..] == if ok then Finalized(c, keys, old(raw[..]), n).value else old(raw[..])
    {
      ghost var was := raw[..];
      if !keys.suite.Aead() {
        if raw.Length < ICV_LEN {
          return false;
        }
        var end := raw.Length - ICV_LEN;
        var mac := Mac(c, keys.OutInteg(), raw[..end]);
        forall i | 0 <= i < ICV_LEN {
          raw[end + i] := mac[i];
        }
        assert raw[..] == was[..end] + mac;
        return true;
      }
      if n > raw.Length || raw.Length - n < SK_OFFSET || n < AEAD_IV_LEN + 1 + ICV_LEN {
        return false;
      }
      var start := raw.Length - n;
      var from := start + AEAD_IV_LEN;
      var sealed := c.seal(keys.suite, SkKey(keys.OutEncr()), SkNonce(keys.OutEncr(), raw[start..from]),
                           raw[from..raw.Length - ICV_LEN], raw[..start]);
      assert |sealed| == raw.Length - from;
      forall i | 0 <= i < |sealed| {
        raw[from + i] := sealed[i];
      }
      assert raw[..] == was[..from] + sealed;
      return true;
    }

    /** encodeSKWith. */
    method Encode(f: Fields, inner: seq<Payload>, iv: Option<Bytes>) returns (r: Result<Bytes>)
      requires Valid()
      modifies this
      ensures Valid()
      ensures old(burned) <= burned && |burned| <= |old(burned)| + 1
      ensures keys.suite.Aead() && r.Ok? ==> burned == old(burned) + [skSeq]
      ensures r == if !keys.suite.Aead() && iv.None? then Err else EncodeSk(c, keys, f, inner, Drawn(iv), skSeq)
    {
      var first, plaintext := MC.MarshalChain(inner);
      if plaintext.Err? {
        return Err;
      }
      var body := EncryptToSk(iv, plaintext.value);
      if body.Err? {
        return Err;
      }
      var sk := body.value;
      var m := MC.MarshalMessage(Carrier(f, first, sk));
      if m.Err? {
        return Err;
      }
      var raw := new byte[|m.value|](i requires 0 <= i < |m.value| => m.value[i]);
      assert raw[..] == m.value;
      var ok := FinalizeSk(raw, |sk|);
      if !ok {
        return Err;
      }
      r := Ok(raw[..]);
    }
  }

  /** No AEAD nonce repeats under one key within 2^64 messages of each other. */
  lemma SkNoncesNeverRepeat(encr: Bytes, burned: seq<uint64>, i: nat, j: nat)
    requires |encr| >= SALT_LEN
    requires forall k :: 0 <= k < |burned| ==> burned[k] == (k + 1) % SEQ_LIMIT
    requires i < j < |burned| && j - i < SEQ_LIMIT
    ensures SkNonce(encr, Be64(burned[i])) != SkNonce(encr, Be64(burned[j]))
  {
    var x, y := burned[i], burned[j];
    assert x != y;
    U64OfBe64(x);
    U64OfBe64(y);
    assert SkNonce(encr, Be64(x))[SALT_LEN..] == Be64(x);
    assert SkNonce(encr, Be64(y))[SALT_LEN..] == Be64(y);
  }
}
