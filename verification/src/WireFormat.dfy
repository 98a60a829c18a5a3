/** The octets of an IKEv2 message as section 3 of RFC 7296 draws them, and that
    marshalling produces exactly these. */
module WireFormat {
  import opened Bytes
  import opened IkeMsg
  import opened BodyCodec
  import opened SaCodec
  import MC = MessageCodec

  /** The number in two octets at offset i. */
  function Word(b: Bytes, i: nat): nat
    requires i + 2 <= |b|
  {
    (b[i] as int) * 256 + b[i + 1]
  }

  // ----- the drawings -----

  /** Sections 3.3.2 and 3.3.5: 3 while another transform follows; the only attribute is
      Key Length, type 14 in the short form. */
  predicate TransformAt(b: Bytes, t: Transform, more: bool) {
    && |b| == (if t.hasKeyLength then 12 else 8) && b[0] == (if more then 3 else 0) && b[1] == 0 && Word(b, 2) == |b|
    && b[4] == t.kind && b[5] == 0 && Word(b, 6) == t.id
    && (t.hasKeyLength ==> Word(b, 8) == 0x800E && Word(b, 10) == t.keyLength)
  }

  predicate TransformsAt(b: Bytes, ts: seq<Transform>)
    decreases ts
  {
    if ts == [] then b == [] else
    var n := if ts[0].hasKeyLength then 12 else 8;
    n <= |b| && TransformAt(b[..n], ts[0], |ts| > 1) && TransformsAt(b[n..], ts[1..])
  }

  /** Section 3.3.1: 2 while another proposal follows. */
  predicate ProposalAt(b: Bytes, p: Proposal, more: bool) {
    var k := 8 + |p.spi|;
    && k <= |b| && b[0] == (if more then 2 else 0) && b[1] == 0 && Word(b, 2) == |b|
    && b[4] == p.number && b[5] == p.protocol && b[6] == |p.spi| && b[7] == |p.transforms|
    && b[8..k] == p.spi && TransformsAt(b[k..], p.transforms)
  }

  predicate ProposalsAt(b: Bytes, ps: seq<Proposal>)
    decreases ps
  {
    if ps == [] then b == [] else
    && |b| >= 4 && Word(b, 2) <= |b|
    && ProposalAt(b[..Word(b, 2)], ps[0], |ps| > 1) && ProposalsAt(b[Word(b, 2)..], ps[1..])
  }

  /** Section 3.13.1: type 7 with 4-octet addresses, type 8 with 16-octet ones. */
  predicate RangeAt(b: Bytes, t: TrafficSelector) {
    var n := if t.tsType == 7 then 4 else 16;
    && (t.tsType == 7 || t.tsType == 8) && |b| == 8 + 2 * n && b[0] == t.tsType && b[1] == t.protocol && Word(b, 2) == |b|
    && Word(b, 4) == t.startPort && Word(b, 6) == t.endPort && b[8..8 + n] == t.startAddr && b[8 + n..] == t.endAddr
  }

  predicate SelectorsAt(b: Bytes, sels: seq<TrafficSelector>)
    decreases sels
  {
    if sels == [] then b == [] else
    var n := if sels[0].tsType == 7 then 16 else 40;
    n <= |b| && RangeAt(b[..n], sels[0]) && SelectorsAt(b[n..], sels[1..])
  }

  predicate SpisAt(b: Bytes, size: nat, spis: seq<Bytes>)
    decreases spis
  {
    if spis == [] then b == [] else size <= |b| && b[..size] == spis[0] && SpisAt(b[size..], size, spis[1..])
  }

  /** Section 3.15.1. */
  predicate AttrsAt(b: Bytes, attrs: seq<ConfigAttr>)
    decreases attrs
  {
    if attrs == [] then b == [] else
    && |b| >= 4 && Word(b, 0) == attrs[0].kind
    && var n := 4 + Word(b, 2); n <= |b| && b[4..n] == attrs[0].value && AttrsAt(b[n..], attrs[1..])
  }

  predicate BodyAt(b: Bytes, p: Payload) {
    match p
    case SA(ps) => ProposalsAt(b, ps)
    case KE(group, data) => |b| >= 4 && Word(b, 0) == group && Word(b, 2) == 0 && b[4..] == data
    case IDi(t, data) => b == [t, 0, 0, 0] + data
    case IDr(t, data) => b == [t, 0, 0, 0] + data
    case Cert(e, data) => b == [e] + data
    case CertReq(e, data) => b == [e] + data
    case Auth(m, data) => b == [m, 0, 0, 0] + data
    case Nonce(data) => b == data
    case Notify(proto, t, spi, data) =>
      |b| >= 4 && b[0] == proto && b[1] == |spi| && Word(b, 2) == t && b[4..] == spi + data
    case Delete(proto, spis) =>
      var size := if spis == [] then 0 else |spis[0]|;
      |b| >= 4 && b[0] == proto && b[1] == size && Word(b, 2) == |spis| && SpisAt(b[4..], size, spis)
    case VendorID(data) => b == data
    case TSi(sels) => |b| >= 4 && b[0] == |sels| && b[1] == 0 && Word(b, 2) == 0 && SelectorsAt(b[4..], sels)
    case TSr(sels) => |b| >= 4 && b[0] == |sels| && b[1] == 0 && Word(b, 2) == 0 && SelectorsAt(b[4..], sels)
    case SK(_, data) => b == data
    case CP(t, attrs) => |b| >= 4 && b[0] == t && b[1] == 0 && Word(b, 2) == 0 && AttrsAt(b[4..], attrs)
    case EAP(data) => b == data
  }

  predicate TypeIs(t: byte, p: Payload) {
    match p
    case SA(_) => t == 33
    case KE(_, _) => t == 34
    case IDi(_, _) => t == 35
    case IDr(_, _) => t == 36
    case Cert(_, _) => t == 37
    case CertReq(_, _) => t == 38
    case Auth(_, _) => t == 39
    case Nonce(_) => t == 40
    case Notify(_, _, _, _) => t == 41
    case Delete(_, _) => t == 42
    case VendorID(_) => t == 43
    case TSi(_) => t == 44
    case TSr(_) => t == 45
    case SK(_, _) => t == 46
    case CP(_, _) => t == 47
    case EAP(_) => t == 48
  }

  /** Section 3.2: each generic header names the type of the payload after it, 0 at the
      end, except that an SK payload names its first inner payload. */
  predicate ChainAt(b: Bytes, t: byte, ps: seq<Payload>)
    decreases ps
  {
    if ps == [] then b == [] else
    && TypeIs(t, ps[0]) && |b| >= 4 && b[1] == 0
    && var n := Word(b, 2);
       && 4 <= n <= |b| && BodyAt(b[4..n], ps[0]) && ChainAt(b[n..], b[0], ps[1..])
       && (ps[0].SK? ==> b[0] == ps[0].innerFirst) && (|ps| == 1 && !ps[0].SK? ==> b[0] == 0)
  }

  /** Section 3.1: SPIs, first type, version 2.0, exchange, flags, Message ID, length. */
  predicate MessageAt(b: Bytes, m: Message) {
    && |b| >= 28 && U64(b[..8]) == m.initiatorSPI && U64(b[8..16]) == m.responderSPI
    && b[17] == 0x20 && b[18] == m.exchange && b[19] == m.flags && U32(b[20..24]) == m.messageID && U32(b[24..28]) == |b|
    && ChainAt(b[28..], b[16], m.payloads) && (m.payloads == [] ==> b[16] == 0)
  }

  // ----- marshalling draws them -----

  lemma Split(a: Bytes, b: Bytes)
    ensures (a + b)[..|a|] == a && (a + b)[|a|..] == b && (|a| >= 4 ==> Word(a + b, 2) == Word(a, 2))
  {}

  lemma TransformDrawn(t: Transform, more: bool)
    requires WellFormedTransform(t)
    ensures TransformBytes(t, more).Ok? && TransformAt(TransformBytes(t, more).value, t, more)
  {
    HiLo(8);
    HiLo(12);
    HiLo(t.id);
    HiLo(t.keyLength);
    HiLo(0x800E);
  }

  lemma {:induction false} TransformsDrawn(ts: seq<Transform>)
    requires WellFormedTransforms(ts)
    ensures TransformsBytes(ts).Ok? && TransformsAt(TransformsBytes(ts).value, ts)
    decreases ts
  {
    if ts != [] {
      hide TransformBytes;
      TransformsDrawn(ts[1..]);
      TransformDrawn(ts[0], |ts| > 1);
      Split(TransformBytes(ts[0], |ts| > 1).value, TransformsBytes(ts[1..]).value);
    }
  }

  lemma ProposalDrawn(p: Proposal, more: bool)
    requires |p.spi| <= 255 && |p.transforms| <= 255 && WellFormedTransforms(p.transforms)
    ensures var b := ProposalBytes(p, more);
            b.Ok? && |b.value| >= 8 && (|b.value| < 0x1_0000 ==> ProposalAt(b.value, p, more))
  {
    hide TransformsBytes, TransformsAt, Hi, Lo;
    TransformsDrawn(p.transforms);
    var tb := TransformsBytes(p.transforms).value;
    var n := 8 + |p.spi| + |tb|;
    var h := ProposalHeader(p, more, n);
    HiLo(n);
    Parts(h, p.spi, tb, []);
    assert h + p.spi + tb + [] == h + p.spi + tb;
    assert (h + p.spi + tb)[8 + |p.spi|..] == tb;
  }

  lemma {:induction false} ProposalsDrawn(ps: seq<Proposal>)
    requires WellFormedProposals(ps)
    ensures ProposalsBytes(ps).Ok? && (|ProposalsBytes(ps).value| < 0x1_0000 ==> ProposalsAt(ProposalsBytes(ps).value, ps))
    decreases ps
  {
    if ps != [] {
      hide ProposalBytes, ProposalAt;
      ProposalsDrawn(ps[1..]);
      ProposalDrawn(ps[0], |ps| > 1);
      var b := ProposalBytes(ps[0], |ps| > 1).value;
      Split(b, ProposalsBytes(ps[1..]).value);
      if |b| < 0x1_0000 {
        ProposalLength(b, ps[0], |ps| > 1);
      }
    }
  }

  lemma ProposalLength(b: Bytes, p: Proposal, more: bool)
    requires ProposalAt(b, p, more)
    ensures |b| >= 8 && Word(b, 2) == |b|
  {}

  lemma SelectorDrawn(t: TrafficSelector)
    requires WellFormedSelector(t)
    ensures RangeAt(SelectorHeader(t) + t.startAddr + t.endAddr, t)
  {
    var h, a := SelectorHeader(t), AddrLen(t.tsType);
    HiLo(8 + 2 * a);
    HiLo(t.startPort);
    HiLo(t.endPort);
    hide Hi, Lo;
    var b := h + t.startAddr + t.endAddr;
    assert forall i :: 0 <= i < 8 ==> b[i] == h[i];
    assert b[8..8 + a] == t.startAddr && b[8 + a..] == t.endAddr;
  }

  lemma {:induction false} SelectorsDrawn(sels: seq<TrafficSelector>)
    requires WellFormedSelectors(sels)
    ensures SelectorsBytes(sels).Ok? && SelectorsAt(SelectorsBytes(sels).value, sels)
    decreases sels
  {
    if sels != [] {
      hide SelectorHeader, RangeAt;
      SelectorsDrawn(sels[1..]);
      SelectorDrawn(sels[0]);
      Split(SelectorHeader(sels[0]) + sels[0].startAddr + sels[0].endAddr, SelectorsBytes(sels[1..]).value);
    }
  }

  lemma {:induction false} SpisDrawn(spis: seq<Bytes>, size: nat)
    requires forall i :: 0 <= i < |spis| ==> |spis[i]| == size
    ensures SpisAt(Concat(spis), size, spis)
    decreases spis
  {
    if spis != [] {
      SpisDrawn(spis[1..], size);
      assert Concat(spis)[..size] == spis[0] && Concat(spis)[size..] == Concat(spis[1..]);
    }
  }

  lemma {:induction false} AttrsDrawn(attrs: seq<ConfigAttr>)
    requires WellFormedAttrs(attrs) && |AttrsBytes(attrs)| < 0x1_0000
    ensures AttrsAt(AttrsBytes(attrs), attrs)
    decreases attrs
  {
    if attrs != [] {
      hide AttrHeader;
      AttrsDrawn(attrs[1..]);
      AttrFields(attrs[0], AttrsBytes(attrs[1..]));
    }
  }

  lemma BodyDrawn(p: Payload)
    requires WellFormedPayload(p) && Body(p).Ok? && |Body(p).value| < 0x1_0000
    ensures BodyAt(Body(p).value, p)
  {
    hide ProposalsAt, SelectorsAt, AttrsAt, SpisAt, ProposalsBytes, SelectorsBytes, AttrsBytes, Concat, Hi, Lo;
    var b := Body(p).value;
    match p
    case SA(ps) => ProposalsDrawn(ps);
    case KE(group, data) => HiLo(group);
    case Notify(_, t, spi, data) =>
      HiLo(t);
      assert b[4..] == spi + data;
    case Delete(_, spis) => DeleteDrawn(p);
    case TSi(sels) => SelectorsDrawn(sels);
    case TSr(sels) => SelectorsDrawn(sels);
    case CP(_, attrs) =>
      assert b[4..] == AttrsBytes(attrs);
      AttrsDrawn(attrs);
    case _ =>
  }

  lemma DeleteDrawn(p: Payload)
    requires p.Delete? && UniformSpis(p.spis) && Body(p).Ok? && |Body(p).value| < 0x1_0000
    ensures BodyAt(Body(p).value, p)
  {
    var b, size := Body(p).value, SpiSize(p.spis);
    hide Concat, SpisAt;
    ConcatLength(p.spis, size);
    if p.spis != [] {
      AtLeastCount(size, |p.spis|);
    }
    HiLo(|p.spis|);
    assert b[4..] == Concat(p.spis);
    SpisDrawn(p.spis, size);
  }

  lemma TypeDrawn(p: Payload)
    ensures TypeIs(p.Type(), p)
  {}

  lemma {:induction false} ChainDrawn(ps: seq<Payload>)
    requires MC.WellFormedChain(ps)
    ensures MC.Chain(ps).Ok? && (ps != [] ==> ChainAt(MC.Chain(ps).value, ps[0].Type(), ps)) && (ps == [] ==> MC.Chain(ps).value == [])
    decreases ps
  {
    if ps != [] {
      hide MC.WellFormedChain, WellFormedPayload, Body, BodyAt, TypeIs;
      MC.TailWellFormed(ps);
      ChainDrawn(ps[1..]);
      var own, rest := Body(ps[0]).value, MC.Chain(ps[1..]).value;
      MC.ChainOf(ps, own, rest);
      MC.GenericHeaderFields(MC.Next(ps), own, rest);
      TypeDrawn(ps[0]);
      BodyDrawn(ps[0]);
    }
  }

  /** Marshalling a well-formed message draws exactly this picture. */
  lemma MarshalDraws(m: Message)
    requires MC.WellFormed(m)
    ensures MC.Marshal(m).Ok? && MessageAt(MC.Marshal(m).value, m)
  {
    hide MC.WellFormedChain, ChainAt, MC.Chain, Be;
    ChainDrawn(m.payloads);
    var body := MC.Chain(m.payloads).value;
    var raw, first := MC.Marshal(m).value, MC.First(m.payloads);
    MC.HeaderFields(m, first, 28 + |body|, body);
    U64OfBe64(m.initiatorSPI);
    U64OfBe64(m.responderSPI);
    U32OfBe32(m.messageID);
    U32OfBe32(|raw|);
    assert raw[17] == MC.Header(m, first, 28 + |body|)[17];
    if m.payloads == [] {
      EmptyAt();
    }
  }

  lemma EmptyAt()
    ensures ChainAt([], 0, [])
  {}
}
