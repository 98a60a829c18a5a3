/** The payload chains of the driver are well formed, so that what two ends exchange as
    payloads is what they exchange as octets. */
module RekeyOctets {
  import opened Bytes
  import opened Crypto
  import opened IkeMsg
  import opened KeySchedule
  import opened Suites
  import opened Rekey
  import SaCodec
  import BodyCodec
  import opened SkEnvelope
  import MC = MessageCodec

  /** The longest public value and the longest list of suites the bounds below allow. */
  const MAX_PUBLIC := 1024
  const MAX_SUITES := 255

  // ----- sizes -----

  lemma {:induction false} TransformsLength(ts: seq<Transform>)
    requires SaCodec.WellFormedTransforms(ts)
    ensures SaCodec.TransformsBytes(ts).Ok? && |SaCodec.TransformsBytes(ts).value| <= 12 * |ts|
    decreases ts
  {
    if ts != [] {
      TransformsLength(ts[1..]);
    }
  }

  predicate Modest(p: Proposal) {
    |p.spi| <= 8 && |p.transforms| <= 5 && SaCodec.WellFormedTransforms(p.transforms)
  }

  lemma {:induction false} ProposalsLength(ps: seq<Proposal>)
    requires forall i :: 0 <= i < |ps| ==> Modest(ps[i])
    ensures SaCodec.ProposalsBytes(ps).Ok? && |SaCodec.ProposalsBytes(ps).value| <= 76 * |ps|
    decreases ps
  {
    if ps != [] {
      TransformsLength(ps[0].transforms);
      ProposalsLength(ps[1..]);
    }
  }

  lemma {:induction false} SelectorsLength(sels: seq<TrafficSelector>)
    requires BodyCodec.WellFormedSelectors(sels)
    ensures BodyCodec.SelectorsBytes(sels).Ok? && |BodyCodec.SelectorsBytes(sels).value| <= 40 * |sels|
    decreases sels
  {
    if sels != [] {
      SelectorsLength(sels[1..]);
    }
  }

  // ----- payloads -----

  predicate Sendable(p: Payload) {
    BodyCodec.WellFormedPayload(p) && MC.Fits(BodyCodec.Body(p)) && !p.SK?
  }

  lemma {:induction false} GroupsPlain(groups: seq<uint16>)
    ensures |Groups(groups)| == |groups| && SaCodec.WellFormedTransforms(Groups(groups))
    decreases groups
  {
    if groups != [] {
      GroupsPlain(groups[1..]);
    }
  }

  lemma BuiltIsModest(n: byte, s: Suite, spi: Bytes, groups: seq<uint16>)
    requires |spi| <= 8 && |groups| <= 1
    ensures Modest(BuildProposal(n, s, spi, groups))
  {
    hide Groups;
    GroupsPlain(groups);
  }

  lemma OffersSendable(spi: Bytes, suites: seq<Suite>, groups: seq<uint16>)
    requires |spi| <= 8 && |groups| <= 1 && |suites| <= MAX_SUITES
    ensures Sendable(SA(BuildProposals(spi, suites, groups)))
  {
    hide BuildProposal, SaCodec.ProposalsBytes;
    var ps := BuildProposals(spi, suites, groups);
    forall i | 0 <= i < |ps|
      ensures Modest(ps[i])
    {
      BuiltIsModest((i + 1) % 256, suites[i], spi, groups);
    }
    ProposalsLength(ps);
  }

  lemma ChoiceSendable(n: byte, s: Suite, spi: Bytes, groups: seq<uint16>)
    requires |spi| <= 8 && |groups| <= 1
    ensures Sendable(SA([BuildProposal(n, s, spi, groups)]))
  {
    hide BuildProposal, SaCodec.ProposalsBytes;
    BuiltIsModest(n, s, spi, groups);
    ProposalsLength([BuildProposal(n, s, spi, groups)]);
  }

  lemma SelectorsSendable(sels: seq<TrafficSelector>)
    requires 1 <= |sels| <= 255 && BodyCodec.WellFormedSelectors(sels)
    ensures Sendable(TSi(sels)) && Sendable(TSr(sels))
  {
    hide BodyCodec.SelectorsBytes;
    SelectorsLength(sels);
  }

  lemma FullRangeSendable(v6: bool)
    ensures Sendable(TSi(FullRange(v6))) && Sendable(TSr(FullRange(v6)))
  {
    SelectorsSendable(FullRange(v6));
  }

  lemma SmallPayloads(nonce: Bytes, group: uint16, pub: Bytes, protocol: byte, kind: uint16, spi: Bytes, data: Bytes)
    requires BodyCodec.MIN_NONCE_LEN <= |nonce| <= BodyCodec.MAX_NONCE_LEN && |pub| <= MAX_PUBLIC && |spi| <= 4 && |data| <= 2
    ensures Sendable(Nonce(nonce)) && Sendable(KE(group, pub)) && Sendable(Notify(protocol, kind, spi, data))
  {}

  // ----- chains -----

  ghost predicate AllSendable(ps: seq<Payload>) {
    forall i :: 0 <= i < |ps| ==> Sendable(ps[i])
  }

  lemma SendableChain(ps: seq<Payload>)
    requires AllSendable(ps)
    ensures MC.WellFormedChain(ps)
  {
    hide BodyCodec.WellFormedPayload, BodyCodec.Body;
    assert forall i :: 0 <= i < |ps| ==> Sendable(ps[i]);
  }

  /** Public values of a Diffie-Hellman exchange are short. */
  ghost predicate ShortPublic(c: Primitives) {
    forall g, priv :: |c.dhPublic(g, priv)| <= MAX_PUBLIC
  }

  lemma KeSendable(c: Primitives, dh: Option<Dh>)
    requires ShortPublic(c)
    ensures AllSendable(KePayloads(c, dh))
  {
    if dh.Some? {
      SmallPayloads(Zeros(32), dh.value.group, c.dhPublic(dh.value.group, dh.value.priv), 0, 0, [], []);
    }
  }

  /** Requests for a Child rekey are well formed. */
  lemma ChildRequestWellFormed(c: Primitives, ctx: ChildCtx, enabled: seq<Suite>, v6: bool)
    requires ShortPublic(c) && |ctx.ni| == NONCE_LEN && |enabled| <= MAX_SUITES
    ensures MC.WellFormedChain(ChildRequest(c, ctx, enabled, v6))
  {
    hide Sendable, BuildProposals, FullRange, Be32, KePayloads, MC.WellFormedChain;
    OffersSendable(Be32(ctx.newInSPI), enabled, GroupList(ctx.dh));
    SmallPayloads(ctx.ni, 0, [], PROTOCOL_ESP, NOTIFY_REKEY_SA, Be32(ctx.oldInSPI), []);
    KeSendable(c, ctx.dh);
    FullRangeSendable(v6);
    SendableChain(ChildRequest(c, ctx, enabled, v6));
  }

  lemma IkeRequestWellFormed(c: Primitives, ctx: IkeCtx, enabled: seq<Suite>)
    requires ShortPublic(c) && |ctx.ni| == NONCE_LEN && |enabled| <= MAX_SUITES
    ensures MC.WellFormedChain(IkeRequest(c, ctx, enabled))
  {
    hide Sendable, BuildProposals, Be64, KePayloads, MC.WellFormedChain;
    OffersSendable(Be64(ctx.newSPIi), enabled, [ctx.dh.group]);
    SmallPayloads(ctx.ni, 0, [], 0, 0, [], []);
    KeSendable(c, Some(ctx.dh));
    SendableChain(IkeRequest(c, ctx, enabled));
  }

  lemma {:induction false} ReadSelectors(inner: seq<Payload>)
    requires forall i :: 0 <= i < |inner| ==> BodyCodec.WellFormedPayload(inner[i])
    ensures var p := Extract(inner);
            && (p.tsi != [] ==> |p.tsi| <= 255 && BodyCodec.WellFormedSelectors(p.tsi))
            && (p.tsr != [] ==> |p.tsr| <= 255 && BodyCodec.WellFormedSelectors(p.tsr))
    decreases inner
  {
    if inner != [] {
      ReadSelectors(inner[..|inner| - 1]);
    }
  }

  /** Answers to a well-formed Child rekey request are well formed. */
  lemma ChildAnswerWellFormed(c: Primitives, skd: Bytes, oldInSPI: uint32, enabled: seq<Suite>, v6: bool,
                              req: seq<Payload>, priv: Option<Bytes>, draw: Option<Draw>)
    requires PrfLaw(c) && Rows(EspLayer, enabled) && ShortPublic(c) && MC.WellFormedChain(req)
    requires draw.Some? ==> |draw.value.nonce| == NONCE_LEN
    ensures match AnswerChild(c, skd, oldInSPI, enabled, v6, req, priv, draw)
            case RefuseChild(n) => MC.WellFormedChain([n])
            case AcceptChild(_, resp, _) => MC.WellFormedChain(resp)
  {
    hide Extract, SelectProposal, BuildProposal, ChildKeysFor, Be32, FullRange, KePayloads, Sendable, BodyCodec.WellFormedPayload;
    var parts := Extract(req);
    ReadSelectors(req);
    var a := AnswerChild(c, skd, oldInSPI, enabled, v6, req, priv, draw);
    match a
    case RefuseChild(n) =>
      SmallPayloads(Zeros(32), 0, [], n.protocol, n.notifyType, n.spi, n.data);
      SendableChain([n]);
    case AcceptChild(_, resp, _) =>
      var g: uint16 := if parts.ke.Some? then parts.ke.value.group else 0;
      var dh := if parts.ke.Some? then Some(Dh(g, priv.value)) else None;
      SelectProposalSpec(parts.sa.value, enabled, g);
      var pick := SelectProposal(parts.sa.value, enabled, g).value;
      ChoiceSendable(pick.0.number, pick.1, Be32(draw.value.spi4), GroupList(dh));
      SmallPayloads(draw.value.nonce, 0, [], 0, 0, [], []);
      KeSendable(c, dh);
      FullRangeSendable(v6);
      if parts.tsi != [] && parts.tsr != [] {
        SelectorsSendable(parts.tsi);
        SelectorsSendable(parts.tsr);
      }
      SendableChain(resp);
  }

  lemma IkeAnswerWellFormed(c: Primitives, skd: Bytes, enabled: seq<Suite>, req: seq<Payload>, priv: Option<Bytes>, draw: Option<Draw>)
    requires PrfLaw(c) && Rows(IkeLayer, enabled) && ShortPublic(c)
    requires draw.Some? ==> |draw.value.nonce| == NONCE_LEN
    ensures match AnswerIke(c, skd, enabled, req, priv, draw)
            case RefuseIke(n) => MC.WellFormedChain([n])
            case AcceptIke(_, resp, _) => MC.WellFormedChain(resp)
  {
    hide Extract, SelectProposal, BuildProposal, FromSkeyseed, Be64, KePayloads, Sendable;
    var parts := Extract(req);
    match AnswerIke(c, skd, enabled, req, priv, draw)
    case RefuseIke(n) =>
      SmallPayloads(Zeros(32), 0, [], n.protocol, n.notifyType, n.spi, n.data);
      SendableChain([n]);
    case AcceptIke(_, resp, g) =>
      SelectProposalSpec(parts.sa.value, enabled, g);
      var pick := SelectProposal(parts.sa.value, enabled, g).value;
      ChoiceSendable(pick.0.number, pick.1, Be64(draw.value.spi8), [g]);
      SmallPayloads(draw.value.nonce, 0, [], 0, 0, [], []);
      KeSendable(c, Some(Dh(g, priv.value)));
      SendableChain(resp);
  }

  /** So are the deletions, the probes and the acknowledgements. */
  lemma DeletesWellFormed(spi: uint32)
    ensures MC.WellFormedChain([]) && MC.WellFormedChain([Delete(PROTOCOL_IKE, [])])
    ensures MC.WellFormedChain([Delete(PROTOCOL_ESP, [Be32(spi)])])
  {
    hide Be32;
    var b := Be32(spi);
    var spis: seq<Bytes> := [b];
    assert spis[1..] == [];
    assert BodyCodec.Concat(spis) == b + BodyCodec.Concat([]);
    SendableChain([Delete(PROTOCOL_IKE, [])]);
    SendableChain([Delete(PROTOCOL_ESP, spis)]);
  }

  /** Whatever sealing the payloads under from yields opens under to as a message with the
      same header fields and exactly those payloads. */
  ghost predicate OpensTo(c: Primitives, from: IkeKeys, to: IkeKeys, f: Fields, inner: seq<Payload>, iv: Bytes, num: uint64)
    requires Laws(c) && KeysFit(from) && KeysFit(to)
  {
    var wire := EncodeSk(c, from, f, inner, iv, num);
    wire.Ok? ==>
      var d := DecodeSk(c, to, wire.value).result;
      d.Ok? && d.value.1 == inner && d.value.0 == Carrier(f, MC.First(inner), []).(payloads := d.value.0.payloads)
  }

  lemma SealedOpens(c: Primitives, from: IkeKeys, to: IkeKeys, f: Fields, inner: seq<Payload>, iv: Bytes, num: uint64)
    requires Laws(c) && KeysFit(from) && Mirrored(from, to) && |iv| == AES_BLOCK && MC.WellFormedChain(inner)
    ensures KeysFit(to) && OpensTo(c, from, to, f, inner, iv, num)
  {
    EnvelopeRoundTrip(c, from, to, f, inner, iv, num);
    hide EncodeSk, DecodeSk, MC.WellFormedChain;
  }
}
