/** The CREATE_CHILD_SA payload exchange that rekeys a Child SA or the IKE SA, in both
    roles (sections 1.3, 2.8, 2.17 and 2.18 of RFC 7296). */
module Rekey {
  import opened Bytes
  import opened Crypto
  import opened IkeMsg
  import opened KeySchedule
  import opened Suites
  import Esp

  const NONCE_LEN := 32

  /** An ephemeral Diffie-Hellman value of ours. */
  datatype Dh = Dh(group: uint16, priv: Bytes)

  /** What an initiated exchange remembers until its response arrives. */
  datatype ChildCtx = ChildCtx(newInSPI: uint32, oldInSPI: uint32, ni: Bytes, reestablish: bool, dh: Option<Dh>)
  datatype IkeCtx = IkeCtx(newSPIi: uint64, ni: Bytes, dh: Dh)

  /** A Child SA handed to the data plane, keys oriented for this end. */
  datatype ChildUpdate = ChildUpdate(
    newInSPI: uint32, newOutSPI: uint32, oldInSPI: uint32, suite: Cipher,
    outEncr: Bytes, outInteg: Bytes, inEncr: Bytes, inInteg: Bytes)

  /** The random values one operation draws. */
  datatype Draw = Draw(spi4: uint32, spi8: uint64, nonce: Bytes)

  predicate Supported(group: uint16) {
    group == DH_X25519 || group == DH_MODP2048
  }

  // ----- reading payloads -----

  /** The payloads the handlers look for; a later one replaces an earlier one. */
  datatype Parts = Parts(
    sa: Option<seq<Proposal>>, nonce: Bytes, ke: Option<Payload>,
    tsi: seq<TrafficSelector>, tsr: seq<TrafficSelector>, failed: bool)

  const NO_PARTS := Parts(None, [], None, [], [], false)

  predicate ErrorNotify(p: Payload) {
    p.Notify? && 0 < p.notifyType < NOTIFY_STATUS
  }

  function Take(parts: Parts, p: Payload): Parts {
    match p
    case SA(ps) => parts.(sa := Some(ps))
    case Nonce(data) => parts.(nonce := data)
    case KE(_, _) => parts.(ke := Some(p))
    case TSi(sels) => parts.(tsi := sels)
    case TSr(sels) => parts.(tsr := sels)
    case _ => if ErrorNotify(p) then parts.(failed := true) else parts
  }

  function Extract(inner: seq<Payload>): (r: Parts)
    ensures r.ke.Some? ==> r.ke.value.KE?
  {
    if inner == [] then NO_PARTS else Take(Extract(inner[..|inner| - 1]), inner[|inner| - 1])
  }

  lemma ExtractOneMore(inner: seq<Payload>, p: Payload)
    ensures Extract(inner + [p]) == Take(Extract(inner), p)
  {
    assert (inner + [p])[..|inner|] == inner;
  }

  method ReadParts(inner: seq<Payload>) returns (parts: Parts)
    ensures parts == Extract(inner)
  {
    parts := NO_PARTS;
    for i := 0 to |inner|
      invariant parts == Extract(inner[..i])
    {
      assert inner[..i + 1] == inner[..i] + [inner[i]];
      ExtractOneMore(inner[..i], inner[i]);
      parts := Take(parts, inner[i]);
    }
    assert inner[..|inner|] == inner;
  }

  /** isIKERekey: some SA payload leads with an IKE proposal. */
  predicate IsIkeRekey(inner: seq<Payload>) {
    exists i :: 0 <= i < |inner| && inner[i].SA? && inner[i].proposals != [] && inner[i].proposals[0].protocol == PROTOCOL_IKE
  }

  // ----- requests -----

  function FullRange(v6: bool): seq<TrafficSelector> {
    [TrafficSelector(TS_IPV4_ADDR_RANGE, 0, 0, 65535, [0, 0, 0, 0], [255, 255, 255, 255])]
    + (if v6 then [TrafficSelector(TS_IPV6_ADDR_RANGE, 0, 0, 65535, Zeros(16), seq(16, _ => 255))] else [])
  }

  function Selectors(v6: bool): seq<Payload> {
    [TSi(FullRange(v6)), TSr(FullRange(v6))]
  }

  function GroupList(dh: Option<Dh>): seq<uint16> {
    if dh.Some? then [dh.value.group] else []
  }

  function KePayloads(c: Primitives, dh: Option<Dh>): seq<Payload> {
    if dh.Some? then [KE(dh.value.group, c.dhPublic(dh.value.group, dh.value.priv))] else []
  }

  /** The Child SA request; without a REKEY_SA notify when it re-establishes an SA the
      peer already deleted. */
  function ChildRequest(c: Primitives, ctx: ChildCtx, enabled: seq<Suite>, v6: bool): seq<Payload> {
    (if ctx.reestablish then [] else [Notify(PROTOCOL_ESP, NOTIFY_REKEY_SA, Be32(ctx.oldInSPI), [])])
    + [SA(BuildProposals(Be32(ctx.newInSPI), enabled, GroupList(ctx.dh)))]
    + [Nonce(ctx.ni)] + KePayloads(c, ctx.dh) + Selectors(v6)
  }

  function IkeRequest(c: Primitives, ctx: IkeCtx, enabled: seq<Suite>): seq<Payload> {
    [SA(BuildProposals(Be64(ctx.newSPIi), enabled, [ctx.dh.group]))]
    + [Nonce(ctx.ni)] + KePayloads(c, Some(ctx.dh))
  }

  // ----- answering -----

  /** A refusal carries one notify; an acceptance what to install, what to answer, and
      the group of the fresh Diffie-Hellman exchange when there was one. */
  datatype ChildAnswer = RefuseChild(notify: Payload)
                       | AcceptChild(update: ChildUpdate, resp: seq<Payload>, pfs: Option<uint16>)
  datatype IkeAnswer = RefuseIke(notify: Payload)
                     | AcceptIke(keys: IkeKeys, resp: seq<Payload>, group: uint16)

  function Notice(protocol: byte, kind: uint16): Payload {
    Notify(protocol, kind, [], [])
  }

  const TEMPORARY_FAILURE := Notify(PROTOCOL_NONE, NOTIFY_TEMPORARY_FAILURE, [], [])
  const INVALID_KE := Notify(PROTOCOL_NONE, NOTIFY_INVALID_KE_PAYLOAD, [], [Hi(DH_X25519), Lo(DH_X25519)])
  const INVALID_SYNTAX := Notify(PROTOCOL_NONE, NOTIFY_INVALID_SYNTAX, [], [])

  function ChildKeysFor(c: Primitives, skd: Bytes, shared: Bytes, ni: Bytes, nr: Bytes, s: Suite): ChildKeys
    requires PrfLaw(c) && Row(s)
  {
    DeriveChild(c, skd, shared, ni, nr, s.encrKeyLen, s.integKeyLen)
  }

  /** handleChildRekeyRequest up to its effects: skd belongs to the IKE SA that carried
      the request, priv and draw are what the random source yields. */
  function AnswerChild(c: Primitives, skd: Bytes, oldInSPI: uint32, enabled: seq<Suite>, v6: bool,
                       req: seq<Payload>, priv: Option<Bytes>, draw: Option<Draw>): ChildAnswer
    requires PrfLaw(c) && Rows(EspLayer, enabled)
  {
    var parts := Extract(req);
    if parts.sa.None? || parts.nonce == [] then RefuseChild(Notice(PROTOCOL_ESP, NOTIFY_NO_PROPOSAL_CHOSEN))
    else if parts.ke.Some? && !Supported(parts.ke.value.group) then RefuseChild(INVALID_KE)
    else
      var group := if parts.ke.Some? then parts.ke.value.group else 0;
      match SelectProposal(parts.sa.value, enabled, group)
      case None =>
        if group != 0 && SelectProposal(parts.sa.value, enabled, 0).Some? then RefuseChild(INVALID_KE)
        else RefuseChild(Notice(PROTOCOL_ESP, NOTIFY_NO_PROPOSAL_CHOSEN))
      case Some(pick) =>
        SelectProposalSpec(parts.sa.value, enabled, group);
        if parts.ke.Some? && priv.None? then RefuseChild(TEMPORARY_FAILURE) else
        var shared := if parts.ke.Some? then c.dhShared(group, priv.value, parts.ke.value.data) else Some([]);
        if shared.None? then RefuseChild(INVALID_SYNTAX)
        else if draw.None? then RefuseChild(TEMPORARY_FAILURE)
        else
          var dh := if parts.ke.Some? then Some(Dh(group, priv.value)) else None;
          var keys := ChildKeysFor(c, skd, shared.value, parts.nonce, draw.value.nonce, pick.1);
          AcceptChild(
            ChildUpdate(draw.value.spi4, U32(pick.0.spi), oldInSPI, pick.1.id,
                        keys.encrRI, keys.integRI, keys.encrIR, keys.integIR),
            [SA([BuildProposal(pick.0.number, pick.1, Be32(draw.value.spi4), GroupList(dh))])]
            + [Nonce(draw.value.nonce)] + KePayloads(c, dh)
            + (if parts.tsi != [] && parts.tsr != [] then [TSi(parts.tsi), TSr(parts.tsr)] else Selectors(v6)),
            if dh.Some? then Some(group) else None)
  }

  /** handleIKERekeyRequest up to its effects. */
  function AnswerIke(c: Primitives, skd: Bytes, enabled: seq<Suite>,
                     req: seq<Payload>, priv: Option<Bytes>, draw: Option<Draw>): IkeAnswer
    requires PrfLaw(c) && Rows(IkeLayer, enabled)
  {
    var parts := Extract(req);
    if parts.failed || parts.sa.None? || parts.nonce == [] || parts.ke.None? || parts.ke.value.data == [] then
      RefuseIke(Notice(PROTOCOL_NONE, NOTIFY_NO_PROPOSAL_CHOSEN))
    else
      var group := parts.ke.value.group;
      if !Supported(group) then RefuseIke(INVALID_KE) else
      match SelectProposal(parts.sa.value, enabled, group)
      case None =>
        if SelectProposal(parts.sa.value, enabled, 0).Some? then RefuseIke(INVALID_KE)
        else RefuseIke(Notice(PROTOCOL_NONE, NOTIFY_NO_PROPOSAL_CHOSEN))
      case Some(pick) =>
        SelectProposalSpec(parts.sa.value, enabled, group);
        if priv.None? then RefuseIke(TEMPORARY_FAILURE) else
        match c.dhShared(group, priv.value, parts.ke.value.data)
        case None => RefuseIke(INVALID_SYNTAX)
        case Some(shared) =>
          if draw.None? then RefuseIke(TEMPORARY_FAILURE) else
          match DeriveRekeyIke(c, pick.1.id, skd, Responder, U64(pick.0.spi), draw.value.spi8,
                               parts.nonce, draw.value.nonce, shared)
          case Err => RefuseIke(TEMPORARY_FAILURE)
          case Ok(keys) =>
            AcceptIke(keys,
                      [SA([BuildProposal(pick.0.number, pick.1, Be64(draw.value.spi8), [group])])]
                      + [Nonce(draw.value.nonce)] + KePayloads(c, Some(Dh(group, priv.value))),
                      group)
  }

  // ----- completing -----

  /** childRekeyResponse and the keys of completeChildRekey. */
  function CompleteChild(c: Primitives, skd: Bytes, ctx: ChildCtx, enabled: seq<Suite>, resp: seq<Payload>): Result<ChildUpdate>
    requires PrfLaw(c) && Rows(EspLayer, enabled)
  {
    var parts := Extract(resp);
    if parts.failed || parts.sa.None? || parts.sa.value == [] then Err else
    var prop := parts.sa.value[0];
    match SelectedSuite(prop, enabled)
    case None => Err
    case Some(suite) =>
      SelectedRow(prop, enabled);
      if |prop.spi| != 4 || parts.nonce == [] then Err else
      match FreshSecret(c, ctx.dh, parts.ke, SelectedGroup(prop))
      case Err => Err
      case Ok(shared) =>
        var keys := ChildKeysFor(c, skd, shared, ctx.ni, parts.nonce, suite);
        Ok(ChildUpdate(ctx.newInSPI, U32(prop.spi), ctx.oldInSPI, suite.id,
                       keys.encrIR, keys.integIR, keys.encrRI, keys.integRI))
  }

  /** The secret the response adds to KEYMAT: none without PFS on either side, and an
      error when the two sides would key differently. */
  function FreshSecret(c: Primitives, dh: Option<Dh>, ke: Option<Payload>, selected: uint16): Result<Bytes>
    requires ke.Some? ==> ke.value.KE?
  {
    if dh.Some? && ke.Some? then
      if ke.value.group != dh.value.group then Err else
      match c.dhShared(dh.value.group, dh.value.priv, ke.value.data)
      case None => Err
      case Some(shared) => Ok(shared)
    else if ke.Some? then Err
    else if dh.Some? && selected != 0 then Err
    else Ok([])
  }

  /** ikeRekeyPayloads and the keys of completeIKERekey. */
  function CompleteIke(c: Primitives, skd: Bytes, ctx: IkeCtx, enabled: seq<Suite>, resp: seq<Payload>): Result<IkeKeys>
    requires PrfLaw(c) && Rows(IkeLayer, enabled)
  {
    var parts := Extract(resp);
    if parts.failed || parts.sa.None? || parts.nonce == [] || parts.ke.None? || parts.ke.value.data == [] then Err
    else if parts.sa.value == [] then Err else
    var prop := parts.sa.value[0];
    match SelectedSuite(prop, enabled)
    case None => Err
    case Some(suite) =>
      if |prop.spi| != 8 || parts.ke.value.group != ctx.dh.group then Err else
      match c.dhShared(ctx.dh.group, ctx.dh.priv, parts.ke.value.data)
      case None => Err
      case Some(shared) =>
        DeriveRekeyIke(c, suite.id, skd, Initiator, ctx.newSPIi, U64(prop.spi), ctx.ni, parts.nonce, shared)
  }

  lemma {:induction false} SelectedRow(p: Proposal, enabled: seq<Suite>)
    requires forall i :: 0 <= i < |enabled| ==> Row(enabled[i])
    ensures SelectedSuite(p, enabled).Some? ==> Row(SelectedSuite(p, enabled).value)
    decreases enabled
  {
    if enabled != [] {
      SelectedRow(p, enabled[1..]);
    }
  }

  // ----- two endpoints running this code -----

  lemma ExtractRequest(c: Primitives, ctx: ChildCtx, enabled: seq<Suite>, v6: bool)
    ensures Extract(ChildRequest(c, ctx, enabled, v6)) ==
            Parts(Some(BuildProposals(Be32(ctx.newInSPI), enabled, GroupList(ctx.dh))), ctx.ni,
                  if ctx.dh.Some? then Some(KePayloads(c, ctx.dh)[0]) else None,
                  FullRange(v6), FullRange(v6), false)
  {
    hide Extract, BuildProposals, FullRange, Be32;
    var lead := if ctx.reestablish then [] else [Notify(PROTOCOL_ESP, NOTIFY_REKEY_SA, Be32(ctx.oldInSPI), [])];
    ExtractLead(ctx);
    var sa := SA(BuildProposals(Be32(ctx.newInSPI), enabled, GroupList(ctx.dh)));
    ExtractExchange(lead, sa, Nonce(ctx.ni), KePayloads(c, ctx.dh), TSi(FullRange(v6)), TSr(FullRange(v6)));
  }

  lemma ExtractLead(ctx: ChildCtx)
    ensures Extract(if ctx.reestablish then [] else [Notify(PROTOCOL_ESP, NOTIFY_REKEY_SA, Be32(ctx.oldInSPI), [])]) == NO_PARTS
  {
    ExtractOneMore([], Notify(PROTOCOL_ESP, NOTIFY_REKEY_SA, Be32(ctx.oldInSPI), []));
    assert [] + [Notify(PROTOCOL_ESP, NOTIFY_REKEY_SA, Be32(ctx.oldInSPI), [])] ==
           [Notify(PROTOCOL_ESP, NOTIFY_REKEY_SA, Be32(ctx.oldInSPI), [])];
  }

  /** Reading SA, Nonce, at most one KE, TSi and TSr in that order. */
  lemma ExtractExchange(lead: seq<Payload>, sa: Payload, nonce: Payload, ke: seq<Payload>, tsi: Payload, tsr: Payload)
    requires Extract(lead) == NO_PARTS && sa.SA? && nonce.Nonce? && tsi.TSi? && tsr.TSr?
    requires |ke| <= 1 && (ke != [] ==> ke[0].KE?)
    ensures Extract(lead + [sa] + [nonce] + ke + [tsi, tsr]) ==
            Parts(Some(sa.proposals), nonce.data, if ke != [] then Some(ke[0]) else None,
                  tsi.selectors, tsr.selectors, false)
  {
    hide Extract;
    ExtractKeyed(lead, sa, nonce, ke);
    var a := lead + [sa] + [nonce] + ke;
    ExtractOneMore(a, tsi);
    ExtractOneMore(a + [tsi], tsr);
    assert a + [tsi] + [tsr] == a + [tsi, tsr];
  }

  lemma ExtractKeyed(lead: seq<Payload>, sa: Payload, nonce: Payload, ke: seq<Payload>)
    requires Extract(lead) == NO_PARTS && sa.SA? && nonce.Nonce?
    requires |ke| <= 1 && (ke != [] ==> ke[0].KE?)
    ensures Extract(lead + [sa] + [nonce] + ke) ==
            Parts(Some(sa.proposals), nonce.data, if ke != [] then Some(ke[0]) else None, [], [], false)
  {
    hide Extract;
    ExtractOneMore(lead, sa);
    ExtractOneMore(lead + [sa], nonce);
    var a := lead + [sa] + [nonce];
    if ke != [] {
      ExtractOneMore(a, ke[0]);
      assert ke == [ke[0]];
    } else {
      assert a + ke == a;
    }
  }

  lemma ExtractBare(sa: Payload, nonce: Payload, ke: seq<Payload>)
    requires sa.SA? && nonce.Nonce? && |ke| <= 1 && (ke != [] ==> ke[0].KE?)
    ensures Extract([sa] + [nonce] + ke) ==
            Parts(Some(sa.proposals), nonce.data, if ke != [] then Some(ke[0]) else None, [], [], false)
  {
    ExtractKeyed([], sa, nonce, ke);
    assert [] + [sa] == [sa];
  }

  /** Mirror-image Child SAs: one suite, crossed SPIs, each end's outbound keys the other
      end's inbound keys. */
  predicate MirrorChild(a: ChildUpdate, b: ChildUpdate) {
    && a.suite == b.suite
    && a.newInSPI == b.newOutSPI && a.newOutSPI == b.newInSPI
    && a.outEncr == b.inEncr && a.outInteg == b.inInteg
    && a.inEncr == b.outEncr && a.inInteg == b.outInteg
  }

  /** What an accepting responder answers to a request of this code, spelled out. */
  lemma AcceptedChild(c: Primitives, skd: Bytes, ctx: ChildCtx, theirs: seq<Suite>, mine: seq<Suite>,
                      v6a: bool, v6b: bool, oldB: uint32, priv: Option<Bytes>, draw: Option<Draw>)
    returns (pick: (Proposal, Suite), shared: Bytes)
    requires Laws(c) && Rows(EspLayer, theirs) && Rows(EspLayer, mine)
    requires AnswerChild(c, skd, oldB, mine, v6b, ChildRequest(c, ctx, theirs, v6a), priv, draw).AcceptChild?
    ensures Row(pick.1) && pick.1.layer == EspLayer && pick.0.spi == Be32(ctx.newInSPI) && AnswersDecode(theirs, pick.1)
    ensures draw.Some? && (ctx.dh.Some? ==> priv.Some?)
    ensures var ans := AnswerChild(c, skd, oldB, mine, v6b, ChildRequest(c, ctx, theirs, v6a), priv, draw);
            var dh := if ctx.dh.Some? then Some(Dh(ctx.dh.value.group, priv.value)) else None;
            var keys := ChildKeysFor(c, skd, shared, ctx.ni, draw.value.nonce, pick.1);
            && ans.update == ChildUpdate(draw.value.spi4, ctx.newInSPI, oldB, pick.1.id,
                                         keys.encrRI, keys.integRI, keys.encrIR, keys.integIR)
            && ans.resp == [SA([BuildProposal(pick.0.number, pick.1, Be32(draw.value.spi4), GroupList(dh))])]
                           + [Nonce(draw.value.nonce)] + KePayloads(c, dh) + [TSi(FullRange(v6a)), TSr(FullRange(v6a))]
    ensures if ctx.dh.Some? then c.dhShared(ctx.dh.value.group, ctx.dh.value.priv, c.dhPublic(ctx.dh.value.group, priv.value)) == Some(shared)
            else shared == []
  {
    hide Extract, ChildRequest, BuildProposals, Be32, SelectProposal, BuildProposal, ChildKeysFor, AnswersDecode;
    var spi, groups := Be32(ctx.newInSPI), GroupList(ctx.dh);
    var g := if ctx.dh.Some? then ctx.dh.value.group else 0;
    ExtractRequest(c, ctx, theirs, v6a);
    NegotiationMeets(EspLayer, theirs, mine, spi, groups, g);
    pick := SelectProposal(BuildProposals(spi, theirs, groups), mine, g).value;
    BuiltProtocol(pick.0.number, pick.1, spi, groups);
    U32OfBe32(ctx.newInSPI);
    shared := if ctx.dh.Some? then c.dhShared(g, priv.value, c.dhPublic(g, ctx.dh.value.priv)).value else [];
  }

  /** A Child rekey between two ends of this code, for any enabled suites, with or
      without PFS: when the responder accepts, the initiator completes, and the two
      installed SAs are mirror images. */
  lemma ChildRekeyMirrors(c: Primitives, skd: Bytes, ctx: ChildCtx, theirs: seq<Suite>, mine: seq<Suite>,
                          v6a: bool, v6b: bool, oldB: uint32, priv: Option<Bytes>, draw: Option<Draw>)
    requires Laws(c) && Rows(EspLayer, theirs) && Rows(EspLayer, mine)
    requires draw.Some? ==> draw.value.nonce != []
    ensures var ans := AnswerChild(c, skd, oldB, mine, v6b, ChildRequest(c, ctx, theirs, v6a), priv, draw);
            ans.AcceptChild? ==>
              var done := CompleteChild(c, skd, ctx, theirs, ans.resp);
              done.Ok? && MirrorChild(done.value, ans.update) && done.value.oldInSPI == ctx.oldInSPI
  {
    var ans := AnswerChild(c, skd, oldB, mine, v6b, ChildRequest(c, ctx, theirs, v6a), priv, draw);
    if ans.AcceptChild? {
      var pick, shared := AcceptedChild(c, skd, ctx, theirs, mine, v6a, v6b, oldB, priv, draw);
      CompletesWith(c, skd, ctx, theirs, v6a, priv, draw.value, pick.0.number, pick.1, shared, ans.resp);
      hide AnswerChild, CompleteChild, BuildProposal, ChildKeysFor, AnswersDecode;
    }
  }

  /** How the initiator reads such an answer. */
  lemma CompletesWith(c: Primitives, skd: Bytes, ctx: ChildCtx, theirs: seq<Suite>, v6: bool, priv: Option<Bytes>,
                      draw: Draw, n: byte, s: Suite, shared: Bytes, resp: seq<Payload>)
    requires Laws(c) && Rows(EspLayer, theirs) && Row(s) && s.layer == EspLayer && AnswersDecode(theirs, s)
    requires draw.nonce != [] && (ctx.dh.Some? ==> priv.Some?)
    requires if ctx.dh.Some? then c.dhShared(ctx.dh.value.group, ctx.dh.value.priv, c.dhPublic(ctx.dh.value.group, priv.value)) == Some(shared)
             else shared == []
    requires var dh := if ctx.dh.Some? then Some(Dh(ctx.dh.value.group, priv.value)) else None;
             resp == [SA([BuildProposal(n, s, Be32(draw.spi4), GroupList(dh))])]
                     + [Nonce(draw.nonce)] + KePayloads(c, dh) + [TSi(FullRange(v6)), TSr(FullRange(v6))]
    ensures var keys := ChildKeysFor(c, skd, shared, ctx.ni, draw.nonce, s);
            CompleteChild(c, skd, ctx, theirs, resp) ==
            Ok(ChildUpdate(ctx.newInSPI, draw.spi4, ctx.oldInSPI, s.id,
                           keys.encrIR, keys.integIR, keys.encrRI, keys.integRI))
  {
    var dh := if ctx.dh.Some? then Some(Dh(ctx.dh.value.group, priv.value)) else None;
    var prop := BuildProposal(n, s, Be32(draw.spi4), GroupList(dh));
    var ke := KePayloads(c, dh);
    assert Extract([]) == NO_PARTS;
    ExtractExchange([], SA([prop]), Nonce(draw.nonce), ke, TSi(FullRange(v6)), TSr(FullRange(v6)));
    assert [] + [SA([prop])] == [SA([prop])];
    assert SelectedSuite(prop, theirs) == Some(s);
    BuiltProtocol(n, s, Be32(draw.spi4), GroupList(dh));
    BuiltIsSelection(s, n, Be32(draw.spi4), GroupList(dh));
    U32OfBe32(draw.spi4);
    hide Extract, SelectedSuite, SelectedGroup, BuildProposal, Be32, FullRange, ChildKeysFor;
    assert FreshSecret(c, ctx.dh, if ke != [] then Some(ke[0]) else None, SelectedGroup(prop)) == Ok(shared);
  }

  /** And the responder does accept whenever the lists share a suite, its random source
      works, and the exchange's group is supported and yields a secret. */
  lemma ChildRekeyCompletes(c: Primitives, skd: Bytes, ctx: ChildCtx, theirs: seq<Suite>, mine: seq<Suite>,
                            v6a: bool, v6b: bool, oldB: uint32, priv: Option<Bytes>, draw: Option<Draw>)
    requires Laws(c) && Rows(EspLayer, theirs) && Rows(EspLayer, mine) && ctx.ni != []
    ensures AnswerChild(c, skd, oldB, mine, v6b, ChildRequest(c, ctx, theirs, v6a), priv, draw).AcceptChild? <==>
            && (exists s :: s in mine && s in theirs) && draw.Some?
            && (ctx.dh.Some? ==>
                  && Supported(ctx.dh.value.group) && priv.Some?
                  && c.dhShared(ctx.dh.value.group, ctx.dh.value.priv, c.dhPublic(ctx.dh.value.group, priv.value)).Some?)
  {
    hide Extract, ChildRequest, BuildProposals, Be32, SelectProposal, BuildProposal, ChildKeysFor, AnswersDecode, FullRange;
    var spi, groups := Be32(ctx.newInSPI), GroupList(ctx.dh);
    var g := if ctx.dh.Some? then ctx.dh.value.group else 0;
    ExtractRequest(c, ctx, theirs, v6a);
    NegotiationMeets(EspLayer, theirs, mine, spi, groups, g);
    var r := SelectProposal(BuildProposals(spi, theirs, groups), mine, g);
    if r.Some? {
      assert r.value.1 in mine && r.value.1 in theirs;
    }
  }

  /** An IKE rekey between two ends of this code: when the responder accepts, the
      initiator completes, and the new IKE SAs have equal keys and SPIs and opposite
      roles. */
  lemma IkeRekeyMirrors(c: Primitives, skd: Bytes, ctx: IkeCtx, theirs: seq<Suite>, mine: seq<Suite>,
                        priv: Option<Bytes>, draw: Option<Draw>)
    requires Laws(c) && Rows(IkeLayer, theirs) && Rows(IkeLayer, mine)
    ensures var ans := AnswerIke(c, skd, mine, IkeRequest(c, ctx, theirs), priv, draw);
            ans.AcceptIke? ==>
              var done := CompleteIke(c, skd, ctx, theirs, ans.resp);
              && done.Ok? && Mirrored(done.value, ans.keys) && done.value.role == Initiator
              && done.value.spii == ctx.newSPIi && done.value.spir == draw.value.spi8
  {
    hide Extract, BuildProposals, Be64, SelectProposal, PrfPlus, AnswersDecode, BuildProposal, CompleteIke;
    var spi, g := Be64(ctx.newSPIi), ctx.dh.group;
    ExtractBare(SA(BuildProposals(spi, theirs, [g])), Nonce(ctx.ni), KePayloads(c, Some(ctx.dh)));
    NegotiationMeets(IkeLayer, theirs, mine, spi, [g], g);
    var ans := AnswerIke(c, skd, mine, IkeRequest(c, ctx, theirs), priv, draw);
    if ans.AcceptIke? {
      var (p, s) := SelectProposal(BuildProposals(spi, theirs, [g]), mine, g).value;
      BuiltProtocol(p.number, s, spi, [g]);
      U64OfBe64(ctx.newSPIi);
      CompletesIke(c, skd, ctx, theirs, priv.value, draw.value, p.number, s);
    }
  }

  /** And the responder does accept exactly when the lists share a suite, its random source
      works, the group is supported and yields a secret, and the key schedule has what it
      needs. */
  lemma IkeRekeyCompletes(c: Primitives, skd: Bytes, ctx: IkeCtx, theirs: seq<Suite>, mine: seq<Suite>,
                          priv: Option<Bytes>, draw: Option<Draw>)
    requires Laws(c) && Rows(IkeLayer, theirs) && Rows(IkeLayer, mine)
    ensures AnswerIke(c, skd, mine, IkeRequest(c, ctx, theirs), priv, draw).AcceptIke? <==>
            && (exists s :: s in mine && s in theirs) && draw.Some? && priv.Some? && Supported(ctx.dh.group)
            && c.dhPublic(ctx.dh.group, ctx.dh.priv) != []
            && var shared := c.dhShared(ctx.dh.group, ctx.dh.priv, c.dhPublic(ctx.dh.group, priv.value));
               && shared.Some? && shared.value != [] && skd != []
               && |ctx.ni| >= MIN_NONCE_LEN && |draw.value.nonce| >= MIN_NONCE_LEN
  {
    hide Extract, BuildProposals, Be64, SelectProposal, FromSkeyseed, AnswersDecode, BuildProposal;
    var spi, g := Be64(ctx.newSPIi), ctx.dh.group;
    ExtractBare(SA(BuildProposals(spi, theirs, [g])), Nonce(ctx.ni), KePayloads(c, Some(ctx.dh)));
    NegotiationMeets(IkeLayer, theirs, mine, spi, [g], g);
    var r := SelectProposal(BuildProposals(spi, theirs, [g]), mine, g);
    if r.Some? {
      assert r.value.1 in mine && r.value.1 in theirs;
    }
  }

  lemma CompletesIke(c: Primitives, skd: Bytes, ctx: IkeCtx, theirs: seq<Suite>, priv: Bytes, draw: Draw, n: byte, s: Suite)
    requires Laws(c) && Rows(IkeLayer, theirs) && Row(s) && s.layer == IkeLayer && AnswersDecode(theirs, s)
    requires draw.nonce != []
    ensures var g := ctx.dh.group;
            var resp := [SA([BuildProposal(n, s, Be64(draw.spi8), [g])])] + [Nonce(draw.nonce)] + KePayloads(c, Some(Dh(g, priv)));
            CompleteIke(c, skd, ctx, theirs, resp) ==
            match c.dhShared(g, ctx.dh.priv, c.dhPublic(g, priv))
            case None => Err
            case Some(shared) =>
              DeriveRekeyIke(c, s.id, skd, Initiator, ctx.newSPIi, draw.spi8, ctx.ni, draw.nonce, shared)
  {
    var g := ctx.dh.group;
    var prop := BuildProposal(n, s, Be64(draw.spi8), [g]);
    ExtractBare(SA([prop]), Nonce(draw.nonce), KePayloads(c, Some(Dh(g, priv))));
    assert SelectedSuite(prop, theirs) == Some(s);
    BuiltProtocol(n, s, Be64(draw.spi8), [g]);
    U64OfBe64(draw.spi8);
    hide Extract, SelectedSuite, BuildProposal, Be64, FromSkeyseed;
  }

  /** The keys of every update fit what the ESP layer insists on, so the data plane can
      always build the SA it is handed. */
  lemma UpdatesFit(c: Primitives, skd: Bytes, shared: Bytes, ni: Bytes, nr: Bytes, s: Suite, spi: uint32)
    requires PrfLaw(c) && Row(s)
    ensures var k := ChildKeysFor(c, skd, shared, ni, nr, s);
            Esp.KeysFit(Esp.Direction(s.id, spi, k.encrIR, k.integIR)) && Esp.KeysFit(Esp.Direction(s.id, spi, k.encrRI, k.integRI))
  {
    hide PrfPlus;
  }

  // ----- what an answer says about what it installs -----

  /** p is the strict selection of u's suite under u's inbound SPI. */
  predicate ChildGrant(p: Proposal, u: ChildUpdate) {
    p.protocol == PROTOCOL_ESP && p.spi == Be32(u.newInSPI) && IsSelectionFor(RowFor(EspLayer, u.suite), p)
  }

  predicate IkeGrant(p: Proposal, k: IkeKeys) {
    p.protocol == PROTOCOL_IKE && p.spi == Be64(k.spir) && IsSelectionFor(RowFor(IkeLayer, k.suite), p) && k.role == Responder
  }

  predicate LeadsWithSa(inner: seq<Payload>) {
    inner != [] && inner[0].SA?
  }

  /** The ESP layer can build both directions of u. */
  predicate Buildable(u: ChildUpdate) {
    && Esp.KeysFit(Esp.Direction(u.suite, u.newOutSPI, u.outEncr, u.outInteg))
    && Esp.KeysFit(Esp.Direction(u.suite, u.newInSPI, u.inEncr, u.inInteg))
  }

  /** The SA payload read is the leading one when no other follows. */
  lemma {:induction false} ExtractLeadingSa(inner: seq<Payload>)
    requires LeadsWithSa(inner) && forall i :: 1 <= i < |inner| ==> !inner[i].SA?
    ensures Extract(inner).sa == Some(inner[0].proposals)
    decreases inner
  {
    if |inner| > 1 {
      ExtractLeadingSa(inner[..|inner| - 1]);
    }
  }

  /** An accepting answer announces exactly the SA it hands over, which replaces the
      live one; a refusal announces nothing. */
  lemma ChildAnswerAnnounces(c: Primitives, skd: Bytes, oldInSPI: uint32, enabled: seq<Suite>, v6: bool,
                             req: seq<Payload>, priv: Option<Bytes>, draw: Option<Draw>)
    requires PrfLaw(c) && Rows(EspLayer, enabled)
    ensures match AnswerChild(c, skd, oldInSPI, enabled, v6, req, priv, draw)
            case RefuseChild(n) => n.Notify?
            case AcceptChild(u, resp, _) =>
              && u.oldInSPI == oldInSPI && Buildable(u) && LeadsWithSa(resp)
              && |resp[0].proposals| == 1 && ChildGrant(resp[0].proposals[0], u)
  {
    hide Extract, SelectProposal, BuildProposal, ChildKeysFor, IsSelectionFor, Be32;
    var a := AnswerChild(c, skd, oldInSPI, enabled, v6, req, priv, draw);
    if a.AcceptChild? {
      var parts := Extract(req);
      var g: uint16 := if parts.ke.Some? then parts.ke.value.group else 0;
      var pick := SelectProposal(parts.sa.value, enabled, g).value;
      SelectProposalSpec(parts.sa.value, enabled, g);
      var groups := if parts.ke.Some? then [g] else [];
      BuiltIsSelection(pick.1, pick.0.number, Be32(draw.value.spi4), groups);
      BuiltProtocol(pick.0.number, pick.1, Be32(draw.value.spi4), groups);
      assert pick.1 == RowFor(EspLayer, pick.1.id);
      var shared := if parts.ke.Some? then c.dhShared(g, priv.value, parts.ke.value.data).value else [];
      UpdatesFit(c, skd, shared, parts.nonce, draw.value.nonce, pick.1, 0);
    }
  }

  lemma IkeAnswerAnnounces(c: Primitives, skd: Bytes, enabled: seq<Suite>,
                           req: seq<Payload>, priv: Option<Bytes>, draw: Option<Draw>)
    requires PrfLaw(c) && Rows(IkeLayer, enabled)
    ensures match AnswerIke(c, skd, enabled, req, priv, draw)
            case RefuseIke(n) => n.Notify?
            case AcceptIke(keys, resp, _) =>
              && |resp| == 3 && LeadsWithSa(resp) && resp[1].Nonce? && resp[2].KE?
              && |resp[0].proposals| == 1 && IkeGrant(resp[0].proposals[0], keys)
  {
    hide Extract, SelectProposal, BuildProposal, FromSkeyseed, IsSelectionFor, Be64;
    var a := AnswerIke(c, skd, enabled, req, priv, draw);
    if a.AcceptIke? {
      var parts := Extract(req);
      var g := parts.ke.value.group;
      var pick := SelectProposal(parts.sa.value, enabled, g).value;
      SelectProposalSpec(parts.sa.value, enabled, g);
      BuiltIsSelection(pick.1, pick.0.number, Be64(draw.value.spi8), [g]);
      BuiltProtocol(pick.0.number, pick.1, Be64(draw.value.spi8), [g]);
      assert pick.1 == RowFor(IkeLayer, pick.1.id);
    }
  }

  /** An accepting answer is read as carrying the SA payload it leads with. */
  lemma ChildAnswerSa(c: Primitives, skd: Bytes, oldInSPI: uint32, enabled: seq<Suite>, v6: bool,
                      req: seq<Payload>, priv: Option<Bytes>, draw: Option<Draw>)
    requires PrfLaw(c) && Rows(EspLayer, enabled)
    ensures var a := AnswerChild(c, skd, oldInSPI, enabled, v6, req, priv, draw);
            a.AcceptChild? ==> LeadsWithSa(a.resp) && Extract(a.resp).sa == Some(a.resp[0].proposals)
  {
    hide Extract, SelectProposal, BuildProposal, ChildKeysFor, Be32;
    var a := AnswerChild(c, skd, oldInSPI, enabled, v6, req, priv, draw);
    if a.AcceptChild? {
      ExtractLeadingSa(a.resp);
    }
  }

  lemma IkeAnswerSa(c: Primitives, skd: Bytes, enabled: seq<Suite>, req: seq<Payload>, priv: Option<Bytes>, draw: Option<Draw>)
    requires PrfLaw(c) && Rows(IkeLayer, enabled)
    ensures var a := AnswerIke(c, skd, enabled, req, priv, draw);
            a.AcceptIke? ==> LeadsWithSa(a.resp) && Extract(a.resp).sa == Some(a.resp[0].proposals)
  {
    hide Extract, SelectProposal, BuildProposal, FromSkeyseed, Be64;
    var a := AnswerIke(c, skd, enabled, req, priv, draw);
    if a.AcceptIke? {
      ExtractLeadingSa(a.resp);
    }
  }

  lemma CompletedReplaces(c: Primitives, skd: Bytes, ctx: ChildCtx, enabled: seq<Suite>, resp: seq<Payload>)
    requires PrfLaw(c) && Rows(EspLayer, enabled)
    ensures var r := CompleteChild(c, skd, ctx, enabled, resp);
            r.Ok? ==> r.value.oldInSPI == ctx.oldInSPI && r.value.newInSPI == ctx.newInSPI && Buildable(r.value)
  {
    hide Extract, SelectedSuite, ChildKeysFor, SelectedGroup, FreshSecret;
    var parts := Extract(resp);
    if CompleteChild(c, skd, ctx, enabled, resp).Ok? {
      var prop := parts.sa.value[0];
      SelectedRow(prop, enabled);
      UpdatesFit(c, skd, FreshSecret(c, ctx.dh, parts.ke, SelectedGroup(prop)).value, ctx.ni, parts.nonce,
                 SelectedSuite(prop, enabled).value, 0);
    }
  }

  // ----- what a refusal says -----

  /** No suite and proposal go together, with or without a group. */
  lemma GroupOnlyNarrows(ps: seq<Proposal>, enabled: seq<Suite>, g: uint16)
    ensures SelectProposal(ps, enabled, g).Some? <==> !NothingFor(ps, enabled, g)
    ensures NothingFor(ps, enabled, 0) ==> NothingFor(ps, enabled, g)
  {
    hide SelectProposal, SuiteMatches, HasGroup;
    SelectProposalSpec(ps, enabled, g);
  }

  /** Every request gets exactly one of these answers: NO_PROPOSAL_CHOSEN (14) when it is
      incomplete or nothing fits; INVALID_KE_PAYLOAD (17) with our group 31 when its group
      is what stands in the way; INVALID_SYNTAX (7) when its public value is no good;
      TEMPORARY_FAILURE (43) when the random source fails us; else acceptance. */
  lemma ChildRefusals(c: Primitives, skd: Bytes, oldInSPI: uint32, enabled: seq<Suite>, v6: bool,
                      req: seq<Payload>, priv: Option<Bytes>, draw: Option<Draw>)
    requires PrfLaw(c) && Rows(EspLayer, enabled)
    ensures var a, parts := AnswerChild(c, skd, oldInSPI, enabled, v6, req, priv, draw), Extract(req);
            var ke, complete := parts.ke, parts.sa.Some? && parts.nonce != [];
            var fits := complete && !GroupObstacle(parts, enabled) && !NothingFor(parts.sa.value, enabled, 0);
            var secret := ke.Some? ==> priv.Some? && c.dhShared(ke.value.group, priv.value, ke.value.data).Some?;
            && (a == RefuseChild(Notify(0, 17, [], [0, 31])) <==> complete && GroupObstacle(parts, enabled))
            && (a == RefuseChild(Notify(3, 14, [], [])) <==>
                  !complete || (!GroupObstacle(parts, enabled) && NothingFor(parts.sa.value, enabled, 0)))
            && (a == RefuseChild(Notify(0, 7, [], [])) <==> fits && !secret && priv.Some?)
            && (a == RefuseChild(Notify(0, 43, [], [])) <==> fits && if ke.Some? && priv.None? then true else secret && draw.None?)
            && (a.AcceptChild? <==> fits && secret && draw.Some?)
  {
    hide Extract, SelectProposal, BuildProposal, ChildKeysFor, NothingFor, Be32, FullRange;
    var parts := Extract(req);
    if parts.sa.Some? {
      GroupOnlyNarrows(parts.sa.value, enabled, if parts.ke.Some? then parts.ke.value.group else 0);
      GroupOnlyNarrows(parts.sa.value, enabled, 0);
    }
  }

  /** A group other than 14 and 31, or one without which a proposal would have been chosen. */
  ghost predicate GroupObstacle(parts: Parts, enabled: seq<Suite>)
    requires parts.sa.Some? && (parts.ke.Some? ==> parts.ke.value.KE?)
  {
    parts.ke.Some? && ((parts.ke.value.group != 14 && parts.ke.value.group != 31)
                       || (NothingFor(parts.sa.value, enabled, parts.ke.value.group) && !NothingFor(parts.sa.value, enabled, 0)))
  }

  /** The same of an IKE rekey, where a KE payload must be there, an error notify makes the
      request incomplete, and a short nonce or an empty secret is a temporary failure. */
  lemma IkeRefusals(c: Primitives, skd: Bytes, enabled: seq<Suite>, req: seq<Payload>, priv: Option<Bytes>, draw: Option<Draw>)
    requires PrfLaw(c) && Rows(IkeLayer, enabled)
    ensures var a, parts := AnswerIke(c, skd, enabled, req, priv, draw), Extract(req);
            var ke := parts.ke;
            var complete := !parts.failed && parts.sa.Some? && parts.nonce != [] && ke.Some? && ke.value.data != [];
            var fits := complete && !GroupObstacle(parts, enabled) && !NothingFor(parts.sa.value, enabled, 0);
            var shared := if ke.Some? && priv.Some? then c.dhShared(ke.value.group, priv.value, ke.value.data) else None;
            var keyed := draw.Some? && shared.Some? && shared.value != [] && skd != [] && |parts.nonce| >= 16 && |draw.value.nonce| >= 16;
            && (a == RefuseIke(Notify(0, 17, [], [0, 31])) <==> complete && GroupObstacle(parts, enabled))
            && (a == RefuseIke(Notify(0, 14, [], [])) <==>
                  !complete || (!GroupObstacle(parts, enabled) && NothingFor(parts.sa.value, enabled, 0)))
            && (a == RefuseIke(Notify(0, 7, [], [])) <==> fits && priv.Some? && shared.None?)
            && (a == RefuseIke(Notify(0, 43, [], [])) <==> fits && (priv.None? || (shared.Some? && !keyed)))
            && (a.AcceptIke? <==> fits && priv.Some? && keyed)
  {
    hide Extract, SelectProposal, BuildProposal, FromSkeyseed, NothingFor, Be64;
    var parts := Extract(req);
    if parts.sa.Some? && parts.ke.Some? {
      GroupOnlyNarrows(parts.sa.value, enabled, parts.ke.value.group);
      GroupOnlyNarrows(parts.sa.value, enabled, 0);
    }
  }

  // ----- the handlers' own steps -----

  /** handleChildRekeyRequest up to its effects. */
  method DecideChild(c: Primitives, skd: Bytes, oldInSPI: uint32, enabled: seq<Suite>, v6: bool,
                     req: seq<Payload>, priv: Option<Bytes>, draw: Option<Draw>) returns (a: ChildAnswer)
    requires PrfLaw(c) && Rows(EspLayer, enabled)
    ensures a == AnswerChild(c, skd, oldInSPI, enabled, v6, req, priv, draw)
  {
    hide Extract, SelectProposal, BuildProposal, ChildKeysFor, Be32, FullRange;
    var parts := ReadParts(req);
    if parts.sa.None? || parts.nonce == [] {
      return RefuseChild(Notice(PROTOCOL_ESP, NOTIFY_NO_PROPOSAL_CHOSEN));
    }
    var group: uint16 := 0;
    if parts.ke.Some? {
      if !Supported(parts.ke.value.group) {
        return RefuseChild(INVALID_KE);
      }
      group := parts.ke.value.group;
    }
    var pick := FindProposal(parts.sa.value, enabled, group);
    if pick.None? {
      if group != 0 {
        var sansGroup := FindProposal(parts.sa.value, enabled, 0);
        if sansGroup.Some? {
          return RefuseChild(INVALID_KE);
        }
      }
      return RefuseChild(Notice(PROTOCOL_ESP, NOTIFY_NO_PROPOSAL_CHOSEN));
    }
    SelectProposalSpec(parts.sa.value, enabled, group);
    var (prop, suite) := pick.value;
    var dh: Option<Dh>, shared: Bytes := None, [];
    if parts.ke.Some? {
      if priv.None? {
        return RefuseChild(TEMPORARY_FAILURE);
      }
      var secret := c.dhShared(group, priv.value, parts.ke.value.data);
      if secret.None? {
        return RefuseChild(INVALID_SYNTAX);
      }
      dh, shared := Some(Dh(group, priv.value)), secret.value;
    }
    if draw.None? {
      return RefuseChild(TEMPORARY_FAILURE);
    }
    var nr := draw.value.nonce;
    var resp := [SA([BuildProposal(prop.number, suite, Be32(draw.value.spi4), GroupList(dh))])];
    resp := resp + [Nonce(nr)];
    resp := resp + KePayloads(c, dh);
    if parts.tsi != [] && parts.tsr != [] {
      resp := resp + [TSi(parts.tsi), TSr(parts.tsr)];
    } else {
      resp := resp + Selectors(v6);
    }
    var keys := ChildKeysFor(c, skd, shared, parts.nonce, nr, suite);
    var u := ChildUpdate(draw.value.spi4, U32(prop.spi), oldInSPI, suite.id, keys.encrRI, keys.integRI, keys.encrIR, keys.integIR);
    return AcceptChild(u, resp, if dh.Some? then Some(dh.value.group) else None);
  }

  /** handleIKERekeyRequest up to its effects. */
  method DecideIke(c: Primitives, skd: Bytes, enabled: seq<Suite>, req: seq<Payload>, priv: Option<Bytes>, draw: Option<Draw>)
    returns (a: IkeAnswer)
    requires PrfLaw(c) && Rows(IkeLayer, enabled)
    ensures a == AnswerIke(c, skd, enabled, req, priv, draw)
  {
    hide Extract, SelectProposal, BuildProposal, FromSkeyseed, Be64;
    var parts := ReadParts(req);
    if parts.failed || parts.sa.None? || parts.nonce == [] || parts.ke.None? || parts.ke.value.data == [] {
      return RefuseIke(Notice(PROTOCOL_NONE, NOTIFY_NO_PROPOSAL_CHOSEN));
    }
    var group := parts.ke.value.group;
    if !Supported(group) {
      return RefuseIke(INVALID_KE);
    }
    var pick := FindProposal(parts.sa.value, enabled, group);
    if pick.None? {
      var sansGroup := FindProposal(parts.sa.value, enabled, 0);
      if sansGroup.Some? {
        return RefuseIke(INVALID_KE);
      }
      return RefuseIke(Notice(PROTOCOL_NONE, NOTIFY_NO_PROPOSAL_CHOSEN));
    }
    SelectProposalSpec(parts.sa.value, enabled, group);
    var (prop, suite) := pick.value;
    if priv.None? {
      return RefuseIke(TEMPORARY_FAILURE);
    }
    var secret := c.dhShared(group, priv.value, parts.ke.value.data);
    if secret.None? {
      return RefuseIke(INVALID_SYNTAX);
    }
    if draw.None? {
      return RefuseIke(TEMPORARY_FAILURE);
    }
    var spir, nr := draw.value.spi8, draw.value.nonce;
    var keys := DeriveRekeyIke(c, suite.id, skd, Responder, U64(prop.spi), spir, parts.nonce, nr, secret.value);
    if keys.Err? {
      return RefuseIke(TEMPORARY_FAILURE);
    }
    var resp := [SA([BuildProposal(prop.number, suite, Be64(spir), [group])]), Nonce(nr),
                 KE(group, c.dhPublic(group, priv.value))];
    return AcceptIke(keys.value, resp, group);
  }

  /** childRekeyResponse, and the keys of completeChildRekey. */
  method ConcludeChild(c: Primitives, skd: Bytes, ctx: ChildCtx, enabled: seq<Suite>, resp: seq<Payload>) returns (r: Result<ChildUpdate>)
    requires PrfLaw(c) && Rows(EspLayer, enabled)
    ensures r == CompleteChild(c, skd, ctx, enabled, resp)
  {
    hide Extract, SelectedSuite, ChildKeysFor, SelectedGroup;
    var parts := ReadParts(resp);
    if parts.failed || parts.sa.None? || parts.sa.value == [] {
      return Err;
    }
    var prop := parts.sa.value[0];
    var suite := FindSelectedSuite(prop, enabled);
    if suite.None? || |prop.spi| != 4 || parts.nonce == [] {
      return Err;
    }
    SelectedRow(prop, enabled);
    var shared: Bytes := [];
    if ctx.dh.Some? && parts.ke.Some? {
      if parts.ke.value.group != ctx.dh.value.group {
        return Err;
      }
      var secret := c.dhShared(ctx.dh.value.group, ctx.dh.value.priv, parts.ke.value.data);
      if secret.None? {
        return Err;
      }
      shared := secret.value;
    } else if parts.ke.Some? {
      return Err;
    } else if ctx.dh.Some? && SelectedGroup(prop) != 0 {
      return Err;
    }
    var keys := ChildKeysFor(c, skd, shared, ctx.ni, parts.nonce, suite.value);
    return Ok(ChildUpdate(ctx.newInSPI, U32(prop.spi), ctx.oldInSPI, suite.value.id,
                          keys.encrIR, keys.integIR, keys.encrRI, keys.integRI));
  }

  /** ikeRekeyPayloads, and the keys of completeIKERekey. */
  method ConcludeIke(c: Primitives, skd: Bytes, ctx: IkeCtx, enabled: seq<Suite>, resp: seq<Payload>) returns (r: Result<IkeKeys>)
    requires PrfLaw(c) && Rows(IkeLayer, enabled)
    ensures r == CompleteIke(c, skd, ctx, enabled, resp)
  {
    hide Extract, SelectedSuite, FromSkeyseed;
    var parts := ReadParts(resp);
    if parts.failed || parts.sa.None? || parts.nonce == [] || parts.ke.None? || parts.ke.value.data == [] {
      return Err;
    }
    if parts.sa.value == [] {
      return Err;
    }
    var prop := parts.sa.value[0];
    var suite := FindSelectedSuite(prop, enabled);
    if suite.None? || |prop.spi| != 8 || parts.ke.value.group != ctx.dh.group {
      return Err;
    }
    var secret := c.dhShared(ctx.dh.group, ctx.dh.priv, parts.ke.value.data);
    if secret.None? {
      return Err;
    }
    r := DeriveRekeyIke(c, suite.value.id, skd, Initiator, ctx.newSPIi, U64(prop.spi), ctx.ni, parts.nonce, secret.value);
  }

  /** isIKERekey's scan. */
  method RekeysIke(inner: seq<Payload>) returns (found: bool)
    ensures found == IsIkeRekey(inner)
  {
    for i := 0 to |inner|
      invariant forall j :: 0 <= j < i ==>
                  !(inner[j].SA? && inner[j].proposals != [] && inner[j].proposals[0].protocol == PROTOCOL_IKE)
    {
      if inner[i].SA? && inner[i].proposals != [] && inner[i].proposals[0].protocol == PROTOCOL_IKE {
        return true;
      }
    }
    return false;
  }
}
