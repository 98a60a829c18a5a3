/** What the CREATE_CHILD_SA messages carry and what keys come of them, in payloads,
    protocol numbers and octets. */
module RekeyContents {
  import opened Bytes
  import opened Crypto
  import opened IkeMsg
  import opened KeySchedule
  import opened Suites
  import opened Rekey

  // ----- reading -----

  /** The last payload of type t is the i-th. */
  ghost predicate LastOf(inner: seq<Payload>, t: byte, i: nat) {
    i < |inner| && inner[i].Type() == t && forall j :: i < j < |inner| ==> inner[j].Type() != t
  }

  ghost predicate NoneOf(inner: seq<Payload>, t: byte) {
    forall j :: 0 <= j < |inner| ==> inner[j].Type() != t
  }

  /** What of the given type was read is read off the payload p. */
  predicate ReadAs(parts: Parts, p: Payload) {
    match p
    case SA(ps) => parts.sa == Some(ps)
    case KE(_, _) => parts.ke == Some(p)
    case Nonce(data) => parts.nonce == data
    case TSi(sels) => parts.tsi == sels
    case TSr(sels) => parts.tsr == sels
    case _ => true
  }

  /** Of every kind the last payload counts, in whatever order they come. */
  lemma {:induction false} ExtractReads(inner: seq<Payload>, t: byte, i: nat)
    requires LastOf(inner, t, i)
    ensures ReadAs(Extract(inner), inner[i])
    decreases inner
  {
    var n := |inner| - 1;
    if i < n {
      var rest := inner[..n];
      assert LastOf(rest, t, i);
      ExtractReads(rest, t, i);
      TakeOther(Extract(rest), inner[n], inner[i]);
    }
  }

  lemma TakeOther(parts: Parts, p: Payload, q: Payload)
    requires ReadAs(parts, q) && p.Type() != q.Type()
    ensures ReadAs(Take(parts, p), q)
  {}

  predicate Missing(parts: Parts, t: byte) {
    && (t == 33 ==> parts.sa.None?) && (t == 34 ==> parts.ke.None?) && (t == 40 ==> parts.nonce == [])
    && (t == 44 ==> parts.tsi == []) && (t == 45 ==> parts.tsr == [])
  }

  /** Without a payload of its type nothing is read. */
  lemma {:induction false} ExtractMisses(inner: seq<Payload>, t: byte)
    requires NoneOf(inner, t)
    ensures Missing(Extract(inner), t)
    decreases inner
  {
    if inner != [] {
      var n := |inner| - 1;
      assert NoneOf(inner[..n], t);
      ExtractMisses(inner[..n], t);
      TakeKeepsMissing(Extract(inner[..n]), inner[n], t);
    }
  }

  lemma TakeKeepsMissing(parts: Parts, p: Payload, t: byte)
    requires Missing(parts, t) && p.Type() != t
    ensures Missing(Take(parts, p), t)
  {}

  /** Any error notify anywhere, numbered below 16384, marks a failure. */
  lemma {:induction false} ExtractFails(inner: seq<Payload>)
    ensures Extract(inner).failed <==> exists k :: 0 <= k < |inner| && Fails(inner[k])
    decreases inner
  {
    if inner != [] {
      var n := |inner| - 1;
      var rest := inner[..n];
      ExtractFails(rest);
      TakeFails(Extract(rest), inner[n]);
      hide Take, Fails;
      assert forall k :: 0 <= k < n ==> rest[k] == inner[k];
    }
  }

  lemma TakeFails(parts: Parts, p: Payload)
    ensures Take(parts, p).failed <==> parts.failed || Fails(p)
  {}

  predicate Fails(p: Payload) {
    p.Notify? && 0 < p.notifyType < 16384
  }

  // ----- asking -----

  /** 0.0.0.0 to 255.255.255.255, and the same of IPv6 if asked for, all ports, any
      protocol. */
  predicate Everything(sels: seq<TrafficSelector>, v6: bool) {
    && |sels| == (if v6 then 2 else 1)
    && sels[0] == TrafficSelector(7, 0, 0, 65535, [0, 0, 0, 0], [255, 255, 255, 255])
    && (v6 ==>
          && sels[1].tsType == 8 && sels[1].protocol == 0 && sels[1].startPort == 0 && sels[1].endPort == 65535
          && |sels[1].startAddr| == |sels[1].endAddr| == 16
          && forall i :: 0 <= i < 16 ==> sels[1].startAddr[i] == 0 && sels[1].endAddr[i] == 255)
  }

  /** One proposal per enabled suite, numbered from 1, under this SPI. */
  predicate Offers(ps: seq<Proposal>, layer: Layer, enabled: seq<Suite>, spi: Bytes, groups: seq<uint16>) {
    && |ps| == |enabled|
    && forall i :: 0 <= i < |ps| ==>
         && ps[i].number == (i + 1) % 256 && ps[i].protocol == (if layer == IkeLayer then 1 else 3) && ps[i].spi == spi
         && OfferedAs(ps[i].transforms, layer, enabled[i].id, groups)
  }

  lemma BuiltOffers(layer: Layer, enabled: seq<Suite>, spi: Bytes, groups: seq<uint16>)
    requires Rows(layer, enabled) && |groups| <= 1
    ensures Offers(BuildProposals(spi, enabled, groups), layer, enabled, spi, groups)
  {
    hide BuildProposal, OfferedAs;
    forall i | 0 <= i < |enabled|
      ensures var p := BuildProposal((i + 1) % 256, enabled[i], spi, groups);
              && p.number == (i + 1) % 256 && p.protocol == (if layer == IkeLayer then 1 else 3) && p.spi == spi
              && OfferedAs(p.transforms, layer, enabled[i].id, groups)
    {
      BuiltProtocol((i + 1) % 256, enabled[i], spi, groups);
      BuiltAs((i + 1) % 256, enabled[i], spi, groups);
    }
  }

  /** A request for a Child SA with our inbound SPI spi. It names the SA it rekeys, if any,
      in a REKEY_SA notify, number 16393, for ESP, and carries a KE payload exactly for
      perfect forward secrecy. */
  predicate AsksForChild(c: Primitives, inner: seq<Payload>, spi: uint32, rekeyed: Option<uint32>, ni: Bytes, dh: Option<Dh>,
                         enabled: seq<Suite>, v6: bool) {
    var k, m := if rekeyed.Some? then 1 else 0, if dh.Some? then 1 else 0;
    && |inner| == k + m + 4
    && (rekeyed.Some? ==>
          && inner[0].Notify? && inner[0].protocol == 3 && inner[0].notifyType == 16393 && inner[0].data == []
          && |inner[0].spi| == 4 && U32(inner[0].spi) == rekeyed.value)
    && inner[k].SA? && Offers(inner[k].proposals, EspLayer, enabled, Be32(spi), if dh.Some? then [dh.value.group] else [])
    && inner[k + 1] == Nonce(ni)
    && (dh.Some? ==> inner[k + 2] == KE(dh.value.group, c.dhPublic(dh.value.group, dh.value.priv)))
    && inner[k + m + 2].TSi? && Everything(inner[k + m + 2].selectors, v6)
    && inner[k + m + 3].TSr? && Everything(inner[k + m + 3].selectors, v6)
  }

  lemma ChildRequestAsks(c: Primitives, ctx: ChildCtx, enabled: seq<Suite>, v6: bool)
    requires Rows(EspLayer, enabled)
    ensures AsksForChild(c, ChildRequest(c, ctx, enabled, v6), ctx.newInSPI, if ctx.reestablish then None else Some(ctx.oldInSPI),
                         ctx.ni, ctx.dh, enabled, v6)
  {
    hide BuildProposals, Offers, Be32;
    U32OfBe32(ctx.oldInSPI);
    BuiltOffers(EspLayer, enabled, Be32(ctx.newInSPI), GroupList(ctx.dh));
  }

  /** A request for a new IKE SA with our SPI spi: always with a KE payload. */
  predicate AsksForIke(c: Primitives, inner: seq<Payload>, spi: uint64, ni: Bytes, dh: Dh, enabled: seq<Suite>) {
    && |inner| == 3 && inner[0].SA? && Offers(inner[0].proposals, IkeLayer, enabled, Be64(spi), [dh.group])
    && inner[1] == Nonce(ni) && inner[2] == KE(dh.group, c.dhPublic(dh.group, dh.priv))
  }

  lemma IkeRequestAsks(c: Primitives, ctx: IkeCtx, enabled: seq<Suite>)
    requires Rows(IkeLayer, enabled)
    ensures AsksForIke(c, IkeRequest(c, ctx, enabled), ctx.newSPIi, ctx.ni, ctx.dh, enabled)
  {
    hide BuildProposals, Offers;
    BuiltOffers(IkeLayer, enabled, Be64(ctx.newSPIi), [ctx.dh.group]);
  }

  /** The two kinds of request are told apart at the other end. */
  lemma KindsToldApart(c: Primitives, inner: seq<Payload>, spi4: uint32, rekeyed: Option<uint32>, spi8: uint64, ni: Bytes, dh: Dh,
                       pfs: Option<Dh>, enabled: seq<Suite>, v6: bool)
    ensures AsksForIke(c, inner, spi8, ni, dh, enabled) && enabled != [] ==> IsIkeRekey(inner)
    ensures AsksForChild(c, inner, spi4, rekeyed, ni, pfs, enabled, v6) ==> !IsIkeRekey(inner)
  {
    hide Everything;
  }

  // ----- answering -----

  /** Whatever the request, an accepting answer carries one proposal for the suite and
      under the SPI installed, the drawn nonce, a KE payload in the request's group exactly
      if the request has one, and the request's own traffic selectors in their places, or
      everything if it lacks either kind. The SA sends to the SPI of one of the request's
      proposals. */
  lemma ChildAnswerCarries(c: Primitives, skd: Bytes, oldInSPI: uint32, enabled: seq<Suite>, v6: bool,
                           req: seq<Payload>, priv: Option<Bytes>, draw: Option<Draw>)
    requires PrfLaw(c) && Rows(EspLayer, enabled)
    ensures var a, parts := AnswerChild(c, skd, oldInSPI, enabled, v6, req, priv, draw), Extract(req);
            a.AcceptChild? ==>
              var u, r, m := a.update, a.resp, if parts.ke.Some? then 1 else 0;
              && draw.Some? && parts.sa.Some? && (parts.ke.Some? ==> priv.Some?)
              && |r| == m + 4 && r[0].SA? && |r[0].proposals| == 1 && r[0].proposals[0].protocol == 3
              && r[0].proposals[0].spi == Be32(u.newInSPI) && u.newInSPI == draw.value.spi4 && u.oldInSPI == oldInSPI
              && OfferedAs(r[0].proposals[0].transforms, EspLayer, u.suite, if parts.ke.Some? then [parts.ke.value.group] else [])
              && (exists p :: p in parts.sa.value && SentTo(p, u, r[0].proposals[0].number))
              && r[1] == Nonce(draw.value.nonce)
              && (parts.ke.Some? ==> r[2] == KE(parts.ke.value.group, c.dhPublic(parts.ke.value.group, priv.value)))
              && a.pfs == (if parts.ke.Some? then Some(parts.ke.value.group) else None)
              && r[m + 2].TSi? && r[m + 3].TSr?
              && (if parts.tsi != [] && parts.tsr != [] then r[m + 2].selectors == parts.tsi && r[m + 3].selectors == parts.tsr
                  else Everything(r[m + 2].selectors, v6) && Everything(r[m + 3].selectors, v6))
  {
    hide Extract, SelectProposal, BuildProposal, ChildKeysFor, Acceptable, OfferedAs, Be32;
    var a := AnswerChild(c, skd, oldInSPI, enabled, v6, req, priv, draw);
    if a.AcceptChild? {
      var parts := Extract(req);
      var g: uint16 := if parts.ke.Some? then parts.ke.value.group else 0;
      var pick := SelectProposal(parts.sa.value, enabled, g).value;
      SelectProposalSpec(parts.sa.value, enabled, g);
      AcceptableSpi(pick.1, pick.0, g);
      var groups := if parts.ke.Some? then [g] else [];
      BuiltProtocol(pick.0.number, pick.1, Be32(draw.value.spi4), groups);
      BuiltAs(pick.0.number, pick.1, Be32(draw.value.spi4), groups);
      assert SentTo(pick.0, a.update, a.resp[0].proposals[0].number);
    }
  }

  predicate SentTo(p: Proposal, u: ChildUpdate, number: byte) {
    |p.spi| == 4 && U32(p.spi) == u.newOutSPI && p.number == number
  }

  lemma AcceptableSpi(s: Suite, p: Proposal, g: uint16)
    requires Acceptable(s, p, g)
    ensures |p.spi| == s.SpiLen()
  {}

  // ----- completing -----

  /** p is a strict selection of some enabled suite. */
  ghost predicate SelectsSome(p: Proposal, enabled: seq<Suite>) {
    exists s :: s in enabled && IsSelectionFor(s, p)
  }

  lemma SelectsSomeMeans(p: Proposal, enabled: seq<Suite>)
    requires forall i :: 0 <= i < |enabled| ==> Row(enabled[i])
    ensures SelectedSuite(p, enabled).Some? <==> SelectsSome(p, enabled)
  {
    hide IsSelectionFor, SelectedSuite;
    if SelectedSuite(p, enabled).Some? {
      SelectedSuiteIff(p, enabled, SelectedSuite(p, enabled).value);
    }
    if s :| s in enabled && IsSelectionFor(s, p) {
      SelectedSuiteIff(p, enabled, s);
    }
  }

  /** A response completes our Child rekey exactly when it reports no error, its first
      proposal strictly selects an enabled suite under a 4-octet SPI, it has a nonce, and the
      two ends agree on forward secrecy: its KE is in our group and yields a secret, or it
      has none and we did not ask or it selects no group. */
  lemma ChildCompletesExactly(c: Primitives, skd: Bytes, ctx: ChildCtx, enabled: seq<Suite>, resp: seq<Payload>)
    requires PrfLaw(c) && Rows(EspLayer, enabled)
    ensures var parts := Extract(resp);
            CompleteChild(c, skd, ctx, enabled, resp).Ok? <==>
            && !parts.failed && parts.sa.Some? && parts.sa.value != [] && parts.nonce != []
            && var p, ke := parts.sa.value[0], parts.ke;
               && SelectsSome(p, enabled) && |p.spi| == 4
               && if ke.Some? then
                    && ctx.dh.Some? && ke.value.group == ctx.dh.value.group
                    && c.dhShared(ctx.dh.value.group, ctx.dh.value.priv, ke.value.data).Some?
                  else ctx.dh.None? || forall i :: 0 <= i < |p.transforms| && p.transforms[i].kind == 4 ==> p.transforms[i].id == 0
  {
    hide Extract, SelectedSuite, SelectsSome, ChildKeysFor, SelectedGroup, U32;
    var parts := Extract(resp);
    if parts.sa.Some? && parts.sa.value != [] {
      var p := parts.sa.value[0];
      SelectsSomeMeans(p, enabled);
      if SelectedSuite(p, enabled).Some? {
        SelectionNarrow(p, enabled);
        NoGroupMeans(p);
      }
    }
  }

  lemma SelectionNarrow(p: Proposal, enabled: seq<Suite>)
    requires (forall i :: 0 <= i < |enabled| ==> Row(enabled[i])) && SelectedSuite(p, enabled).Some?
    ensures Narrow(p.transforms, 4)
  {
    hide SelectedSuite, ByType, SuiteMatches;
    SelectedSuiteIff(p, enabled, SelectedSuite(p, enabled).value);
    NarrowMeans(p.transforms, 4);
  }

  /** Likewise our IKE rekey, where the KE payload must be there, the SPI has 8 octets, and
      the key schedule insists on its inputs. */
  lemma IkeCompletesExactly(c: Primitives, skd: Bytes, ctx: IkeCtx, enabled: seq<Suite>, resp: seq<Payload>)
    requires PrfLaw(c) && Rows(IkeLayer, enabled)
    ensures var parts := Extract(resp);
            CompleteIke(c, skd, ctx, enabled, resp).Ok? <==>
            && !parts.failed && parts.sa.Some? && parts.sa.value != [] && parts.ke.Some? && parts.ke.value.data != []
            && SelectsSome(parts.sa.value[0], enabled) && |parts.sa.value[0].spi| == 8 && parts.ke.value.group == ctx.dh.group
            && skd != [] && |ctx.ni| >= 16 && |parts.nonce| >= 16
            && var shared := c.dhShared(ctx.dh.group, ctx.dh.priv, parts.ke.value.data); shared.Some? && shared.value != []
  {
    hide Extract, SelectedSuite, SelectsSome, FromSkeyseed, U64;
    var parts := Extract(resp);
    if parts.sa.Some? && parts.sa.value != [] {
      SelectsSomeMeans(parts.sa.value[0], enabled);
    }
  }

  // ----- keys -----

  /** The lengths of the keys for one direction. */
  predicate Sized(suite: Cipher, encr: Bytes, integ: Bytes) {
    if suite == AesCbc256Sha256 then |encr| == 32 && |integ| == 32 else |encr| == 36 && |integ| == 0
  }

  function KeymatLen(suite: Cipher): nat {
    if suite == AesCbc256Sha256 then 128 else 72
  }

  /** KEYMAT is prf+(SK_d, [g^ir |] Ni | Nr), and the initiator sends with its first half. */
  lemma ChildKeysFrom(c: Primitives, skd: Bytes, shared: Bytes, ni: Bytes, nr: Bytes, s: Suite)
    requires PrfLaw(c) && Row(s)
    ensures var k := ChildKeysFor(c, skd, shared, ni, nr, s);
            && k.encrIR + k.integIR + k.encrRI + k.integRI == PrfPlus(c, skd, shared + ni + nr, KeymatLen(s.id))
            && Sized(s.id, k.encrIR, k.integIR) && Sized(s.id, k.encrRI, k.integRI)
  {
    ChildKeysInOrder(c, skd, shared, ni, nr, s.encrKeyLen, s.integKeyLen);
    hide PrfPlus;
  }

  lemma AnsweredChildKeys(c: Primitives, skd: Bytes, oldInSPI: uint32, enabled: seq<Suite>, v6: bool,
                          req: seq<Payload>, priv: Option<Bytes>, draw: Option<Draw>)
    requires PrfLaw(c) && Rows(EspLayer, enabled)
    ensures var a, parts := AnswerChild(c, skd, oldInSPI, enabled, v6, req, priv, draw), Extract(req);
            a.AcceptChild? ==>
              var u, ke := a.update, parts.ke;
              && draw.Some? && (ke.Some? ==> priv.Some? && c.dhShared(ke.value.group, priv.value, ke.value.data).Some?)
              && var shared := if ke.Some? then c.dhShared(ke.value.group, priv.value, ke.value.data).value else [];
                 && u.inEncr + u.inInteg + u.outEncr + u.outInteg ==
                    PrfPlus(c, skd, shared + parts.nonce + draw.value.nonce, KeymatLen(u.suite))
                 && Sized(u.suite, u.inEncr, u.inInteg) && Sized(u.suite, u.outEncr, u.outInteg)
  {
    hide Extract, SelectProposal, BuildProposal, ChildKeysFor, PrfPlus, Be32;
    var a, parts := AnswerChild(c, skd, oldInSPI, enabled, v6, req, priv, draw), Extract(req);
    if a.AcceptChild? {
      var g: uint16 := if parts.ke.Some? then parts.ke.value.group else 0;
      SelectProposalSpec(parts.sa.value, enabled, g);
      var s := SelectProposal(parts.sa.value, enabled, g).value.1;
      var shared := if parts.ke.Some? then c.dhShared(g, priv.value, parts.ke.value.data).value else [];
      ChildKeysFrom(c, skd, shared, parts.nonce, draw.value.nonce, s);
    }
  }

  lemma CompletedChildKeys(c: Primitives, skd: Bytes, ctx: ChildCtx, enabled: seq<Suite>, resp: seq<Payload>)
    requires PrfLaw(c) && Rows(EspLayer, enabled)
    ensures var r, parts := CompleteChild(c, skd, ctx, enabled, resp), Extract(resp);
            r.Ok? ==>
              var u, ke := r.value, parts.ke;
              && parts.sa.Some? && parts.sa.value != [] && |parts.sa.value[0].spi| == 4 && u.newOutSPI == U32(parts.sa.value[0].spi)
              && u.newInSPI == ctx.newInSPI && u.oldInSPI == ctx.oldInSPI && IsSelectionFor(RowFor(EspLayer, u.suite), parts.sa.value[0])
              && (ke.Some? ==> ctx.dh.Some? && ke.value.group == ctx.dh.value.group
                               && c.dhShared(ke.value.group, ctx.dh.value.priv, ke.value.data).Some?)
              && var shared := if ke.Some? then c.dhShared(ke.value.group, ctx.dh.value.priv, ke.value.data).value else [];
                 && u.outEncr + u.outInteg + u.inEncr + u.inInteg ==
                    PrfPlus(c, skd, shared + ctx.ni + parts.nonce, KeymatLen(u.suite))
                 && Sized(u.suite, u.inEncr, u.inInteg) && Sized(u.suite, u.outEncr, u.outInteg)
  {
    hide Extract, SelectedSuite, IsSelectionFor, ChildKeysFor, SelectedGroup, PrfPlus, U32;
    var r, parts := CompleteChild(c, skd, ctx, enabled, resp), Extract(resp);
    if r.Ok? {
      var prop := parts.sa.value[0];
      SelectedRow(prop, enabled);
      var s := SelectedSuite(prop, enabled).value;
      SelectedSuiteIff(prop, enabled, s);
      assert s == RowFor(EspLayer, s.id);
      ChildKeysFrom(c, skd, FreshSecret(c, ctx.dh, parts.ke, SelectedGroup(prop)).value, ctx.ni, parts.nonce, s);
    }
  }

  function IkeStreamLen(suite: Cipher): nat {
    if suite == AesCbc256Sha256 then 224 else 168
  }

  /** All seven keys of k are prf+(prf(old SK_d, g^ir | Ni | Nr), Ni | Nr | SPIi | SPIr). */
  ghost predicate RekeyedFrom(c: Primitives, k: IkeKeys, skd: Bytes, shared: Bytes, ni: Bytes, nr: Bytes)
    requires PrfLaw(c)
  {
    k.skd + k.skai + k.skar + k.skei + k.sker + k.skpi + k.skpr ==
    PrfPlus(c, c.prf(skd, shared + ni + nr), ni + nr + Be64(k.spii) + Be64(k.spir), IkeStreamLen(k.suite))
  }

  lemma AnsweredIkeKeys(c: Primitives, skd: Bytes, enabled: seq<Suite>, req: seq<Payload>, priv: Option<Bytes>, draw: Option<Draw>)
    requires PrfLaw(c) && Rows(IkeLayer, enabled)
    ensures var a, parts := AnswerIke(c, skd, enabled, req, priv, draw), Extract(req);
            a.AcceptIke? ==>
              var k, ke := a.keys, parts.ke;
              && draw.Some? && priv.Some? && ke.Some? && c.dhShared(ke.value.group, priv.value, ke.value.data).Some?
              && k.role == Responder && k.spir == draw.value.spi8 && a.group == ke.value.group && parts.sa.Some?
              && (exists p :: p in parts.sa.value && |p.spi| == 8 && U64(p.spi) == k.spii)
              && RekeyedFrom(c, k, skd, c.dhShared(ke.value.group, priv.value, ke.value.data).value, parts.nonce, draw.value.nonce)
  {
    hide Extract, SelectProposal, BuildProposal, Acceptable, FromSkeyseed, PrfPlus, Be64, U64;
    var a, parts := AnswerIke(c, skd, enabled, req, priv, draw), Extract(req);
    if a.AcceptIke? {
      var g := parts.ke.value.group;
      var pick := SelectProposal(parts.sa.value, enabled, g).value;
      SelectProposalSpec(parts.sa.value, enabled, g);
      AcceptableSpi(pick.1, pick.0, g);
      var shared := c.dhShared(g, priv.value, parts.ke.value.data).value;
      KeysInOrder(c, pick.1.id, Responder, U64(pick.0.spi), draw.value.spi8, parts.nonce, draw.value.nonce, c.prf(skd, shared + parts.nonce + draw.value.nonce));
    }
  }

  lemma CompletedIkeKeys(c: Primitives, skd: Bytes, ctx: IkeCtx, enabled: seq<Suite>, resp: seq<Payload>)
    requires PrfLaw(c) && Rows(IkeLayer, enabled)
    ensures var r, parts := CompleteIke(c, skd, ctx, enabled, resp), Extract(resp);
            r.Ok? ==>
              var k, ke := r.value, parts.ke;
              && ke.Some? && ke.value.group == ctx.dh.group && c.dhShared(ke.value.group, ctx.dh.priv, ke.value.data).Some?
              && parts.sa.Some? && parts.sa.value != [] && |parts.sa.value[0].spi| == 8
              && k.role == Initiator && k.spii == ctx.newSPIi && k.spir == U64(parts.sa.value[0].spi)
              && RekeyedFrom(c, k, skd, c.dhShared(ke.value.group, ctx.dh.priv, ke.value.data).value, ctx.ni, parts.nonce)
  {
    hide Extract, SelectedSuite, FromSkeyseed, PrfPlus, Be64, U64;
    var r, parts := CompleteIke(c, skd, ctx, enabled, resp), Extract(resp);
    if r.Ok? {
      var prop := parts.sa.value[0];
      var s := SelectedSuite(prop, enabled).value;
      var shared := c.dhShared(ctx.dh.group, ctx.dh.priv, parts.ke.value.data).value;
      KeysInOrder(c, s.id, Initiator, ctx.newSPIi, U64(prop.spi), ctx.ni, parts.nonce, c.prf(skd, shared + ctx.ni + parts.nonce));
    }
  }
}
