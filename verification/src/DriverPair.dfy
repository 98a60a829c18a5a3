/** Two sessions of this driver facing each other. */
module DriverPair {
  import opened Bytes
  import opened Crypto
  import opened IkeMsg
  import opened KeySchedule
  import opened Rekey
  import opened Driver
  import opened DriverInv
  import opened DriverFrame
  import opened DriverEvents
  import opened RekeyOctets
  import opened SkEnvelope
  import MC = MessageCodec

  /** The event of d arriving at the end that opens it under the SA sa. */
  function Arrives(now: int, sa: IkeSa, d: Datagram): Event {
    Inbound(now, sa.id, d.exchange, d.response, d.msgID, d.inner)
  }

  /** a's current IKE SA has its other end at b, in an SA of b's that still decodes at time
      now, each in any state its own runs can reach. */
  ghost predicate Facing(wa: World, a: State, wb: World, b: State, sb: IkeSa, now: int) {
    && Sound(wa) && Sound(wb) && wa.c == wb.c && Laws(wa.c)
    && (exists fa :: Inv(wa, fa, a)) && (exists fb :: Inv(wb, fb, b))
    && Decoder(b, now, sb.id).Some? && Decoder(b, now, sb.id).value.0 == sb
    && Mirrored(a.ike.cur.keys, sb.keys)
  }

  /** b's SA sb is the superseded one. */
  predicate Via(b: State, sb: IkeSa) {
    sb.id != b.ike.cur.id
  }

  /** What an end that installed on this request had been asked and drew. */
  lemma Accepting(w: World, s: State, now: int, sa: IkeSa, d: Datagram) returns (u: ChildUpdate, resp: seq<Payload>)
    requires Sound(w) && !d.response && d.exchange == EXCHANGE_CREATE_CHILD_SA
    requires Decoder(s, now, sa.id).Some? && Decoder(s, now, sa.id).value.0 == sa
    requires |Step(w, s, Arrives(now, sa, d)).0.log.installs| > |s.log.installs|
    ensures s.child.sa.Some?
    ensures var ans := AnswerChild(w.c, sa.keys.skd, s.child.sa.value.inSPI, w.esp, w.v6, d.inner, w.privs(s.pos + 1), w.draws(s.pos + 1));
            ans.AcceptChild? && ans.update == u && ans.resp == resp
    ensures var t := Step(w, s, Arrives(now, sa, d)).0;
            && t.log.installs == s.log.installs + [u] && Slot(t, Via(s, sa)).Answered?
            && t.child.sa == Some(ChildSa(u.newInSPI, u.newOutSPI, u.suite))
            && var r := Slot(t, Via(s, sa)).resp; r.inner == resp && r.msgID == d.msgID && r.response && r.exchange == EXCHANGE_CREATE_CHILD_SA
  {
    hide AnswerChild, AnswerIke, IsIkeRekey;
    var via := Via(s, sa);
    var s1 := Heard(s, now);
    var t := Step(w, s, Arrives(now, sa, d)).0;
    assert !Duplicate(Slot(s1, via), d.msgID);
    AcceptingChild(w, s1, now, sa, via, d.msgID, d.inner);
    var ans := AnswerChild(w.c, sa.keys.skd, s.child.sa.value.inSPI, w.esp, w.v6, d.inner, w.privs(s.pos + 1), w.draws(s.pos + 1));
    u, resp := ans.update, ans.resp;
  }

  lemma AcceptingChild(w: World, s: State, now: int, sa: IkeSa, via: bool, msgID: uint32, inner: seq<Payload>)
    requires Sound(w) && |HandleCreate(w, s, now, sa, via, msgID, inner).log.installs| > |s.log.installs|
    ensures s.child.sa.Some?
    ensures var a := AnswerChild(w.c, sa.keys.skd, s.child.sa.value.inSPI, w.esp, w.v6, inner, w.privs(s.pos), w.draws(s.pos));
            var t := HandleCreate(w, s, now, sa, via, msgID, inner);
            && a.AcceptChild? && t.log.installs == s.log.installs + [a.update] && Slot(t, via).Answered?
            && t.child.sa == Some(ChildSa(a.update.newInSPI, a.update.newOutSPI, a.update.suite))
            && var r := Slot(t, via).resp; r.inner == a.resp && r.msgID == msgID && r.response && r.exchange == EXCHANGE_CREATE_CHILD_SA
  {
    hide AnswerChild, AnswerIke, IsIkeRekey;
  }

  /** An end whose pending Child rekey the response completes. */
  lemma Completing(w: World, s: State, now: int, r: Datagram, u: ChildUpdate)
    requires Sound(w) && s.win.pending.Some? && s.win.pending.value.kind.ChildRekey?
    requires r.response && r.exchange == EXCHANGE_CREATE_CHILD_SA && r.msgID == s.win.pending.value.msgID
    requires CompleteChild(w.c, s.ike.cur.keys.skd, s.win.pending.value.kind.child, w.esp, r.inner) == Ok(u)
    ensures var t := Step(w, s, Arrives(now, s.ike.cur, r)).0;
            t.log.installs == s.log.installs + [u] && t.child.sa == Some(ChildSa(u.newInSPI, u.newOutSPI, u.suite))
  {
    hide CompleteChild, CompleteIke;
  }

  /** A Child rekey carried by two drivers: once the peer has installed on the request,
      under its current or its superseded SA, its answer, whenever it arrives while the
      request is outstanding, makes this end install the mirror image, and each end's live
      SPIs are the other's crossed. */
  lemma ChildRekeyEndToEnd(wa: World, a: State, wb: World, b: State, sb: IkeSa, nowA: int, nowB: int)
    requires Facing(wa, a, wb, b, sb, nowB) && a.win.pending.Some? && a.win.pending.value.kind.ChildRekey?
    ensures var b1 := Step(wb, b, Arrives(nowB, sb, a.win.pending.value.raw)).0;
            |b1.log.installs| > |b.log.installs| ==>
            && Slot(b1, Via(b, sb)).Answered?
            && var a1 := Step(wa, a, Arrives(nowA, a.ike.cur, Slot(b1, Via(b, sb)).resp)).0;
               && |a1.log.installs| == |a.log.installs| + 1 && |b1.log.installs| == |b.log.installs| + 1
               && MirrorChild(a1.log.installs[|a.log.installs|], b1.log.installs[|b.log.installs|])
               && a1.child.sa.Some? && b1.child.sa.Some?
               && a1.child.sa.value.inSPI == b1.child.sa.value.outSPI && a1.child.sa.value.outSPI == b1.child.sa.value.inSPI
  {
    hide Step, CompleteChild, AnswerChild, ChildRequest;
    var p := a.win.pending.value;
    var fa :| Inv(wa, fa, a);
    PendingSpeaks(wa, fa, a);
    var b1 := Step(wb, b, Arrives(nowB, sb, p.raw)).0;
    if |b1.log.installs| > |b.log.installs| {
      var u, resp := Accepting(wb, b, nowB, sb, p.raw);
      ChildRekeyMirrors(wa.c, a.ike.cur.keys.skd, p.kind.child, wa.esp, wb.esp, wa.v6, wb.v6,
                        b.child.sa.value.inSPI, wb.privs(b.pos + 1), wb.draws(b.pos + 1));
      var done := CompleteChild(wa.c, a.ike.cur.keys.skd, p.kind.child, wa.esp, resp);
      Completing(wa, a, nowA, Slot(b1, Via(b, sb)).resp, done.value);
    }
  }

  /** And the deletion this end then sends for the SA it replaced takes the peer's new SA
      for dead exactly if their random SPIs coincide: the replaced one is the peer's new
      inbound SPI. */
  lemma DeletionAtThePeer(wa: World, a: State, wb: World, b: State, sb: IkeSa, nowA: int, nowB: int)
    requires Facing(wa, a, wb, b, sb, nowB) && a.win.pending.Some? && a.win.pending.value.kind.ChildRekey?
    requires !a.win.pending.value.kind.child.reestablish && wa.encodes(a.pos + 1)
    requires a.win.pending.value.kind.child.oldInSPI != a.win.pending.value.kind.child.newInSPI
    ensures var b1 := Step(wb, b, Arrives(nowB, sb, a.win.pending.value.raw)).0;
            |b1.log.installs| > |b.log.installs| ==>
            && Slot(b1, Via(b, sb)).Answered? && b1.child.sa.Some?
            && var a1 := Step(wa, a, Arrives(nowA, a.ike.cur, Slot(b1, Via(b, sb)).resp)).0;
               var replaced, live := a.win.pending.value.kind.child.oldInSPI, b1.child.sa.value;
               && ChildDeleted(wa, a, a1, nowA, replaced) && replaced != live.outSPI && a1.win.pending.Some?
               && (Named(a1.win.pending.value.raw.inner, b1.child.sa) == 0 <==> replaced != live.inSPI && replaced != live.outSPI)
  {
    hide Step, CompleteChild, AnswerChild, ChildRequest, Named, ChildDeleted, MirrorChild, Mirrored;
    ChildRekeyEndToEnd(wa, a, wb, b, sb, nowA, nowB);
    var p := a.win.pending.value;
    var b1 := Step(wb, b, Arrives(nowB, sb, p.raw)).0;
    if |b1.log.installs| > |b.log.installs| {
      var u, resp := Accepting(wb, b, nowB, sb, p.raw);
      var fa :| Inv(wa, fa, a);
      PendingSpeaks(wa, fa, a);
      var e := Arrives(nowA, a.ike.cur, Slot(b1, Via(b, sb)).resp);
      ChildConcluded(wa, a, e);
      CompletedReplaces(wa.c, a.ike.cur.keys.skd, p.kind.child, wa.esp, e.inner);
      OneDeletion(wa, a, Step(wa, a, e).0, nowA, p.kind.child.oldInSPI, b1.child.sa.value);
    }
  }

  lemma OneDeletion(w: World, s: State, t: State, now: int, spi: uint32, live: ChildSa)
    requires ChildDeleted(w, s, t, now, spi)
    ensures t.win.pending.Some?
    ensures Named(t.win.pending.value.raw.inner, Some(live)) == 0 <==> spi != live.inSPI && spi != live.outSPI
  {
    hide U32;
    var inner := t.win.pending.value.raw.inner;
    NamedMeans(inner, Some(live));
    if spi == live.inSPI || spi == live.outSPI {
      assert Deletes(inner[0], live);
    }
  }

  /** The same exchange as octets: whatever sealing under this end's SA yields for the
      request opens at the peer to exactly the request's payloads, and whatever the peer
      seals for its answer opens at this end to exactly the answer's. */
  lemma ChildRekeyAsOctets(wa: World, a: State, wb: World, b: State, sb: IkeSa, nowB: int,
                           f: Fields, iv: Bytes, num: uint64, g: Fields, jv: Bytes, mum: uint64)
    requires Facing(wa, a, wb, b, sb, nowB) && a.win.pending.Some? && a.win.pending.value.kind.ChildRekey?
    requires KeysFit(a.ike.cur.keys) && ShortPublic(wa.c) && |wa.esp| <= MAX_SUITES && |iv| == |jv| == AES_BLOCK
    requires KeysFit(sb.keys)
    ensures OpensTo(wa.c, a.ike.cur.keys, sb.keys, f, a.win.pending.value.raw.inner, iv, num)
    ensures var b1 := Step(wb, b, Arrives(nowB, sb, a.win.pending.value.raw)).0;
            |b1.log.installs| > |b.log.installs| ==>
              && Slot(b1, Via(b, sb)).Answered?
              && OpensTo(wa.c, sb.keys, a.ike.cur.keys, g, Slot(b1, Via(b, sb)).resp.inner, jv, mum)
  {
    hide Step, AnswerChild, ChildRequest, MC.WellFormedChain, OpensTo;
    var p := a.win.pending.value;
    var fa :| Inv(wa, fa, a);
    PendingSpeaks(wa, fa, a);
    ChildRequestWellFormed(wa.c, p.kind.child, wa.esp, wa.v6);
    SealedOpens(wa.c, a.ike.cur.keys, sb.keys, f, p.raw.inner, iv, num);
    var b1 := Step(wb, b, Arrives(nowB, sb, p.raw)).0;
    if |b1.log.installs| > |b.log.installs| {
      var u, resp := Accepting(wb, b, nowB, sb, p.raw);
      ChildAnswerWellFormed(wb.c, sb.keys.skd, b.child.sa.value.inSPI, wb.esp, wb.v6, p.raw.inner, wb.privs(b.pos + 1), wb.draws(b.pos + 1));
      SealedOpens(wa.c, sb.keys, a.ike.cur.keys, g, resp, jv, mum);
    }
  }

  lemma PendingSpeaks(w: World, first: uint32, s: State)
    requires Inv(w, first, s) && s.win.pending.Some?
    ensures var p := s.win.pending.value;
            && !p.raw.response && p.raw.msgID == p.msgID
            && (p.kind.Rekeys() ==> p.raw.exchange == EXCHANGE_CREATE_CHILD_SA)
            && (p.kind.ChildRekey? ==> p.raw.inner == ChildRequest(w.c, p.kind.child, w.esp, w.v6) && |p.kind.child.ni| == NONCE_LEN)
            && (p.kind.IkeRekey? ==> p.raw.inner == IkeRequest(w.c, p.kind.ike, w.ike) && |p.kind.ike.ni| == NONCE_LEN)
  {
    hide ChildRequest, IkeRequest, Voiced, Cached, OnceEach, Announced, CacheBacked, Chained, Young, Tallied, Numbered;
  }

  lemma CuttingOver(w: World, s: State, now: int, d: Datagram) returns (keys: IkeKeys, resp: seq<Payload>)
    requires Sound(w) && !d.response && d.exchange == EXCHANGE_CREATE_CHILD_SA
    requires |Step(w, s, Arrives(now, s.ike.cur, d)).0.log.swaps| > |s.log.swaps|
    ensures var ans := AnswerIke(w.c, s.ike.cur.keys.skd, w.ike, d.inner, w.privs(s.pos + 1), w.draws(s.pos + 1));
            ans.AcceptIke? && ans.keys == keys && ans.resp == resp
    ensures var t := Step(w, s, Arrives(now, s.ike.cur, d)).0;
            && t.ike.cur.keys == keys && t.ike.prior == Some(s.ike.cur) && t.ike.priorPeer.Answered?
            && var r := t.ike.priorPeer.resp; r.inner == resp && r.msgID == d.msgID && r.response && r.exchange == EXCHANGE_CREATE_CHILD_SA
  {
    hide AnswerChild, AnswerIke, IsIkeRekey;
    var t := Step(w, s, Arrives(now, s.ike.cur, d)).0;
    assert !Duplicate(s.ike.peer, d.msgID);
    var ans := AnswerIke(w.c, s.ike.cur.keys.skd, w.ike, d.inner, w.privs(s.pos + 1), w.draws(s.pos + 1));
    keys, resp := ans.keys, ans.resp;
  }

  lemma CompletingIke(w: World, s: State, now: int, r: Datagram, keys: IkeKeys)
    requires Sound(w) && s.win.pending.Some? && s.win.pending.value.kind.IkeRekey?
    requires r.response && r.exchange == EXCHANGE_CREATE_CHILD_SA && r.msgID == s.win.pending.value.msgID
    requires CompleteIke(w.c, s.ike.cur.keys.skd, s.win.pending.value.kind.ike, w.ike, r.inner) == Ok(keys)
    ensures var t := Step(w, s, Arrives(now, s.ike.cur, r)).0; t.ike.cur.keys == keys && t.ike.prior == Some(s.ike.cur)
  {
    hide CompleteChild, CompleteIke;
  }

  /** An IKE rekey carried by two drivers: after the peer cut over on the request, its
      answer makes this end cut over to the other end of the same new IKE SA. */
  lemma IkeRekeyEndToEnd(wa: World, a: State, wb: World, b: State, nowA: int, nowB: int)
    requires Facing(wa, a, wb, b, b.ike.cur, nowB) && a.win.pending.Some? && a.win.pending.value.kind.IkeRekey?
    ensures var b1 := Step(wb, b, Arrives(nowB, b.ike.cur, a.win.pending.value.raw)).0;
            |b1.log.swaps| > |b.log.swaps| ==>
            && b1.ike.priorPeer.Answered?
            && var a1 := Step(wa, a, Arrives(nowA, a.ike.cur, b1.ike.priorPeer.resp)).0;
               && Mirrored(a1.ike.cur.keys, b1.ike.cur.keys) && a1.ike.cur.keys.role == Initiator
               && a1.ike.prior == Some(a.ike.cur) && b1.ike.prior == Some(b.ike.cur)
  {
    hide Step, CompleteIke, AnswerIke, IkeRequest;
    var p := a.win.pending.value;
    var fa :| Inv(wa, fa, a);
    PendingSpeaks(wa, fa, a);
    var b1 := Step(wb, b, Arrives(nowB, b.ike.cur, p.raw)).0;
    if |b1.log.swaps| > |b.log.swaps| {
      var keys, resp := CuttingOver(wb, b, nowB, p.raw);
      IkeRekeyMirrors(wa.c, a.ike.cur.keys.skd, p.kind.ike, wa.ike, wb.ike, wb.privs(b.pos + 1), wb.draws(b.pos + 1));
      var done := CompleteIke(wa.c, a.ike.cur.keys.skd, p.kind.ike, wa.ike, resp);
      CompletingIke(wa, a, nowA, b1.ike.priorPeer.resp, done.value);
    }
  }
}
