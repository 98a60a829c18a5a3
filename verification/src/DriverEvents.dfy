/** What one inbound datagram does, said of the fields of the session and what goes on the
    wire: times are in nanoseconds, payloads and exchanges in protocol numbers. */
module DriverEvents {
  import opened Bytes
  import opened IkeMsg
  import opened KeySchedule
  import opened Rekey
  import opened RekeyContents
  import opened Driver
  import opened DriverFrame
  import opened DriverTicks
  import BodyCodec

  // ----- which datagrams count -----

  predicate Stale(dd: Dedup, msgID: uint32) {
    dd.Answered? && msgID <= dd.msgID
  }

  /** The datagram authenticates under the current SA, or under the superseded one within
      its grace period. */
  predicate UnderCurrent(s: State, e: Event) {
    e.Inbound? && e.sa == s.ike.cur.id
  }

  predicate UnderPrior(s: State, e: Event) {
    e.Inbound? && e.sa != s.ike.cur.id && s.ike.prior.Some? && s.ike.prior.value.id == e.sa && e.now < s.ike.priorUntil
  }

  /** A peer request that is processed: CREATE_CHILD_SA, 36, or INFORMATIONAL, 37, under one
      of the SAs, and newer than all that was answered there. */
  predicate Heeded(s: State, e: Event) {
    && e.Inbound? && !e.response && (e.exchange == 36 || e.exchange == 37)
    && ((UnderCurrent(s, e) && !Stale(s.ike.peer, e.msgID)) || (UnderPrior(s, e) && !Stale(s.ike.priorPeer, e.msgID)))
  }

  lemma HeededIsHeard(s: State, e: Event)
    ensures Heeded(s, e) <==> Hears(s, e)
  {}

  /** The SA a counted datagram is under. */
  function SaOf(s: State, e: Event): IkeSa
    requires UnderCurrent(s, e) || UnderPrior(s, e)
  {
    if e.sa == s.ike.cur.id then s.ike.cur else s.ike.prior.value
  }

  /** A datagram under neither SA changes nothing; any other shows that the peer lives. */
  lemma SignOfLife(w: World, s: State, e: Event)
    requires Sound(w) && e.Inbound?
    ensures !UnderCurrent(s, e) && !UnderPrior(s, e) ==> Step(w, s, e) == (Bump(s), false)
    ensures UnderCurrent(s, e) || UnderPrior(s, e) ==> Step(w, s, e).0.timers.lastInbound == e.now
  {
    hide HandleRequest, HandleResponse;
    if UnderCurrent(s, e) || UnderPrior(s, e) {
      var s0, via := Heard(s, e.now), e.sa != s.ike.cur.id;
      LifeSeen(w, s0, e.now, SaOf(s, e), via, e.exchange, e.msgID, e.inner);
    }
  }

  lemma LifeSeen(w: World, s: State, now: int, sa: IkeSa, via: bool, exchange: byte, msgID: uint32, inner: seq<Payload>)
    requires Sound(w)
    ensures HandleRequest(w, s, now, sa, via, exchange, msgID, inner).0.timers.lastInbound == s.timers.lastInbound
    ensures HandleResponse(w, s, now, via, exchange, msgID, inner).timers.lastInbound == s.timers.lastInbound
  {
    hide HandleCreate, CompleteChild, CompleteIke, Teardown, Named, HandleDeletes;
    CreateKeepsInbound(w, s, now, sa, via, msgID, inner);
    DeletesKeepTimers(w, s, now, inner);
  }

  lemma CreateKeepsInbound(w: World, s: State, now: int, sa: IkeSa, via: bool, msgID: uint32, inner: seq<Payload>)
    requires Sound(w)
    ensures HandleCreate(w, s, now, sa, via, msgID, inner).timers.lastInbound == s.timers.lastInbound
  {
    hide AnswerChild, AnswerIke, IsIkeRekey;
  }

  lemma {:induction false} DeletesKeepTimers(w: World, s: State, now: int, inner: seq<Payload>)
    ensures HandleDeletes(w, s, now, inner).timers == s.timers
    decreases inner
  {
    hide ChildRequest, RefsChild, BodyCodec.SpiSize;
    if inner != [] {
      DeletesKeepTimers(w, s, now, inner[..|inner| - 1]);
    }
  }

  // ----- what ends the driver -----

  predicate Quits(p: Payload) {
    p.Delete? && p.protocol == 1
  }

  /** The peer deletes the current IKE SA, or a probe is given up. */
  predicate Ends(w: World, s: State, e: Event) {
    match e
    case Inbound(_, sa, exchange, response, msgID, inner) =>
      && sa == s.ike.cur.id && exchange == 37 && !response && !Stale(s.ike.peer, msgID)
      && exists i :: 0 <= i < |inner| && Quits(inner[i])
    case Tick(now, _, _, _) =>
      && Awake(s, e) && s.win.pending.Some?
      && var p := s.win.pending.value; p.kind == Dpd && now > p.next && p.attempts >= TriesOf(w, p)
  }

  /** The driver stops and reports the peer dead exactly then; so a DELETE under the
      superseded SA never stops it. */
  lemma StopsExactly(w: World, s: State, e: Event)
    requires Sound(w)
    ensures Step(w, s, e).1 <==> Ends(w, s, e)
  {
    hide HandleRequest, HandleResponse, Housekeeping, Waits;
    if e.Tick? {
      TickStops(w, s, e);
    } else if UnderCurrent(s, e) || UnderPrior(s, e) {
      RequestStops(w, Heard(s, e.now), e.now, SaOf(s, e), e.sa != s.ike.cur.id, e.exchange, e.msgID, e.inner);
    }
  }

  lemma RequestStops(w: World, s: State, now: int, sa: IkeSa, via: bool, exchange: byte, msgID: uint32, inner: seq<Payload>)
    requires Sound(w)
    ensures HandleRequest(w, s, now, sa, via, exchange, msgID, inner).1 <==>
            && !via && exchange != EXCHANGE_CREATE_CHILD_SA && !Stale(s.ike.peer, msgID)
            && exists i :: 0 <= i < |inner| && Quits(inner[i])
  {
    hide HandleCreate, HandleInformational, Note;
  }

  lemma TickStops(w: World, s: State, e: Event)
    requires Sound(w) && e.Tick?
    ensures Step(w, s, e).1 <==> Ends(w, s, e)
  {
    if !Awake(s, e) {
      WokenStops(w, s, e);
    } else if s.win.pending.Some? {
      PendingTick(w, s, e);
    } else {
      var k := SomeTurn(w, s, e);
      TickStarts(w, s, e, k);
    }
  }

  lemma WokenStops(w: World, s: State, e: Event)
    requires Sound(w) && e.Tick? && !Awake(s, e)
    ensures !Step(w, s, e).1
  {
    if s.win.pending.Some? || w.encodes(s.pos + 1) {
      WokenTick(w, s, e);
    } else {
      hide Begin, RetryOldDelete;
      OldDeleteAside(w, ExpireGrace(DetectSuspend(w, Bump(s), e.now, e.wall), e.now), e.now);
    }
  }

  // ----- responses -----

  predicate Awaited(s: State, e: Event) {
    e.Inbound? && s.win.pending.Some? && s.win.pending.value.msgID == e.msgID
  }

  /** An INFORMATIONAL response releases the window of the probe or deletion it answers, and
      under the superseded SA the DELETE tracked there; it does nothing else. */
  lemma Acknowledged(w: World, s: State, e: Event)
    requires Sound(w) && e.Inbound? && e.response && e.exchange == 37
    ensures UnderCurrent(s, e) ==>
              Step(w, s, e) == (if Awaited(s, e) && (s.win.pending.value.kind == Dpd || s.win.pending.value.kind == DeleteSa)
                                then Heard(s, e.now).(win := s.win.(pending := None)) else Heard(s, e.now), false)
    ensures UnderPrior(s, e) ==>
              Step(w, s, e) == (if s.ike.priorDelete.Some? && s.ike.priorDelete.value.msgID == e.msgID
                                then Heard(s, e.now).(ike := s.ike.(priorDelete := None)) else Heard(s, e.now), false)
  {}

  /** A CREATE_CHILD_SA response that answers no rekey of ours under the current SA, and any
      response of another exchange, does nothing at all. */
  lemma Unawaited(w: World, s: State, e: Event)
    requires Sound(w) && e.Inbound? && e.response && (UnderCurrent(s, e) || UnderPrior(s, e))
    requires e.exchange != 37 && !(e.exchange == 36 && UnderCurrent(s, e) && Awaited(s, e) && s.win.pending.value.kind.Rekeys())
    ensures Step(w, s, e) == (Heard(s, e.now), false)
  {
    hide FinishChild, FinishIke;
  }

  /** Due again a jittered lifetime from now, or never without one. */
  ghost predicate Deadlined(w: World, lifetime: int, now: int, deadline: Option<int>) {
    if lifetime <= 0 then deadline.None? else exists n: nat :: deadline == Some(now + w.jitter(n))
  }

  /** One more request, an INFORMATIONAL deletion of one ESP SPI. */
  predicate ChildDeleted(w: World, s: State, t: State, now: int, spi: uint32) {
    && NewRequest(s, t) && !t.log.requests[|s.log.requests|].probe
    && var p := t.win.pending.value;
       && p.raw.exchange == 37 && p.kind == DeleteSa && !p.fast && p.next == now + w.base
       && |p.raw.inner| == 1 && p.raw.inner[0].Delete? && p.raw.inner[0].protocol == 3
       && |p.raw.inner[0].spis| == 1 && |p.raw.inner[0].spis[0]| == 4 && U32(p.raw.inner[0].spis[0]) == spi
  }

  /** The response to our Child rekey. Rejected, it only frees the window. Accepted, the SA
      it yields is live, nothing is queued any more, and the SA it replaces is deleted at the
      peer, unless that asked for the replacement by deleting it, or both have one SPI. */
  lemma ChildConcluded(w: World, s: State, e: Event)
    requires Sound(w) && e.Inbound? && e.response && e.exchange == 36 && UnderCurrent(s, e)
    requires Awaited(s, e) && s.win.pending.value.kind.ChildRekey?
    ensures var t := Step(w, s, e).0;
            var ctx := s.win.pending.value.kind.child;
            var done := CompleteChild(w.c, s.ike.cur.keys.skd, ctx, w.esp, e.inner);
            && t.ike == s.ike && t.win.fastDue == s.win.fastDue
            && match done
               case Err =>
                 && t.log.installs == s.log.installs && t.child == s.child
                 && t.win.pending.None? && t.win.messageID == s.win.messageID && t.log.requests == s.log.requests
                 && t.timers == s.timers.(lastInbound := e.now)
               case Ok(u) =>
                 && t.log.installs == s.log.installs + [u]
                 && t.child == s.child.(sa := Some(ChildSa(u.newInSPI, u.newOutSPI, u.suite)), reestablish := false, nextReestablish := None)
                 && (ctx.reestablish || ctx.oldInSPI == ctx.newInSPI ==> Deadlined(w, w.lifetime, e.now, t.timers.nextChild))
                 && if ctx.reestablish || ctx.oldInSPI == ctx.newInSPI || !w.encodes(s.pos + 1)
                    then t.win.pending.None? && t.win.messageID == s.win.messageID && t.log.requests == s.log.requests
                    else ChildDeleted(w, s, t, e.now, ctx.oldInSPI)
  {
    hide CompleteChild, Originate;
    var s0, ctx := Heard(s, e.now).(win := s.win.(pending := None)), s.win.pending.value.kind.child;
    var done := CompleteChild(w.c, s.ike.cur.keys.skd, ctx, w.esp, e.inner);
    if done.Ok? {
      var s1 := Install(s0, done.value);
      var s2 := s1.(child := s1.child.(reestablish := false, nextReestablish := None));
      OriginateBegins(w, s2, e.now, 37, [Delete(PROTOCOL_ESP, [Be32(ctx.oldInSPI)])], DeleteSa, false);
      if w.encodes(s2.pos) {
        DeletionRequest(w, s, s2, Step(w, s, e).0, e.now, ctx.oldInSPI);
      }
    }
  }

  lemma DeletionRequest(w: World, s: State, s2: State, t: State, now: int, spi: uint32)
    requires s2.ike == s.ike && s2.win.messageID == s.win.messageID && s2.log.requests == s.log.requests && w.encodes(s2.pos)
    ensures var o := Originate(w, s2, now, 37, [Delete(PROTOCOL_ESP, [Be32(spi)])], DeleteSa, false).0;
            t.win == o.win && t.log.requests == o.log.requests ==> ChildDeleted(w, s, t, now, spi)
  {
    U32OfBe32(spi);
  }

  // ----- cutting over -----

  /** The IKE SA with these keys is current, its requests numbered from 0 with none out and
      nothing answered yet; the one before it is kept for 30 seconds. */
  ghost predicate CutTo(w: World, s: State, t: State, keys: IkeKeys, now: int) {
    && t.ike.cur == IkeSa(s.ike.cur.id + 1, keys) && t.log.swaps == s.log.swaps + [t.ike.cur]
    && t.ike.prior == Some(s.ike.cur) && t.ike.priorUntil == now + 30_000_000_000
    && t.ike.peer == Fresh && t.win == Window(0, None, s.win.fastDue) && t.child == s.child
    && t.log.installs == s.log.installs && Deadlined(w, w.ikeLifetime, now, t.timers.nextIke)
  }

  /** The response to our IKE rekey. Rejected, it only frees the window. Accepted, we cut
      over, the old SA having been deleted under itself with its next Message ID. */
  lemma IkeConcluded(w: World, s: State, e: Event)
    requires Sound(w) && e.Inbound? && e.response && e.exchange == 36 && UnderCurrent(s, e)
    requires Awaited(s, e) && s.win.pending.value.kind.IkeRekey?
    ensures var t := Step(w, s, e).0;
            var done := CompleteIke(w.c, s.ike.cur.keys.skd, s.win.pending.value.kind.ike, w.ike, e.inner);
            match done
            case Err => t == Heard(s, e.now).(win := s.win.(pending := None))
            case Ok(keys) =>
              && CutTo(w, s, t, keys, e.now) && t.ike.priorPeer == s.ike.peer && t.ike.dhGroup == s.ike.dhGroup
              && if w.encodes(s.pos + 1) then
                   var d := Datagram(s.ike.cur.id, 37, s.ike.cur.keys.role == Initiator, false, s.win.messageID, [Delete(1, [])], s.pos + 1);
                   && t.ike.priorDelete == Some(Pending(DeleteSa, s.win.messageID, d, 1, e.now + w.base, false))
                   && |t.log.requests| == |s.log.requests| + 1 && t.log.requests[|s.log.requests|].d == d
                   && t.log.sent != [] && t.log.sent[|t.log.sent| - 1].d == d
                 else t.ike.priorDelete == s.ike.priorDelete && t.log.requests == s.log.requests
  {
    hide CompleteIke;
  }

  // ----- requests -----

  predicate AsksIkeRekey(inner: seq<Payload>) {
    exists i :: 0 <= i < |inner| && inner[i].SA? && inner[i].proposals != [] && inner[i].proposals[0].protocol == 1
  }

  /** One more answer on record and on the wire: to that request, under its SA. */
  predicate AnsweredWith(s: State, t: State, e: Event, inner: seq<Payload>)
    requires UnderCurrent(s, e) || UnderPrior(s, e)
  {
    var n := |s.log.answers|;
    && |t.log.answers| == n + 1 && t.log.answers[..n] == s.log.answers
    && t.log.sent != [] && t.log.sent[|t.log.sent| - 1].d == t.log.answers[n].resp
    && t.log.answers[n].sa == e.sa && t.log.answers[n].msgID == e.msgID
    && var d := t.log.answers[n].resp;
       && d.sa == e.sa && d.msgID == e.msgID && d.response && d.exchange == e.exchange && d.inner == inner
       && (d.fromInitiator <==> SaOf(s, e).keys.role == Initiator)
  }

  /** Neither SA, nor the window, nor what is installed changes. */
  predicate Unmoved(s: State, t: State) {
    && t.ike.cur == s.ike.cur && t.ike.prior == s.ike.prior && t.win == s.win && t.child == s.child
    && t.log.installs == s.log.installs && t.log.swaps == s.log.swaps && t.log.requests == s.log.requests
  }

  /** Equal but for what the history notes of the processing. */
  predicate SameDeed(h: State, t: State) {
    && t.ike == h.ike && t.win == h.win && t.child == h.child && t.timers == h.timers && t.pos == h.pos
    && t.log.sent == h.log.sent && t.log.requests == h.log.requests && t.log.installs == h.log.installs
    && t.log.swaps == h.log.swaps && t.log.answers == h.log.answers && t.log.triggers == h.log.triggers
  }

  lemma HeededStep(w: World, s: State, e: Event)
    requires Sound(w) && Heeded(s, e)
    ensures var s0, via := Heard(s, e.now), e.sa != s.ike.cur.id;
            SameDeed(if e.exchange == 36 then HandleCreate(w, s0, e.now, SaOf(s, e), via, e.msgID, e.inner)
                     else HandleInformational(w, s0, e.now, SaOf(s, e), via, e.msgID, e.inner),
                     Step(w, s, e).0)
  {
    hide HandleCreate, HandleInformational, Teardown, Named;
  }

  lemma ReplyAnswers(w: World, s: State, e: Event, inner: seq<Payload>)
    requires UnderCurrent(s, e) || UnderPrior(s, e)
    ensures var t := Reply(w, s, SaOf(s, e), e.sa != s.ike.cur.id, e.exchange, e.msgID, inner);
            Unmoved(s, t) && if w.encodes(s.pos) then AnsweredWith(s, t, e, inner) else t.log.answers == s.log.answers
  {}

  /** A rekey request while a rekey of ours is out, or for the IKE SA under the superseded
      one, is declined with TEMPORARY_FAILURE, 43; one for a Child SA we do not have with
      CHILD_SA_NOT_FOUND, 44. */
  lemma RekeyDeclined(w: World, s: State, e: Event)
    requires Sound(w) && Heeded(s, e) && e.exchange == 36
    ensures var t, busy := Step(w, s, e).0, s.win.pending.Some? && s.win.pending.value.kind.Rekeys();
            && (busy || (AsksIkeRekey(e.inner) && UnderPrior(s, e)) ==>
                  Unmoved(s, t) && if w.encodes(s.pos + 1) then AnsweredWith(s, t, e, [Notify(0, 43, [], [])]) else t.log.answers == s.log.answers)
            && (!busy && !AsksIkeRekey(e.inner) && s.child.sa.None? ==>
                  Unmoved(s, t) && if w.encodes(s.pos + 1) then AnsweredWith(s, t, e, [Notify(3, 44, [], [])]) else t.log.answers == s.log.answers)
  {
    hide Step, Reply, HandleIke, AnswerChild;
    HeededStep(w, s, e);
    var s0 := Heard(s, e.now);
    ReplyAnswers(w, s0, e, [TEMPORARY_FAILURE]);
    ReplyAnswers(w, s0, e, [Notice(PROTOCOL_ESP, NOTIFY_CHILD_SA_NOT_FOUND)]);
  }

  /** Which handler a rekey request that is not declined goes to. */
  lemma CreateIs(w: World, s: State, e: Event)
    requires Sound(w) && Heeded(s, e) && (s.win.pending.Some? ==> !s.win.pending.value.kind.Rekeys())
    ensures var s0, via := Heard(s, e.now), e.sa != s.ike.cur.id;
            && (!AsksIkeRekey(e.inner) ==> HandleCreate(w, s0, e.now, SaOf(s, e), via, e.msgID, e.inner)
                                           == HandleChild(w, s0, e.now, SaOf(s, e), via, e.msgID, e.inner))
            && (AsksIkeRekey(e.inner) && !via ==> HandleCreate(w, s0, e.now, SaOf(s, e), via, e.msgID, e.inner)
                                                  == HandleIke(w, s0, e.now, e.msgID, e.inner))
  {
    hide HandleChild, HandleIke;
  }

  /** Any other Child rekey request is answered by what its payloads yield: refused, nothing
      moves; accepted and encoded, the SA is live by the time the answer goes out, and a
      group the peer insisted on is the one we use from then on. */
  lemma ChildRekeyAnswered(w: World, s: State, e: Event)
    requires Sound(w) && Heeded(s, e) && e.exchange == 36 && !AsksIkeRekey(e.inner) && s.child.sa.Some?
    requires s.win.pending.Some? ==> !s.win.pending.value.kind.Rekeys()
    ensures var t := Step(w, s, e).0;
            var a := AnswerChild(w.c, SaOf(s, e).keys.skd, s.child.sa.value.inSPI, w.esp, w.v6, e.inner, w.privs(s.pos + 1), w.draws(s.pos + 1));
            if !w.encodes(s.pos + 1) then Unmoved(s, t) && t.log.answers == s.log.answers
            else match a
              case RefuseChild(notify) => Unmoved(s, t) && AnsweredWith(s, t, e, [notify])
              case AcceptChild(u, resp, pfs) =>
                && AnsweredWith(s, t, e, resp) && t.log.installs == s.log.installs + [u]
                && t.child == (if pfs.Some? then s.child.(pfs := true, pfsGroup := pfs.value) else s.child)
                              .(sa := Some(ChildSa(u.newInSPI, u.newOutSPI, u.suite)))
                && Deadlined(w, w.lifetime, e.now, t.timers.nextChild) && t.ike.cur == s.ike.cur && t.ike.prior == s.ike.prior && t.win == s.win && t.log.requests == s.log.requests
  {
    hide Step, Reply, HandleCreate, AnswerChild;
    HeededStep(w, s, e);
    CreateIs(w, s, e);
    var s0, sa := Heard(s, e.now), SaOf(s, e);
    match AnswerChild(w.c, sa.keys.skd, s.child.sa.value.inSPI, w.esp, w.v6, e.inner, w.privs(s.pos + 1), w.draws(s.pos + 1))
    case RefuseChild(notify) => ReplyAnswers(w, s0, e, [notify]);
    case AcceptChild(u, resp, pfs) =>
  }

  /** And an IKE rekey request under the current SA: accepted and encoded, the answer is on
      record under the old SA and we have cut over by the time it goes out; if it cannot be
      encoded the peer is told TEMPORARY_FAILURE, 43. */
  lemma IkeRekeyAnswered(w: World, s: State, e: Event)
    requires Sound(w) && Heeded(s, e) && e.exchange == 36 && AsksIkeRekey(e.inner) && UnderCurrent(s, e)
    requires s.win.pending.Some? ==> !s.win.pending.value.kind.Rekeys()
    ensures var t := Step(w, s, e).0;
            var a := AnswerIke(w.c, s.ike.cur.keys.skd, w.ike, e.inner, w.privs(s.pos + 1), w.draws(s.pos + 1));
            match a
            case RefuseIke(notify) =>
              Unmoved(s, t) && if w.encodes(s.pos + 1) then AnsweredWith(s, t, e, [notify]) else t.log.answers == s.log.answers
            case AcceptIke(keys, resp, group) =>
              if w.encodes(s.pos + 1) then
                && AnsweredWith(s, t, e, resp) && CutTo(w, s, t, keys, e.now) && t.ike.dhGroup == group
                && t.ike.priorPeer == Answered(e.msgID, t.log.answers[|s.log.answers|].resp)
                && t.ike.priorDelete == s.ike.priorDelete && t.log.requests == s.log.requests
              else
                Unmoved(s, t) && if w.encodes(s.pos + 2) then AnsweredWith(s, t, e, [Notify(0, 43, [], [])]) else t.log.answers == s.log.answers
  {
    hide Step, Reply, HandleCreate, AnswerIke;
    HeededStep(w, s, e);
    CreateIs(w, s, e);
    var s0 := Heard(s, e.now);
    match AnswerIke(w.c, s.ike.cur.keys.skd, w.ike, e.inner, w.privs(s.pos + 1), w.draws(s.pos + 1))
    case RefuseIke(notify) => ReplyAnswers(w, s0, e, [notify]);
    case AcceptIke(keys, resp, group) => ReplyAnswers(w, Bump(s0), e, [TEMPORARY_FAILURE]);
  }

  // ----- deletions -----

  /** The payload deletes the ESP SA: it is for ESP, its first SPI is 4 octets long, and one
      of its 4-octet SPIs is the SA's in either direction. */
  ghost predicate Deletes(p: Payload, sa: ChildSa) {
    && p.Delete? && p.protocol == 3 && p.spis != [] && |p.spis[0]| % 256 == 4
    && exists i :: 0 <= i < |p.spis| && |p.spis[i]| == 4 && U32(p.spis[i]) in {sa.inSPI, sa.outSPI}
  }

  lemma NamesMeans(p: Payload, sa: Option<ChildSa>)
    ensures Names(p, sa) <==> sa.Some? && Deletes(p, sa.value)
  {
    if sa.Some? && p.Delete? {
      assert forall i :: 0 <= i < |p.spis| ==> (Refs(p.spis[i], sa.value) <==> |p.spis[i]| == 4 && U32(p.spis[i]) in {sa.value.inSPI, sa.value.outSPI});
    }
  }

  lemma {:induction false} NamedMeans(inner: seq<Payload>, sa: Option<ChildSa>)
    ensures Named(inner, sa) > 0 <==> sa.Some? && exists i :: 0 <= i < |inner| && Deletes(inner[i], sa.value)
    decreases inner
  {
    hide Names, Deletes;
    if inner != [] {
      var n := |inner| - 1;
      NamedMeans(inner[..n], sa);
      NamesMeans(inner[n], sa);
      assert forall i :: 0 <= i < n ==> inner[..n][i] == inner[i];
    }
  }

  /** A processed INFORMATIONAL request is acknowledged with an empty answer, and it triggers
      a re-establishment exactly when a payload deletes the live Child SA. */
  lemma InformationalAnswered(w: World, s: State, e: Event)
    requires Sound(w) && Heeded(s, e) && e.exchange == 37
    ensures var t := Step(w, s, e).0;
            && (t.log.triggers > s.log.triggers <==>
                  s.child.sa.Some? && exists i :: 0 <= i < |e.inner| && Deletes(e.inner[i], s.child.sa.value))
            && (|t.log.answers| > |s.log.answers| ==> AnsweredWith(s, t, e, []))
            && t.ike.cur == s.ike.cur && t.ike.prior == s.ike.prior && t.child.sa == s.child.sa
            && t.log.installs == s.log.installs && t.log.swaps == s.log.swaps
  {
    hide Step, Reply, HandleDeletes, Named, Deletes;
    HeededStep(w, s, e);
    var s0 := Heard(s, e.now);
    NamedMeans(e.inner, s.child.sa);
    HandleDeletesTrigger(w, s0, e.now, e.inner);
    var s1 := HandleDeletes(w, s0, e.now, e.inner);
    assert SaOf(s1, e) == SaOf(s, e);
    ReplyAnswers(w, s1, e, []);
    ReplyTriggers(w, s1, e);
  }

  lemma ReplyTriggers(w: World, s: State, e: Event)
    requires UnderCurrent(s, e) || UnderPrior(s, e)
    ensures Reply(w, s, SaOf(s, e), e.sa != s.ike.cur.id, e.exchange, e.msgID, []).log.triggers == s.log.triggers
  {}

  /** One deletion of the live Child SA, with everything working: with the window free its
      replacement is asked for at once, else it is queued behind what is out. */
  lemma DeletionHeeded(w: World, s: State, e: Event)
    requires Sound(w) && Heeded(s, e) && e.exchange == 37 && |e.inner| == 1 && s.child.sa.Some? && Deletes(e.inner[0], s.child.sa.value)
    ensures var t := Step(w, s, e).0;
            && (s.win.pending.Some? ==> t.win == s.win && t.child == s.child.(reestablish := true) && t.log.requests == s.log.requests)
            && (s.win.pending.None? ==> ChildBegun(w, s, t, e.now, true) || (t.win == s.win && t.child.reestablish))
            && (s.win.pending.None? && Works(w) ==> ChildBegun(w, s, t, e.now, true))
  {
    hide Step, Reply, InitiateChild, Deletes, Names, ChildBegun, Works;
    HeededStep(w, s, e);
    var s0, p := Heard(s, e.now), e.inner[0];
    assert e.inner[..0] == [] && HandleDeletes(w, s0, e.now, []) == s0;
    var s1 := HandleDelete(w, s0, e.now, p);
    assert HandleDeletes(w, s0, e.now, e.inner) == s1;
    NamesMeans(p, s.child.sa);
    NamedIsHeeded(p, s0);
    var s2 := s0.(log := s0.log.(need := true, lost := false, triggers := s0.log.triggers + 1));
    ChildBegins(w, s2, e.now, true);
    ReplyMoves(w, s1, SaOf(s, e), e.sa != s.ike.cur.id, e.msgID);
    if s.win.pending.None? {
      Carried(w, s, s2, InitiateChild(w, s2, e.now, true).0, Step(w, s, e).0, e.now);
    }
  }

  lemma NamedIsHeeded(p: Payload, s: State)
    requires Names(p, s.child.sa)
    ensures p.Delete? && p.protocol == PROTOCOL_ESP && s.child.sa.Some? && BodyCodec.SpiSize(p.spis) == 4 && RefsChild(p.spis, s.child.sa.value)
  {}

  lemma ReplyMoves(w: World, s: State, sa: IkeSa, via: bool, msgID: uint32)
    ensures var t := Reply(w, s, sa, via, EXCHANGE_INFORMATIONAL, msgID, []); t.win == s.win && t.child == s.child && t.log.requests == s.log.requests && t.pos > s.pos
  {}

  lemma Carried(w: World, s: State, s2: State, a: State, t: State, now: int)
    requires s2.ike == s.ike && s2.child == s.child && s2.win == s.win && s2.log.requests == s.log.requests && s.pos <= s2.pos
    requires t.win == a.win && t.log.requests == a.log.requests && a.pos <= t.pos
    ensures ChildBegun(w, s2, a, now, true) ==> ChildBegun(w, s, t, now, true)
    ensures Unasked(s2, a) && a.win.fastDue == s2.win.fastDue ==> t.win == s.win
  {
    hide AsksForChild;
  }
}
