/** The session object: the driver's methods as the program runs them, each updating the
    fields in place and proved to be the transition function of module Driver. */
module Session {
  import opened Bytes
  import opened IkeMsg
  import opened KeySchedule
  import opened Suites
  import opened Rekey
  import opened Backoff
  import opened Driver
  import opened DriverInv
  import opened DriverSteps
  import BodyCodec

  class Session {
    const w: World

    /** The IKE SAs and answer caches, the request window, the Child SA, the timers. */
    var ike: Ike
    var win: Window
    var child: Child
    var timers: Timers

    /** The position of the outside world, and the history. */
    var pos: nat
    ghost var log: Log

    ghost function Abs(): State
      reads this
    {
      State(ike, win, child, timers, log, pos)
    }

    /** The session as the handshake hands it to the driver. */
    constructor (w: World, sa: IkeSa, group: uint16, nextID: uint32, child: Option<ChildSa>, pfs: bool, now: int)
      requires Sound(w)
      ensures this.w == w && Abs() == Started(w, sa, group, nextID, child, pfs, now) && Start(Abs())
      ensures ike.cur == sa && ike.dhGroup == group && ike.prior.None? && win.messageID == nextID && win.pending.None?
      ensures this.child.sa == child && this.child.pfs == pfs && this.child.pfsGroup == 0 && !this.child.reestablish
      ensures timers.lastInbound == now && timers.lastTick == Some(now) && timers.nextVolume.None?
      ensures (timers.nextChild.Some? <==> w.lifetime > 0) && (timers.nextIke.Some? <==> w.ikeLifetime > 0)
    {
      this.w := w;
      ike := Ike(sa, None, 0, Fresh, Fresh, None, group);
      win := Window(nextID, None, false);
      this.child := Child(child, false, None, pfs, 0);
      timers := Timers(now, Some(now), Deadline(w, w.lifetime, now, 0), Deadline(w, w.ikeLifetime, now, 0), None);
      pos := 0;
      log := NewLog(sa);
    }

    // ----- sending -----

    method SendDatagram(d: Datagram) returns (ok: bool)
      modifies this`log, this`pos
      ensures Abs() == Transmit(old(Abs()), d) && ok == w.sends(old(pos))
    {
      ok := w.sends(pos);
      log := log.(sent := log.sent + [Send(d, |log.installs|, |log.swaps|)]);
      pos := pos + 1;
    }

    method EncodeSK(sa: IkeSa, exchange: byte, response: bool, msgID: uint32, inner: seq<Payload>) returns (raw: Option<Datagram>)
      modifies this`pos
      ensures Abs() == Bump(old(Abs()))
      ensures raw == if w.encodes(old(pos)) then Some(Sealed(old(Abs()), sa, exchange, response, msgID, inner)) else None
    {
      raw := None;
      if w.encodes(pos) {
        raw := Some(Datagram(sa.id, exchange, sa.keys.role == Initiator, response, msgID, inner, pos));
      }
      pos := pos + 1;
    }

    /** The common tail of every initiation: encode, advance the Message ID, take the
        window, send. */
    method StartExchange(now: int, exchange: byte, inner: seq<Payload>, kind: Kind, fast: bool) returns (ok: bool)
      modifies this`log, this`pos, this`win
      ensures (Abs(), ok) == Originate(w, old(Abs()), now, exchange, inner, kind, fast)
    {
      ghost var s := Abs();
      var msgID := win.messageID;
      var raw := EncodeSK(ike.cur, exchange, false, msgID, inner);
      if raw.None? {
        return false;
      }
      log := log.(requests := log.requests + [Request(raw.value, !Outstanding(s, raw.value.sa), fast)]);
      var p := Pending(kind, msgID, raw.value, 1, now + if fast then FAST_BASE else w.base, fast);
      win := win.(messageID := Next(msgID), pending := Some(p));
      ok := SendDatagram(raw.value);
    }

    method InitiateDPD(now: int, fast: bool) returns (ok: bool)
      modifies this`log, this`pos, this`win
      ensures (Abs(), ok) == InitiateDpd(w, old(Abs()), now, fast)
    {
      ok := StartExchange(now, EXCHANGE_INFORMATIONAL, [], Dpd, fast);
    }

    method ChildRekeyGroup() returns (group: uint16)
      ensures group == PfsGroup(Abs())
    {
      if child.pfsGroup != 0 {
        return child.pfsGroup;
      }
      if ike.dhGroup != 0 {
        return ike.dhGroup;
      }
      return DH_X25519;
    }

    method InitiateChildRekey(now: int, reestablish: bool) returns (ok: bool)
      modifies this`log, this`pos, this`win
      ensures (Abs(), ok) == InitiateChild(w, old(Abs()), now, reestablish)
    {
      var draw, priv := w.draws(pos), w.privs(pos);
      pos := pos + 1;
      if child.sa.None? || draw.None? {
        return false;
      }
      var dh := None;
      if child.pfs {
        if priv.None? {
          return false;
        }
        var group := ChildRekeyGroup();
        dh := Some(Dh(group, priv.value));
      }
      var ctx := ChildCtx(draw.value.spi4, child.sa.value.inSPI, draw.value.nonce, reestablish, dh);
      var inner := [];
      if !reestablish {
        inner := inner + [Notify(PROTOCOL_ESP, NOTIFY_REKEY_SA, Be32(child.sa.value.inSPI), [])];
      }
      inner := inner + [SA(BuildProposals(Be32(draw.value.spi4), w.esp, GroupList(dh)))];
      inner := inner + [Nonce(draw.value.nonce)];
      if dh.Some? {
        inner := inner + [KE(dh.value.group, w.c.dhPublic(dh.value.group, dh.value.priv))];
      }
      inner := inner + Selectors(w.v6);
      assert inner == ChildRequest(w.c, ctx, w.esp, w.v6) by {
        hide BuildProposals, FullRange, Be32;
      }
      hide ChildRequest;
      ok := StartExchange(now, EXCHANGE_CREATE_CHILD_SA, inner, ChildRekey(ctx), false);
    }

    method InitiateIKERekey(now: int) returns (ok: bool)
      modifies this`log, this`pos, this`win
      ensures (Abs(), ok) == InitiateIke(w, old(Abs()), now)
    {
      hide BuildProposals;
      var draw, priv := w.draws(pos), w.privs(pos);
      pos := pos + 1;
      if draw.None? || priv.None? {
        return false;
      }
      var dh := Dh(ike.dhGroup, priv.value);
      var inner := [SA(BuildProposals(Be64(draw.value.spi8), w.ike, [dh.group])), Nonce(draw.value.nonce),
                    KE(dh.group, w.c.dhPublic(dh.group, dh.priv))];
      var ctx := IkeCtx(draw.value.spi8, draw.value.nonce, dh);
      assert inner == IkeRequest(w.c, ctx, w.ike);
      ok := StartExchange(now, EXCHANGE_CREATE_CHILD_SA, inner, IkeRekey(ctx), false);
    }

    // ----- responder cache -----

    method RecordPeerResponse(via: bool, msgID: uint32, raw: Datagram)
      modifies this`ike, this`log
      ensures Abs() == Record(old(Abs()), via, msgID, raw)
    {
      if via {
        ike := ike.(priorPeer := Answered(msgID, raw));
      } else {
        ike := ike.(peer := Answered(msgID, raw));
      }
      log := log.(answers := log.answers + [Answer(raw.sa, msgID, raw)]);
    }

    method DedupPeerRequest(msgID: uint32, via: bool) returns (duplicate: bool)
      modifies this`log, this`pos
      ensures duplicate == Duplicate(Slot(old(Abs()), via), msgID)
      ensures Abs() == if duplicate then Resend(old(Abs()), Slot(old(Abs()), via), msgID) else old(Abs())
    {
      var dd := if via then ike.priorPeer else ike.peer;
      if dd.Answered? && msgID <= dd.msgID {
        if msgID == dd.msgID {
          var _ := SendDatagram(dd.resp);
        }
        return true;
      }
      return false;
    }

    /** An encoded answer is cached before it is sent. */
    method SendResponse(sa: IkeSa, via: bool, exchange: byte, msgID: uint32, inner: seq<Payload>)
      modifies this`log, this`pos, this`ike
      ensures Abs() == Reply(w, old(Abs()), sa, via, exchange, msgID, inner)
    {
      var raw := EncodeSK(sa, exchange, true, msgID, inner);
      if raw.Some? {
        RecordPeerResponse(via, msgID, raw.value);
        var _ := SendDatagram(raw.value);
      }
    }

    // ----- installing -----

    method InstallChild(u: ChildUpdate)
      modifies this`child, this`log
      ensures Abs() == Install(old(Abs()), u)
    {
      log := log.(installs := log.installs + [u], need := false);
      child := child.(sa := Some(ChildSa(u.newInSPI, u.newOutSPI, u.suite)));
    }

    method SwapIKE(now: int, keys: IkeKeys)
      modifies this`ike, this`win, this`timers, this`log
      ensures Abs() == SwapIke(w, old(Abs()), now, keys)
    {
      var sa := IkeSa(ike.cur.id + 1, keys);
      ike := ike.(prior := Some(ike.cur), priorUntil := now + GRACE, priorPeer := ike.peer, peer := Fresh, cur := sa);
      win := win.(messageID := 0, pending := None);
      timers := timers.(nextIke := Deadline(w, w.ikeLifetime, now, pos));
      log := log.(swaps := log.swaps + [sa]);
    }

    // ----- completing our own rekeys -----

    method CompleteChildRekey(now: int, ctx: ChildCtx, inner: seq<Payload>) returns (ok: bool)
      requires Sound(w)
      modifies this`log, this`pos, this`win, this`child
      ensures (Abs(), ok) == FinishChild(w, old(Abs()), now, ctx, inner)
    {
      hide CompleteChild, Originate;
      var done := ConcludeChild(w.c, ike.cur.keys.skd, ctx, w.esp, inner);
      match done
      case Err =>
        if ctx.reestablish && !child.reestablish {
          log := log.(lost := true);
        }
        ok := false;
      case Ok(u) =>
        InstallChild(u);
        child := child.(reestablish := false, nextReestablish := None);
        if ctx.reestablish || ctx.oldInSPI == ctx.newInSPI {
          return true;
        }
        ok := StartExchange(now, EXCHANGE_INFORMATIONAL, [Delete(PROTOCOL_ESP, [Be32(ctx.oldInSPI)])], DeleteSa, false);
    }

    method SendIKEDeleteUnderCurrent(now: int)
      modifies this`log, this`pos, this`win, this`ike
      ensures Abs() == DeleteOldIke(w, old(Abs()), now)
    {
      ghost var s := Abs();
      var msgID := win.messageID;
      var raw := EncodeSK(ike.cur, EXCHANGE_INFORMATIONAL, false, msgID, [Delete(PROTOCOL_IKE, [])]);
      if raw.Some? {
        log := log.(requests := log.requests + [Request(raw.value, !Outstanding(s, raw.value.sa), false)]);
        win := win.(messageID := Next(msgID));
        ike := ike.(priorDelete := Some(Pending(DeleteSa, msgID, raw.value, 1, now + w.base, false)));
        var _ := SendDatagram(raw.value);
      }
    }

    method CompleteIKERekey(now: int, ctx: IkeCtx, inner: seq<Payload>)
      requires Sound(w)
      modifies this
      ensures Abs() == FinishIke(w, old(Abs()), now, ctx, inner)
    {
      hide CompleteIke, DeleteOldIke, SwapIke;
      var done := ConcludeIke(w.c, ike.cur.keys.skd, ctx, w.ike, inner);
      match done
      case Err =>
      case Ok(keys) =>
        SendIKEDeleteUnderCurrent(now);
        SwapIKE(now, keys);
    }

    method CompleteMatchingRekey(now: int, msgID: uint32, inner: seq<Payload>, via: bool)
      requires Sound(w)
      modifies this
      ensures Abs() == CompleteMatching(w, old(Abs()), now, msgID, inner, via)
    {
      hide FinishChild, FinishIke;
      if via {
        return;
      }
      if win.pending.None? || win.pending.value.msgID != msgID {
        return;
      }
      var kind := win.pending.value.kind;
      if !kind.Rekeys() {
        return;
      }
      win := win.(pending := None);
      match kind
      case ChildRekey(ctx) =>
        ghost var s := Abs();
        var ok := CompleteChildRekey(now, ctx, inner);
        log := Driver.Concluded(s, (Abs(), ok), msgID, ctx, inner).0.log;
        if ok {
          timers := timers.(nextChild := Deadline(w, w.lifetime, now, pos));
        }
      case IkeRekey(ctx) =>
        ghost var s := Abs();
        CompleteIKERekey(now, ctx, inner);
        log := ConcludedIke(s, Abs(), msgID, ctx, inner).log;
    }

    // ----- answering the peer's rekeys -----

    method HandleChildRekeyRequest(now: int, sa: IkeSa, via: bool, msgID: uint32, inner: seq<Payload>)
      requires Sound(w)
      modifies this
      ensures Abs() == HandleChild(w, old(Abs()), now, sa, via, msgID, inner)
    {
      hide AnswerChild;
      if child.sa.None? {
        SendResponse(sa, via, EXCHANGE_CREATE_CHILD_SA, msgID, [Notice(PROTOCOL_ESP, NOTIFY_CHILD_SA_NOT_FOUND)]);
        return;
      }
      var answer := DecideChild(w.c, sa.keys.skd, child.sa.value.inSPI, w.esp, w.v6, inner, w.privs(pos), w.draws(pos));
      match answer
      case RefuseChild(notify) =>
        SendResponse(sa, via, EXCHANGE_CREATE_CHILD_SA, msgID, [notify]);
      case AcceptChild(u, resp, pfs) =>
        var raw := EncodeSK(sa, EXCHANGE_CREATE_CHILD_SA, true, msgID, resp);
        if raw.None? {
          return;
        }
        if pfs.Some? {
          child := child.(pfs := true, pfsGroup := pfs.value);
        }
        InstallChild(u);
        timers := timers.(nextChild := Deadline(w, w.lifetime, now, pos));
        RecordPeerResponse(via, msgID, raw.value);
        var _ := SendDatagram(raw.value);
    }

    method HandleIKERekeyRequest(now: int, msgID: uint32, inner: seq<Payload>)
      requires Sound(w)
      modifies this
      ensures Abs() == HandleIke(w, old(Abs()), now, msgID, inner)
    {
      hide AnswerIke;
      var sa := ike.cur;
      var answer := DecideIke(w.c, sa.keys.skd, w.ike, inner, w.privs(pos), w.draws(pos));
      match answer
      case RefuseIke(notify) =>
        SendResponse(sa, false, EXCHANGE_CREATE_CHILD_SA, msgID, [notify]);
      case AcceptIke(keys, resp, group) =>
        var raw := EncodeSK(sa, EXCHANGE_CREATE_CHILD_SA, true, msgID, resp);
        if raw.None? {
          SendResponse(sa, false, EXCHANGE_CREATE_CHILD_SA, msgID, [TEMPORARY_FAILURE]);
          return;
        }
        RecordPeerResponse(false, msgID, raw.value);
        SwapIKE(now, keys);
        ike := ike.(dhGroup := group);
        var _ := SendDatagram(raw.value);
    }

    // ----- INFORMATIONAL -----

    static method DeleteRefsChild(spis: seq<Bytes>, child: ChildSa) returns (found: bool)
      ensures found == RefsChild(spis, child)
    {
      for i := 0 to |spis|
        invariant forall j :: 0 <= j < i ==> !Refs(spis[j], child)
      {
        if |spis[i]| != 4 {
          continue;
        }
        var spi := U32(spis[i]);
        if spi == child.outSPI || spi == child.inSPI {
          return true;
        }
      }
      return false;
    }

    method HandleInboundChildDelete(now: int, spis: seq<Bytes>)
      modifies this
      ensures Abs() == HandleChildDelete(w, old(Abs()), now, spis)
    {
      hide InitiateChild, RefsChild;
      if child.sa.None? || BodyCodec.SpiSize(spis) != 4 {
        return;
      }
      var refs := DeleteRefsChild(spis, child.sa.value);
      if !refs {
        return;
      }
      log := log.(need := true, lost := false, triggers := log.triggers + 1);
      if win.pending.None? {
        var ok := InitiateChildRekey(now, true);
        if !ok {
          child := child.(reestablish := true);
        } else {
          child := child.(reestablish := false, nextReestablish := None);
        }
      } else {
        child := child.(reestablish := true);
      }
    }

    method HandleInformationalRequest(now: int, sa: IkeSa, via: bool, msgID: uint32, inner: seq<Payload>) returns (teardown: bool)
      modifies this
      ensures Abs() == HandleInformational(w, old(Abs()), now, sa, via, msgID, inner)
      ensures teardown == Teardown(inner, via)
    {
      hide HandleChildDelete, Reply;
      teardown := false;
      for i := 0 to |inner|
        invariant Abs() == HandleDeletes(w, old(Abs()), now, inner[..i])
        invariant teardown == Teardown(inner[..i], via)
      {
        assert inner[..i + 1][..i] == inner[..i] && inner[..i + 1][i] == inner[i];
        if inner[i].Delete? {
          if inner[i].protocol == PROTOCOL_IKE {
            if !via {
              teardown := true;
            }
          } else if inner[i].protocol == PROTOCOL_ESP {
            HandleInboundChildDelete(now, inner[i].spis);
          }
        }
      }
      assert inner[..|inner|] == inner;
      SendResponse(sa, via, EXCHANGE_INFORMATIONAL, msgID, []);
    }

    method ClearPendingExchange(msgID: uint32)
      modifies this`win
      ensures Abs() == ClearPending(old(Abs()), msgID)
    {
      if win.pending.Some? && win.pending.value.msgID == msgID {
        var kind := win.pending.value.kind;
        if kind == Dpd || kind == DeleteSa {
          win := win.(pending := None);
        }
      }
    }

    method ClearOldIKEDelete(msgID: uint32)
      modifies this`ike
      ensures Abs() == ClearOldDelete(old(Abs()), msgID)
    {
      if ike.priorDelete.Some? && ike.priorDelete.value.msgID == msgID {
        ike := ike.(priorDelete := None);
      }
    }

    // ----- one inbound datagram -----

    method HandlePeerRequest(now: int, sa: IkeSa, via: bool, exchange: byte, msgID: uint32, inner: seq<Payload>) returns (exit: bool)
      requires Sound(w)
      modifies this
      ensures (Abs(), exit) == HandleRequest(w, old(Abs()), now, sa, via, exchange, msgID, inner)
    {
      hide HandleChild, HandleIke, HandleInformational, Reply, IsIkeRekey, Teardown;
      ghost var s := Abs();
      exit := false;
      var duplicate := DedupPeerRequest(msgID, via);
      if duplicate {
        return;
      }
      if exchange == EXCHANGE_CREATE_CHILD_SA {
        var ikeRekey := RekeysIke(inner);
        if win.pending.Some? && win.pending.value.kind.Rekeys() {
          SendResponse(sa, via, EXCHANGE_CREATE_CHILD_SA, msgID, [TEMPORARY_FAILURE]);
        } else if ikeRekey && via {
          SendResponse(sa, via, EXCHANGE_CREATE_CHILD_SA, msgID, [TEMPORARY_FAILURE]);
        } else if ikeRekey {
          HandleIKERekeyRequest(now, msgID, inner);
        } else {
          HandleChildRekeyRequest(now, sa, via, msgID, inner);
        }
      } else {
        exit := HandleInformationalRequest(now, sa, via, msgID, inner);
      }
      log := Note(s, Abs(), sa, exchange, msgID, inner).log;
      if exit {
        log := log.(deaths := log.deaths + 1);
      }
    }

    method HandleDatagram(now: int, id: nat, exchange: byte, response: bool, msgID: uint32, inner: seq<Payload>) returns (exit: bool)
      requires Sound(w)
      modifies this
      ensures (Abs(), exit) == HandleInbound(w, old(Abs()), now, id, exchange, response, msgID, inner)
    {
      hide HandleRequest, CompleteMatching;
      exit := false;
      var sa, via := ike.cur, false;
      if id != sa.id {
        if ike.prior.None? || ike.prior.value.id != id || now >= ike.priorUntil {
          return;
        }
        sa, via := ike.prior.value, true;
      }
      timers := timers.(lastInbound := now);
      if exchange == EXCHANGE_INFORMATIONAL && response {
        if via {
          ClearOldIKEDelete(msgID);
        } else {
          ClearPendingExchange(msgID);
        }
      } else if exchange == EXCHANGE_CREATE_CHILD_SA && response {
        CompleteMatchingRekey(now, msgID, inner, via);
      } else if exchange == EXCHANGE_INFORMATIONAL || exchange == EXCHANGE_CREATE_CHILD_SA {
        exit := HandlePeerRequest(now, sa, via, exchange, msgID, inner);
      }
    }

    // ----- one tick -----

    method DetectSuspendWake(now: int, wall: int)
      modifies this
      ensures Abs() == DetectSuspend(w, old(Abs()), now, wall)
    {
      var prev := timers.lastTick;
      timers := timers.(lastTick := Some(wall));
      if prev.None? || wall - prev.value <= SUSPEND_THRESHOLD {
        return;
      }
      if win.pending.None? {
        var _ := InitiateDPD(now, true);
      } else {
        var p := win.pending.value;
        win := win.(pending := Some(p.(fast := true, next := now)));
        if p.kind != Dpd {
          win := win.(fastDue := true);
        }
        log := log.(hurried := log.hurried + {p.raw.serial});
      }
    }

    method RetransmitOldDelete(now: int)
      requires Sound(w)
      modifies this
      ensures Abs() == RetryOldDelete(w, old(Abs()), now)
    {
      if ike.priorDelete.None? {
        return;
      }
      var p := ike.priorDelete.value;
      if ike.prior.None? {
        ike := ike.(priorDelete := None);
      } else if now > p.next {
        p := p.(attempts := p.attempts + 1);
        if p.attempts > w.tries {
          ike := ike.(priorDelete := None);
        } else {
          var delay := RetransBackoff(w.base, w.cap, p.attempts);
          ike := ike.(priorDelete := Some(p.(next := now + delay)));
          var _ := SendDatagram(p.raw);
        }
      }
    }

    method RetransmitPending(now: int) returns (exit: bool)
      requires Sound(w) && win.pending.Some?
      modifies this
      ensures (Abs(), exit) == RetryPending(w, old(Abs()), now)
    {
      exit := false;
      var p := win.pending.value;
      if now <= p.next {
        return;
      }
      p := p.(attempts := p.attempts + 1);
      if p.attempts > (if p.fast then FAST_TRIES else w.tries) {
        win := win.(pending := None);
        if p.kind == Dpd {
          log := log.(deaths := log.deaths + 1);
          return true;
        }
        if p.kind.Reestablishes() {
          child := child.(reestablish := true, nextReestablish := Some(now + RETRY));
        }
      } else {
        var delay := FAST_BASE;
        if !p.fast {
          delay := RetransBackoff(w.base, w.cap, p.attempts);
        }
        win := win.(pending := Some(p.(next := now + delay)));
        var _ := SendDatagram(p.raw);
      }
    }

    method StartNext(now: int, volume: uint32, lastData: Option<int>)
      modifies this
      ensures Abs() == Begin(w, old(Abs()), now, volume, lastData)
    {
      hide InitiateDpd, InitiateChild, InitiateIke;
      if win.fastDue {
        win := win.(fastDue := false);
        var _ := InitiateDPD(now, true);
        return;
      }
      if child.reestablish && Past(child.nextReestablish, now) {
        var ok := InitiateChildRekey(now, true);
        if !ok {
          child := child.(nextReestablish := Some(now + RETRY));
        } else {
          child := child.(reestablish := false, nextReestablish := None);
        }
        return;
      }
      if !child.reestablish && Past(timers.nextVolume, now) && volume >= w.maxPackets {
        timers := timers.(nextVolume := Some(now + RETRY));
        var _ := InitiateChildRekey(now, false);
        return;
      }
      if w.lifetime > 0 {
        if Due(timers.nextIke, now) {
          timers := timers.(nextIke := Some(now + RETRY));
          var _ := InitiateIKERekey(now);
          return;
        }
        if !child.reestablish && Due(timers.nextChild, now) {
          timers := timers.(nextChild := Some(now + RETRY));
          var _ := InitiateChildRekey(now, false);
          return;
        }
      }
      var idle := now - timers.lastInbound;
      if lastData.Some? {
        var d := now - lastData.value;
        if d < idle {
          idle := d;
        }
      }
      if idle > w.dpdInterval {
        var _ := InitiateDPD(now, false);
      }
    }

    method HandleTick(now: int, wall: int, volume: uint32, lastData: Option<int>) returns (exit: bool)
      requires Sound(w)
      modifies this
      ensures (Abs(), exit) == Housekeeping(w, old(Abs()), now, wall, volume, lastData)
    {
      hide DetectSuspend, RetryOldDelete, RetryPending, Begin;
      exit := false;
      DetectSuspendWake(now, wall);
      if ike.prior.Some? && now > ike.priorUntil {
        ike := ike.(prior := None, priorPeer := Fresh, priorDelete := None);
      }
      RetransmitOldDelete(now);
      if win.pending.Some? {
        exit := RetransmitPending(now);
        return;
      }
      StartNext(now, volume, lastData);
    }

    // ----- the loop -----

    /** Serves events until one of them ends the session. Every invariant of the run
        holds when it returns. */
    method Drive(events: seq<Event>, ghost first: uint32) returns (exit: bool)
      requires Sound(w) && Inv(w, first, Abs())
      modifies this
      ensures (Abs(), exit) == Run(w, old(Abs()), events) && Inv(w, first, Abs())
    {
      hide Inv, Step;
      exit := false;
      ghost var s := Abs();
      var i := 0;
      while i < |events| && !exit
        invariant i <= |events| && (Abs(), exit) == Run(w, s, events[..i])
      {
        assert events[..i + 1][..i] == events[..i];
        var e := events[i];
        exit := Serve(e);
        i := i + 1;
      }
      if exit {
        RunStopped(w, s, events, i);
      }
      assert events[..|events|] == events;
      RunKeeps(w, first, s, events);
    }

    method Serve(e: Event) returns (exit: bool)
      requires Sound(w)
      modifies this
      ensures (Abs(), exit) == Step(w, old(Abs()), e)
    {
      hide HandleInbound, Housekeeping;
      pos := pos + 1;
      match e
      case Inbound(now, sa, exchange, response, msgID, inner) =>
        exit := HandleDatagram(now, sa, exchange, response, msgID, inner);
      case Tick(now, wall, volume, lastData) =>
        exit := HandleTick(now, wall, volume, lastData);
    }
  }

  /** Nothing is read after the driver stopped. */
  lemma {:induction false} RunStopped(w: World, s: State, es: seq<Event>, i: nat)
    requires Sound(w) && i <= |es| && Run(w, s, es[..i]).1
    ensures Run(w, s, es) == Run(w, s, es[..i])
    decreases |es| - i
  {
    hide Step;
    if i == |es| {
      assert es[..i] == es;
    } else {
      assert es[..i + 1][..i] == es[..i];
      RunStopped(w, s, es, i + 1);
    }
  }
}
