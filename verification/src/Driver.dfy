/** The post-handshake IKE driver as a transition function: what one inbound datagram or
    one housekeeping tick does to the session. Encoding, sending and the random source
    may fail at any point; the history of a run is part of the state. */
module Driver {
  import opened Bytes
  import opened Crypto
  import opened IkeMsg
  import opened KeySchedule
  import opened Suites
  import opened Rekey
  import opened Backoff
  import BodyCodec

  const SECOND := 1_000_000_000
  const GRACE := 30 * SECOND
  const RETRY := 60 * SECOND
  const SUSPEND_THRESHOLD := 5 * SECOND
  const FAST_BASE := SECOND
  const FAST_TRIES := 2

  // ----- state -----

  /** An IKE SA; ids number the SAs of a session in the order they became current and
      stand for the identity of the object. */
  datatype IkeSa = IkeSa(id: nat, keys: IkeKeys)

  /** A protected message: the SA it is sealed under, its header and its inner payloads.
      No two encodings have the same serial, as no two have the same initialization
      vector, so equal datagrams are equal octets. */
  datatype Datagram = Datagram(
    sa: nat, exchange: byte, fromInitiator: bool, response: bool, msgID: uint32, inner: seq<Payload>, serial: nat)

  datatype Kind = Dpd | ChildRekey(child: ChildCtx) | IkeRekey(ike: IkeCtx) | DeleteSa
  {
    predicate Rekeys() { ChildRekey? || IkeRekey? }
    predicate Reestablishes() { ChildRekey? && child.reestablish }
  }

  datatype Pending = Pending(kind: Kind, msgID: uint32, raw: Datagram, attempts: nat, next: int, fast: bool)

  /** The last answer given under one SA. */
  datatype Dedup = Fresh | Answered(msgID: uint32, resp: Datagram)

  datatype ChildSa = ChildSa(inSPI: uint32, outSPI: uint32, suite: Cipher)

  datatype Ike = Ike(
    cur: IkeSa, prior: Option<IkeSa>, priorUntil: int,
    peer: Dedup, priorPeer: Dedup, priorDelete: Option<Pending>, dhGroup: uint16)

  datatype Window = Window(messageID: uint32, pending: Option<Pending>, fastDue: bool)

  datatype Child = Child(
    sa: Option<ChildSa>, reestablish: bool, nextReestablish: Option<int>, pfs: bool, pfsGroup: uint16)

  /** An absent deadline is the zero time. */
  datatype Timers = Timers(
    lastInbound: int, lastTick: Option<int>, nextChild: Option<int>, nextIke: Option<int>, nextVolume: Option<int>)

  // ----- history -----

  /** A transmission, with how many Child SAs and IKE SAs had been put in use by then. */
  datatype Send = Send(d: Datagram, installs: nat, swaps: nat)

  /** A request we originated: whether no other request under its SA was outstanding at
      that moment, and whether it began as a fast probe. */
  datatype Request = Request(d: Datagram, alone: bool, probe: bool)

  /** A response put in the cache. */
  datatype Answer = Answer(sa: nat, msgID: uint32, resp: Datagram)

  /** A peer request that was processed: the SA that carried it, how many of its payloads
      delete the live Child SA, how often it installed, cut over and triggered a
      re-establishment, the Child SA it installed, the keys of the IKE SA it cut over to,
      and the answer put in the cache. */
  datatype Handled = Handled(
    sa: IkeSa, exchange: byte, msgID: uint32, inner: seq<Payload>,
    named: nat, installs: nat, swaps: nat, triggers: nat,
    update: Option<ChildUpdate>, cut: Option<IkeKeys>, resp: Option<Datagram>)

  /** A Child rekey of ours that completed: the SA and Message ID of its request, what it
      remembered, the response payloads, and the Child SA installed. */
  datatype Completion = Completion(sa: IkeSa, msgID: uint32, ctx: ChildCtx, inner: seq<Payload>, update: ChildUpdate)

  /** Likewise an IKE rekey of ours, with the keys cut over to. */
  datatype Cutover = Cutover(sa: IkeSa, msgID: uint32, ctx: IkeCtx, inner: seq<Payload>, keys: IkeKeys)

  /** root: the IKE SA of the handshake. swaps: the IKE SAs cut over to since. need: the
      live Child SA was deleted by the peer and not yet replaced. lost: since then a reply
      to a re-establishment was rejected with none queued. hurried: serials of exchanges a
      wake-up accelerated. */
  datatype Log = Log(
    sent: seq<Send>, requests: seq<Request>, installs: seq<ChildUpdate>, swaps: seq<IkeSa>,
    answers: seq<Answer>, handled: seq<Handled>, completed: seq<Completion>, rekeyed: seq<Cutover>,
    triggers: nat, need: bool, lost: bool, hurried: set<nat>, deaths: nat, root: IkeSa)

  datatype State = State(ike: Ike, win: Window, child: Child, timers: Timers, log: Log, pos: nat)

  // ----- environment -----

  /** Configuration with its defaults resolved, and the outcomes of everything outside
      the driver, indexed by the position in the run. */
  datatype World = World(
    c: Primitives, esp: seq<Suite>, ike: seq<Suite>, v6: bool,
    tries: nat, base: int, cap: int, dpdInterval: int, lifetime: int, ikeLifetime: int, maxPackets: uint32,
    encodes: nat -> bool, sends: nat -> bool, draws: nat -> Option<Draw>, privs: nat -> Option<Bytes>, jitter: nat -> int)

  ghost predicate Sound(w: World) {
    PrfLaw(w.c) && Rows(EspLayer, w.esp) && Rows(IkeLayer, w.ike) && w.tries >= 1 && w.base > 0 && w.cap > 0
    && w.maxPackets > 0 && forall n :: w.draws(n).Some? ==> |w.draws(n).value.nonce| == NONCE_LEN
  }

  /** What reaches the driver: an authenticated datagram under some SA, or a tick with
      the clocks and the data-plane counters. */
  datatype Event =
    | Inbound(now: int, sa: nat, exchange: byte, response: bool, msgID: uint32, inner: seq<Payload>)
    | Tick(now: int, wall: int, volume: uint32, lastData: Option<int>)

  function Deadline(w: World, lifetime: int, now: int, pos: nat): Option<int> {
    if lifetime <= 0 then None else Some(now + w.jitter(pos))
  }

  // ----- encoding and sending -----

  function Bump(s: State): State {
    s.(pos := s.pos + 1)
  }

  function Sealed(s: State, sa: IkeSa, exchange: byte, response: bool, msgID: uint32, inner: seq<Payload>): Datagram {
    Datagram(sa.id, exchange, sa.keys.role == Initiator, response, msgID, inner, s.pos)
  }

  /** A transmission that may or may not succeed. */
  function Transmit(s: State, d: Datagram): State {
    s.(log := s.log.(sent := s.log.sent + [Send(d, |s.log.installs|, |s.log.swaps|)]), pos := s.pos + 1)
  }

  function Next(id: uint32): uint32 {
    (id + 1) % 0x1_0000_0000
  }

  predicate Outstanding(s: State, sa: nat) {
    || (s.win.pending.Some? && s.win.pending.value.raw.sa == sa)
    || (s.ike.priorDelete.Some? && s.ike.priorDelete.value.raw.sa == sa)
  }

  function Requested(s: State, d: Datagram, probe: bool): State {
    s.(win := s.win.(messageID := Next(s.win.messageID)),
       log := s.log.(requests := s.log.requests + [Request(d, !Outstanding(s, d.sa), probe)]))
  }

  /** Takes the request window: encode, number, remember, send. The flag tells whether
      all of it succeeded. */
  function Originate(w: World, s: State, now: int, exchange: byte, inner: seq<Payload>, kind: Kind, fast: bool): (State, bool) {
    if !w.encodes(s.pos) then (Bump(s), false) else
    var raw := Sealed(s, s.ike.cur, exchange, false, s.win.messageID, inner);
    var p := Pending(kind, s.win.messageID, raw, 1, now + if fast then FAST_BASE else w.base, fast);
    var s1 := Requested(Bump(s), raw, fast);
    (Transmit(s1.(win := s1.win.(pending := Some(p))), raw), w.sends(s1.pos))
  }

  function InitiateDpd(w: World, s: State, now: int, fast: bool): (State, bool) {
    Originate(w, s, now, EXCHANGE_INFORMATIONAL, [], Dpd, fast)
  }

  function PfsGroup(s: State): uint16 {
    if s.child.pfsGroup != 0 then s.child.pfsGroup
    else if s.ike.dhGroup != 0 then s.ike.dhGroup
    else DH_X25519
  }

  function InitiateChild(w: World, s: State, now: int, reestablish: bool): (State, bool) {
    if s.child.sa.None? || w.draws(s.pos).None? || (s.child.pfs && w.privs(s.pos).None?) then (Bump(s), false) else
    var dh := if s.child.pfs then Some(Dh(PfsGroup(s), w.privs(s.pos).value)) else None;
    var draw := w.draws(s.pos).value;
    var ctx := ChildCtx(draw.spi4, s.child.sa.value.inSPI, draw.nonce, reestablish, dh);
    Originate(w, Bump(s), now, EXCHANGE_CREATE_CHILD_SA, ChildRequest(w.c, ctx, w.esp, w.v6), ChildRekey(ctx), false)
  }

  function InitiateIke(w: World, s: State, now: int): (State, bool) {
    if w.draws(s.pos).None? || w.privs(s.pos).None? then (Bump(s), false) else
    var draw := w.draws(s.pos).value;
    var ctx := IkeCtx(draw.spi8, draw.nonce, Dh(s.ike.dhGroup, w.privs(s.pos).value));
    Originate(w, Bump(s), now, EXCHANGE_CREATE_CHILD_SA, IkeRequest(w.c, ctx, w.ike), IkeRekey(ctx), false)
  }

  // ----- the responder cache -----

  function Slot(s: State, via: bool): Dedup {
    if via then s.ike.priorPeer else s.ike.peer
  }

  predicate Duplicate(dd: Dedup, msgID: uint32) {
    dd.Answered? && msgID <= dd.msgID
  }

  /** A duplicate of the last answered request gets the same answer; an older one none. */
  function Resend(s: State, dd: Dedup, msgID: uint32): State {
    if dd.Answered? && msgID == dd.msgID then Transmit(s, dd.resp) else s
  }

  function Record(s: State, via: bool, msgID: uint32, raw: Datagram): State {
    s.(ike := if via then s.ike.(priorPeer := Answered(msgID, raw)) else s.ike.(peer := Answered(msgID, raw)),
       log := s.log.(answers := s.log.answers + [Answer(raw.sa, msgID, raw)]))
  }

  function Reply(w: World, s: State, sa: IkeSa, via: bool, exchange: byte, msgID: uint32, inner: seq<Payload>): State {
    if !w.encodes(s.pos) then Bump(s) else
    var raw := Sealed(s, sa, exchange, true, msgID, inner);
    Transmit(Record(Bump(s), via, msgID, raw), raw)
  }

  // ----- installing -----

  function Install(s: State, u: ChildUpdate): State {
    s.(child := s.child.(sa := Some(ChildSa(u.newInSPI, u.newOutSPI, u.suite))),
       log := s.log.(installs := s.log.installs + [u], need := false))
  }

  /** swapIKE: the old SA moves to the grace slot together with its answer cache. */
  function SwapIke(w: World, s: State, now: int, keys: IkeKeys): State {
    var sa := IkeSa(s.ike.cur.id + 1, keys);
    s.(ike := Ike(sa, Some(s.ike.cur), now + GRACE, Fresh, s.ike.peer, s.ike.priorDelete, s.ike.dhGroup),
       win := Window(0, None, s.win.fastDue),
       timers := s.timers.(nextIke := Deadline(w, w.ikeLifetime, now, s.pos)),
       log := s.log.(swaps := s.log.swaps + [sa]))
  }

  // ----- completing our own rekeys -----

  function FinishChild(w: World, s: State, now: int, ctx: ChildCtx, inner: seq<Payload>): (State, bool)
    requires Sound(w)
  {
    match CompleteChild(w.c, s.ike.cur.keys.skd, ctx, w.esp, inner)
    case Err =>
      (if ctx.reestablish && !s.child.reestablish then s.(log := s.log.(lost := true)) else s, false)
    case Ok(u) =>
      var s1 := Install(s, u);
      var s2 := s1.(child := s1.child.(reestablish := false, nextReestablish := None));
      if ctx.reestablish || ctx.oldInSPI == ctx.newInSPI then (s2, true)
      else Originate(w, s2, now, EXCHANGE_INFORMATIONAL, [Delete(PROTOCOL_ESP, [Be32(ctx.oldInSPI)])], DeleteSa, false)
  }

  /** sendIKEDeleteUnderCurrent: originated under the SA about to be superseded, in its
      own slot. */
  function DeleteOldIke(w: World, s: State, now: int): State {
    if !w.encodes(s.pos) then Bump(s) else
    var raw := Sealed(s, s.ike.cur, EXCHANGE_INFORMATIONAL, false, s.win.messageID, [Delete(PROTOCOL_IKE, [])]);
    var p := Pending(DeleteSa, s.win.messageID, raw, 1, now + w.base, false);
    var s1 := Requested(Bump(s), raw, false);
    Transmit(s1.(ike := s1.ike.(priorDelete := Some(p))), raw)
  }

  function FinishIke(w: World, s: State, now: int, ctx: IkeCtx, inner: seq<Payload>): State
    requires Sound(w)
  {
    match CompleteIke(w.c, s.ike.cur.keys.skd, ctx, w.ike, inner)
    case Err => s
    case Ok(keys) => SwapIke(w, DeleteOldIke(w, s, now), now, keys)
  }

  /** Enters a completed Child rekey in the history. */
  function Concluded(before: State, after: (State, bool), msgID: uint32, ctx: ChildCtx, inner: seq<Payload>): (State, bool) {
    var n, log := |before.log.installs|, after.0.log;
    if |log.installs| > n then
      (after.0.(log := log.(completed := log.completed + [Completion(before.ike.cur, msgID, ctx, inner, log.installs[n])])), after.1)
    else after
  }

  /** Enters a completed IKE rekey in the history. */
  function ConcludedIke(before: State, after: State, msgID: uint32, ctx: IkeCtx, inner: seq<Payload>): State {
    var n, log := |before.log.swaps|, after.log;
    if |log.swaps| > n then
      after.(log := log.(rekeyed := log.rekeyed + [Cutover(before.ike.cur, msgID, ctx, inner, log.swaps[n].keys)]))
    else after
  }

  function CompleteMatching(w: World, s: State, now: int, msgID: uint32, inner: seq<Payload>, via: bool): State
    requires Sound(w)
  {
    if via || s.win.pending.None? || s.win.pending.value.msgID != msgID || !s.win.pending.value.kind.Rekeys() then s else
    var s0 := s.(win := s.win.(pending := None));
    match s.win.pending.value.kind
    case ChildRekey(ctx) =>
      var (s1, ok) := Concluded(s0, FinishChild(w, s0, now, ctx, inner), msgID, ctx, inner);
      if ok then s1.(timers := s1.timers.(nextChild := Deadline(w, w.lifetime, now, s1.pos))) else s1
    case IkeRekey(ctx) => ConcludedIke(s0, FinishIke(w, s0, now, ctx, inner), msgID, ctx, inner)
  }

  // ----- answering the peer's rekeys -----

  function HandleChild(w: World, s: State, now: int, sa: IkeSa, via: bool, msgID: uint32, inner: seq<Payload>): State
    requires Sound(w)
  {
    if s.child.sa.None? then
      Reply(w, s, sa, via, EXCHANGE_CREATE_CHILD_SA, msgID, [Notice(PROTOCOL_ESP, NOTIFY_CHILD_SA_NOT_FOUND)])
    else
      match AnswerChild(w.c, sa.keys.skd, s.child.sa.value.inSPI, w.esp, w.v6, inner, w.privs(s.pos), w.draws(s.pos))
      case RefuseChild(notify) => Reply(w, s, sa, via, EXCHANGE_CREATE_CHILD_SA, msgID, [notify])
      case AcceptChild(u, resp, pfs) =>
        if !w.encodes(s.pos) then Bump(s) else
        var raw := Sealed(s, sa, EXCHANGE_CREATE_CHILD_SA, true, msgID, resp);
        var s1 := Install(Bump(s), u);
        var s2 := if pfs.Some? then s1.(child := s1.child.(pfs := true, pfsGroup := pfs.value)) else s1;
        var s3 := s2.(timers := s2.timers.(nextChild := Deadline(w, w.lifetime, now, s2.pos)));
        Transmit(Record(s3, via, msgID, raw), raw)
  }

  function HandleIke(w: World, s: State, now: int, msgID: uint32, inner: seq<Payload>): State
    requires Sound(w)
  {
    var sa := s.ike.cur;
    match AnswerIke(w.c, sa.keys.skd, w.ike, inner, w.privs(s.pos), w.draws(s.pos))
    case RefuseIke(notify) => Reply(w, s, sa, false, EXCHANGE_CREATE_CHILD_SA, msgID, [notify])
    case AcceptIke(keys, resp, group) =>
      if !w.encodes(s.pos) then Reply(w, Bump(s), sa, false, EXCHANGE_CREATE_CHILD_SA, msgID, [TEMPORARY_FAILURE]) else
      var raw := Sealed(s, sa, EXCHANGE_CREATE_CHILD_SA, true, msgID, resp);
      var s1 := SwapIke(w, Record(Bump(s), false, msgID, raw), now, keys);
      Transmit(s1.(ike := s1.ike.(dhGroup := group)), raw)
  }

  /** A simultaneous rekey, or an IKE rekey under the superseded SA, is declined. */
  function HandleCreate(w: World, s: State, now: int, sa: IkeSa, via: bool, msgID: uint32, inner: seq<Payload>): State
    requires Sound(w)
  {
    if (s.win.pending.Some? && s.win.pending.value.kind.Rekeys()) || (IsIkeRekey(inner) && via) then
      Reply(w, s, sa, via, EXCHANGE_CREATE_CHILD_SA, msgID, [TEMPORARY_FAILURE])
    else if IsIkeRekey(inner) then HandleIke(w, s, now, msgID, inner)
    else HandleChild(w, s, now, sa, via, msgID, inner)
  }

  // ----- INFORMATIONAL -----

  predicate Refs(spi: Bytes, child: ChildSa) {
    |spi| == 4 && (U32(spi) == child.outSPI || U32(spi) == child.inSPI)
  }

  predicate RefsChild(spis: seq<Bytes>, child: ChildSa) {
    exists i :: 0 <= i < |spis| && Refs(spis[i], child)
  }

  /** The payload deletes the live Child SA. */
  predicate Names(p: Payload, sa: Option<ChildSa>) {
    && p.Delete? && p.protocol == PROTOCOL_ESP
    && sa.Some? && BodyCodec.SpiSize(p.spis) == 4 && RefsChild(p.spis, sa.value)
  }

  function Named(inner: seq<Payload>, sa: Option<ChildSa>): nat {
    if inner == [] then 0
    else Named(inner[..|inner| - 1], sa) + if Names(inner[|inner| - 1], sa) then 1 else 0
  }

  /** handleInboundChildDelete: the peer deleted the live Child SA. */
  function HandleChildDelete(w: World, s: State, now: int, spis: seq<Bytes>): State {
    if s.child.sa.None? || BodyCodec.SpiSize(spis) != 4 || !RefsChild(spis, s.child.sa.value) then s else
    var s0 := s.(log := s.log.(need := true, lost := false, triggers := s.log.triggers + 1));
    if s.win.pending.Some? then s0.(child := s0.child.(reestablish := true)) else
    var (s1, ok) := InitiateChild(w, s0, now, true);
    s1.(child := if ok then s1.child.(reestablish := false, nextReestablish := None) else s1.child.(reestablish := true))
  }

  function HandleDelete(w: World, s: State, now: int, p: Payload): State {
    if p.Delete? && p.protocol == PROTOCOL_ESP then HandleChildDelete(w, s, now, p.spis) else s
  }

  function HandleDeletes(w: World, s: State, now: int, inner: seq<Payload>): State
    decreases inner
  {
    if inner == [] then s
    else HandleDelete(w, HandleDeletes(w, s, now, inner[..|inner| - 1]), now, inner[|inner| - 1])
  }

  predicate Teardown(inner: seq<Payload>, via: bool) {
    !via && exists i :: 0 <= i < |inner| && inner[i].Delete? && inner[i].protocol == PROTOCOL_IKE
  }

  function HandleInformational(w: World, s: State, now: int, sa: IkeSa, via: bool, msgID: uint32, inner: seq<Payload>): State {
    Reply(w, HandleDeletes(w, s, now, inner), sa, via, EXCHANGE_INFORMATIONAL, msgID, [])
  }

  function ClearPending(s: State, msgID: uint32): State {
    if s.win.pending.Some? && s.win.pending.value.msgID == msgID && !s.win.pending.value.kind.Rekeys()
    then s.(win := s.win.(pending := None)) else s
  }

  function ClearOldDelete(s: State, msgID: uint32): State {
    if s.ike.priorDelete.Some? && s.ike.priorDelete.value.msgID == msgID
    then s.(ike := s.ike.(priorDelete := None)) else s
  }

  // ----- one inbound datagram -----

  /** decodeIKE: the SA a datagram authenticates under, and whether it is the old one. */
  function Decoder(s: State, now: int, sa: nat): Option<(IkeSa, bool)> {
    if sa == s.ike.cur.id then Some((s.ike.cur, false))
    else if s.ike.prior.Some? && s.ike.prior.value.id == sa && now < s.ike.priorUntil then Some((s.ike.prior.value, true))
    else None
  }

  function Minus(a: nat, b: nat): nat {
    if a > b then a - b else 0
  }

  /** Enters in the history what processing a request did. */
  function Note(before: State, after: State, sa: IkeSa, exchange: byte, msgID: uint32, inner: seq<Payload>): State {
    var was, log := before.log, after.log;
    var h := Handled(
      sa, exchange, msgID, inner,
      if exchange == EXCHANGE_INFORMATIONAL then Named(inner, before.child.sa) else 0,
      Minus(|log.installs|, |was.installs|), Minus(|log.swaps|, |was.swaps|), Minus(log.triggers, was.triggers),
      if |log.installs| > |was.installs| then Some(log.installs[|was.installs|]) else None,
      if |log.swaps| > |was.swaps| then Some(log.swaps[|was.swaps|].keys) else None,
      if |log.answers| > |was.answers| then Some(log.answers[|was.answers|].resp) else None);
    after.(log := log.(handled := log.handled + [h]))
  }

  function Dead(s: State): State {
    s.(log := s.log.(deaths := s.log.deaths + 1))
  }

  function HandleRequest(w: World, s: State, now: int, sa: IkeSa, via: bool, exchange: byte, msgID: uint32, inner: seq<Payload>): (State, bool)
    requires Sound(w)
  {
    if Duplicate(Slot(s, via), msgID) then (Resend(s, Slot(s, via), msgID), false)
    else if exchange == EXCHANGE_CREATE_CHILD_SA then
      (Note(s, HandleCreate(w, s, now, sa, via, msgID, inner), sa, exchange, msgID, inner), false)
    else
      var s1 := Note(s, HandleInformational(w, s, now, sa, via, msgID, inner), sa, exchange, msgID, inner);
      if Teardown(inner, via) then (Dead(s1), true) else (s1, false)
  }

  function HandleResponse(w: World, s: State, now: int, via: bool, exchange: byte, msgID: uint32, inner: seq<Payload>): State
    requires Sound(w)
  {
    if exchange == EXCHANGE_CREATE_CHILD_SA then CompleteMatching(w, s, now, msgID, inner, via)
    else if via then ClearOldDelete(s, msgID)
    else ClearPending(s, msgID)
  }

  /** The new state, and whether the driver stops. */
  function HandleInbound(w: World, s: State, now: int, id: nat, exchange: byte, response: bool, msgID: uint32, inner: seq<Payload>): (State, bool)
    requires Sound(w)
  {
    match Decoder(s, now, id)
    case None => (s, false)
    case Some(dec) =>
      var s0 := s.(timers := s.timers.(lastInbound := now));
      if exchange != EXCHANGE_INFORMATIONAL && exchange != EXCHANGE_CREATE_CHILD_SA then (s0, false)
      else if response then (HandleResponse(w, s0, now, dec.1, exchange, msgID, inner), false)
      else HandleRequest(w, s0, now, dec.0, dec.1, exchange, msgID, inner)
  }

  // ----- one tick -----

  function Hurry(s: State, p: Pending, now: int, arm: bool): State {
    s.(win := s.win.(pending := Some(p.(fast := true, next := now)), fastDue := s.win.fastDue || arm),
       log := s.log.(hurried := s.log.hurried + {p.raw.serial}))
  }

  function DetectSuspend(w: World, s: State, now: int, wall: int): State {
    var s0 := s.(timers := s.timers.(lastTick := Some(wall)));
    if s.timers.lastTick.None? || wall - s.timers.lastTick.value <= SUSPEND_THRESHOLD then s0
    else if s.win.pending.None? then InitiateDpd(w, s0, now, true).0
    else Hurry(s0, s.win.pending.value, now, s.win.pending.value.kind != Dpd)
  }

  function ExpireGrace(s: State, now: int): State {
    if s.ike.prior.Some? && now > s.ike.priorUntil
    then s.(ike := s.ike.(prior := None, priorPeer := Fresh, priorDelete := None)) else s
  }

  function RetryOldDelete(w: World, s: State, now: int): State {
    if s.ike.priorDelete.None? then s
    else if s.ike.prior.None? then s.(ike := s.ike.(priorDelete := None)) else
    var p := s.ike.priorDelete.value;
    if now <= p.next then s
    else if p.attempts + 1 > w.tries then s.(ike := s.ike.(priorDelete := None)) else
    var q := p.(attempts := p.attempts + 1, next := now + Delay(w.base, w.cap, p.attempts + 1));
    Transmit(s.(ike := s.ike.(priorDelete := Some(q))), p.raw)
  }

  function Tries(w: World, p: Pending): nat {
    if p.fast then FAST_TRIES else w.tries
  }

  function Wait(w: World, p: Pending, attempt: nat): int
    requires attempt >= 1
  {
    if p.fast then FAST_BASE else Delay(w.base, w.cap, attempt)
  }

  /** The outstanding request is due, repeated, given up, or the peer declared dead. */
  function RetryPending(w: World, s: State, now: int): (State, bool)
    requires s.win.pending.Some?
  {
    var p := s.win.pending.value;
    if now <= p.next then (s, false)
    else if p.attempts + 1 > Tries(w, p) then
      var s1 := s.(win := s.win.(pending := None));
      if p.kind == Dpd then (Dead(s1), true)
      else if p.kind.Reestablishes() then
        (s1.(child := s1.child.(reestablish := true, nextReestablish := Some(now + RETRY))), false)
      else (s1, false)
    else
      var q := p.(attempts := p.attempts + 1, next := now + Wait(w, p, p.attempts + 1));
      (Transmit(s.(win := s.win.(pending := Some(q))), p.raw), false)
  }

  predicate Past(deadline: Option<int>, now: int) {
    deadline.Some? ==> now > deadline.value
  }

  predicate Due(deadline: Option<int>, now: int) {
    deadline.Some? && now > deadline.value
  }

  function Reestablish(w: World, s: State, now: int): State {
    var (s1, ok) := InitiateChild(w, s, now, true);
    s1.(child := if ok then s1.child.(reestablish := false, nextReestablish := None)
                 else s1.child.(nextReestablish := Some(now + RETRY)))
  }

  function Idle(s: State, now: int, lastData: Option<int>): int {
    var idle := now - s.timers.lastInbound;
    if lastData.Some? && now - lastData.value < idle then now - lastData.value else idle
  }

  /** What a free window starts, in order of priority. */
  function Begin(w: World, s: State, now: int, volume: uint32, lastData: Option<int>): State {
    if s.win.fastDue then InitiateDpd(w, s.(win := s.win.(fastDue := false)), now, true).0
    else if s.child.reestablish && Past(s.child.nextReestablish, now) then Reestablish(w, s, now)
    else if !s.child.reestablish && Past(s.timers.nextVolume, now) && volume >= w.maxPackets then
      InitiateChild(w, s.(timers := s.timers.(nextVolume := Some(now + RETRY))), now, false).0
    else if w.lifetime > 0 && Due(s.timers.nextIke, now) then
      InitiateIke(w, s.(timers := s.timers.(nextIke := Some(now + RETRY))), now).0
    else if w.lifetime > 0 && !s.child.reestablish && Due(s.timers.nextChild, now) then
      InitiateChild(w, s.(timers := s.timers.(nextChild := Some(now + RETRY))), now, false).0
    else if Idle(s, now, lastData) > w.dpdInterval then InitiateDpd(w, s, now, false).0
    else s
  }

  function Housekeeping(w: World, s: State, now: int, wall: int, volume: uint32, lastData: Option<int>): (State, bool) {
    var s1 := RetryOldDelete(w, ExpireGrace(DetectSuspend(w, s, now, wall), now), now);
    if s1.win.pending.Some? then RetryPending(w, s1, now) else (Begin(w, s1, now, volume, lastData), false)
  }

  // ----- runs -----

  function Step(w: World, s: State, e: Event): (State, bool)
    requires Sound(w)
  {
    match e
    case Inbound(now, sa, exchange, response, msgID, inner) =>
      HandleInbound(w, Bump(s), now, sa, exchange, response, msgID, inner)
    case Tick(now, wall, volume, lastData) => Housekeeping(w, Bump(s), now, wall, volume, lastData)
  }

  /** The driver loop over a sequence of events; events after it stops are not read. */
  function Run(w: World, s: State, es: seq<Event>): (State, bool)
    requires Sound(w)
    decreases es
  {
    if es == [] then (s, false) else
    var (s1, stopped) := Run(w, s, es[..|es| - 1]);
    if stopped then (s1, true) else Step(w, s1, es[|es| - 1])
  }

  function NewLog(root: IkeSa): Log {
    Log([], [], [], [], [], [], [], [], 0, false, false, {}, 0, root)
  }

  /** A session as the handshake leaves it, whatever its deadlines. */
  predicate Start(s: State) {
    && s.ike.prior.None? && s.ike.peer.Fresh? && s.ike.priorPeer.Fresh? && s.ike.priorDelete.None?
    && s.win.pending.None? && !s.win.fastDue && !s.child.reestablish
    && s.log == NewLog(s.ike.cur)
  }

  /** The session the driver is entered with at time now. */
  function Started(w: World, sa: IkeSa, group: uint16, nextID: uint32, child: Option<ChildSa>, pfs: bool, now: int): (s: State)
    ensures Start(s)
  {
    State(Ike(sa, None, 0, Fresh, Fresh, None, group), Window(nextID, None, false), Child(child, false, None, pfs, 0),
          Timers(now, Some(now), Deadline(w, w.lifetime, now, 0), Deadline(w, w.ikeLifetime, now, 0), None),
          NewLog(sa), 0)
  }
}
