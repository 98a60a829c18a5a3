/** What one housekeeping tick does, said of the clocks, the deadlines and what goes on the
    wire: times are in nanoseconds, payloads and exchanges in protocol numbers. */
module DriverTicks {
  import opened Bytes
  import opened IkeMsg
  import opened KeySchedule
  import Suites
  import opened Rekey
  import opened RekeyContents
  import opened Backoff
  import opened Driver

  // ----- the order of business -----

  /** What a free window can be used for, most urgent first. */
  datatype Task = FastProbe | Reestablishment | VolumeRekey | IkeRekeying | ChildRekeying | Probe | Rest
  {
    function Rank(): nat {
      match this
      case FastProbe => 0
      case Reestablishment => 1
      case VolumeRekey => 2
      case IkeRekeying => 3
      case ChildRekeying => 4
      case Probe => 5
      case Rest => 6
    }
  }

  /** The condition on which each is called for, by itself. */
  predicate Wanted(w: World, s: State, e: Event, k: Task)
    requires e.Tick?
  {
    match k
    case FastProbe => s.win.fastDue
    case Reestablishment => s.child.reestablish && (s.child.nextReestablish.Some? ==> e.now > s.child.nextReestablish.value)
    case VolumeRekey =>
      !s.child.reestablish && (s.timers.nextVolume.Some? ==> e.now > s.timers.nextVolume.value) && e.volume >= w.maxPackets
    case IkeRekeying => w.lifetime > 0 && s.timers.nextIke.Some? && e.now > s.timers.nextIke.value
    case ChildRekeying =>
      w.lifetime > 0 && !s.child.reestablish && s.timers.nextChild.Some? && e.now > s.timers.nextChild.value
    case Probe =>
      e.now - s.timers.lastInbound > w.dpdInterval && (e.lastData.Some? ==> e.now - e.lastData.value > w.dpdInterval)
    case Rest => true
  }

  /** k is called for and nothing more urgent is. */
  ghost predicate Turn(w: World, s: State, e: Event, k: Task)
    requires e.Tick?
  {
    Wanted(w, s, e, k) && forall j: Task :: j.Rank() < k.Rank() ==> !Wanted(w, s, e, j)
  }

  // ----- what starting something looks like -----

  /** One more request, under the current SA with the next Message ID, and it holds the
      window until answered. */
  predicate NewRequest(s: State, t: State) {
    var n := |s.log.requests|;
    && |t.log.requests| == n + 1 && t.log.requests[..n] == s.log.requests
    && t.win.pending.Some? && t.win.pending.value.raw == t.log.requests[n].d
    && t.win.pending.value.msgID == s.win.messageID && t.win.pending.value.attempts == 1
    && t.win.messageID == (s.win.messageID + 1) % 0x1_0000_0000
    && var d := t.log.requests[n].d;
       && d.sa == s.ike.cur.id && d.msgID == s.win.messageID && !d.response
       && (d.fromInitiator <==> s.ike.cur.keys.role == Initiator)
  }

  predicate ProbeBegun(w: World, s: State, t: State, now: int, fast: bool) {
    && NewRequest(s, t) && t.log.requests[|s.log.requests|].probe == fast
    && var p := t.win.pending.value;
       && p.raw.exchange == 37 && p.raw.inner == [] && p.kind == Dpd && p.fast == fast
       && p.next == now + if fast then 1_000_000_000 else w.base
  }

  /** The new SPI, the nonce and the private value come from the random source, drawn in
      between. */
  ghost predicate DrawnChild(w: World, from: nat, to: nat, ctx: ChildCtx) {
    exists n: nat :: from <= n < to && w.draws(n).Some? && w.draws(n).value.spi4 == ctx.newInSPI && w.draws(n).value.nonce == ctx.ni
                     && (ctx.dh.Some? ==> w.privs(n) == Some(ctx.dh.value.priv))
  }

  ghost predicate DrawnIke(w: World, from: nat, to: nat, ctx: IkeCtx) {
    exists n: nat :: from <= n < to && w.draws(n).Some? && w.draws(n).value.spi8 == ctx.newSPIi && w.draws(n).value.nonce == ctx.ni
                     && w.privs(n) == Some(ctx.dh.priv)
  }

  /** A Child SA is asked for: to replace the live one, or, when the peer deleted that, in
      its place. Forward secrecy uses the group the peer last insisted on, else that of the
      IKE SA, else 31. */
  ghost predicate ChildBegun(w: World, s: State, t: State, now: int, reestablish: bool) {
    && NewRequest(s, t) && !t.log.requests[|s.log.requests|].probe && s.child.sa.Some?
    && var p, live := t.win.pending.value, s.child.sa.value.inSPI;
       && p.raw.exchange == 36 && p.kind.ChildRekey? && !p.fast && p.next == now + w.base
       && var ctx := p.kind.child;
          && ctx.reestablish == reestablish && ctx.oldInSPI == live
          && (ctx.dh.Some? <==> s.child.pfs)
          && (ctx.dh.Some? ==> ctx.dh.value.group == (if s.child.pfsGroup != 0 then s.child.pfsGroup
                                                      else if s.ike.dhGroup != 0 then s.ike.dhGroup else 31))
          && DrawnChild(w, s.pos, t.pos, ctx)
          && AsksForChild(w.c, p.raw.inner, ctx.newInSPI, if reestablish then None else Some(live), ctx.ni, ctx.dh, w.esp, w.v6)
  }

  /** A new IKE SA is asked for, in the group of the present one. */
  ghost predicate IkeBegun(w: World, s: State, t: State, now: int) {
    && NewRequest(s, t) && !t.log.requests[|s.log.requests|].probe
    && var p := t.win.pending.value;
       && p.raw.exchange == 36 && p.kind.IkeRekey? && !p.fast && p.next == now + w.base
       && p.kind.ike.dh.group == s.ike.dhGroup && DrawnIke(w, s.pos, t.pos, p.kind.ike)
       && AsksForIke(w.c, p.raw.inner, p.kind.ike.newSPIi, p.kind.ike.ni, p.kind.ike.dh, w.ike)
  }

  ghost predicate Begun(w: World, s: State, t: State, now: int, k: Task) {
    match k
    case FastProbe => ProbeBegun(w, s, t, now, true)
    case Reestablishment => ChildBegun(w, s, t, now, true)
    case VolumeRekey => ChildBegun(w, s, t, now, false)
    case IkeRekeying => IkeBegun(w, s, t, now)
    case ChildRekeying => ChildBegun(w, s, t, now, false)
    case Probe => ProbeBegun(w, s, t, now, false)
    case Rest => false
  }

  /** Whether or not it could be started, it is not tried again for a minute, or until it
      fails. */
  predicate Rearmed(s: State, t: State, now: int, k: Task) {
    var again := Some(now + 60_000_000_000);
    && (match k
        case VolumeRekey => t.timers == s.timers.(nextVolume := again)
        case IkeRekeying => t.timers == s.timers.(nextIke := again)
        case ChildRekeying => t.timers == s.timers.(nextChild := again)
        case _ => t.timers == s.timers)
    && (if k == Reestablishment
        then t.child == s.child.(nextReestablish := again) || t.child == s.child.(reestablish := false, nextReestablish := None)
        else t.child == s.child)
    && t.win.fastDue == (s.win.fastDue && k != FastProbe)
  }

  predicate Unasked(s: State, t: State) {
    t.log.requests == s.log.requests && t.win.pending == s.win.pending && t.win.messageID == s.win.messageID
  }

  /** Encoding and the random source work. */
  ghost predicate Works(w: World) {
    forall n :: w.encodes(n) && w.draws(n).Some? && w.privs(n).Some?
  }

  // ----- each initiation -----

  lemma OriginateBegins(w: World, s: State, now: int, exchange: byte, inner: seq<Payload>, kind: Kind, fast: bool)
    ensures var t := Originate(w, s, now, exchange, inner, kind, fast).0;
            && t.timers == s.timers && t.child == s.child && t.win.fastDue == s.win.fastDue && t.ike == s.ike
            && t.log.installs == s.log.installs && t.log.swaps == s.log.swaps && t.log.answers == s.log.answers && t.pos > s.pos
            && if w.encodes(s.pos) then
                 && NewRequest(s, t) && t.log.requests[|s.log.requests|].probe == fast
                 && var p := t.win.pending.value;
                    && p.raw.exchange == exchange && p.raw.inner == inner && p.kind == kind && p.fast == fast
                    && p.next == now + if fast then 1_000_000_000 else w.base
               else Unasked(s, t) && !Originate(w, s, now, exchange, inner, kind, fast).1
  {}

  lemma ProbeBegins(w: World, s: State, now: int, fast: bool)
    ensures var t := InitiateDpd(w, s, now, fast).0;
            && t.timers == s.timers && t.child == s.child && t.win.fastDue == s.win.fastDue
            && if w.encodes(s.pos) then ProbeBegun(w, s, t, now, fast) else Unasked(s, t)
  {
    hide Originate, NewRequest;
    OriginateBegins(w, s, now, 37, [], Dpd, fast);
  }

  lemma ChildBegins(w: World, s: State, now: int, reestablish: bool)
    requires Sound(w)
    ensures var t := InitiateChild(w, s, now, reestablish).0;
            && t.timers == s.timers && t.child == s.child && t.win.fastDue == s.win.fastDue
            && ((Unasked(s, t) && !InitiateChild(w, s, now, reestablish).1) || ChildBegun(w, s, t, now, reestablish))
            && (Works(w) && s.child.sa.Some? ==> ChildBegun(w, s, t, now, reestablish))
  {
    hide Originate, NewRequest, AsksForChild, ChildRequest, Sound;
    if s.child.sa.Some? && w.draws(s.pos).Some? && (s.child.pfs ==> w.privs(s.pos).Some?) {
      var dh := if s.child.pfs then Some(Dh(PfsGroup(s), w.privs(s.pos).value)) else None;
      var ctx := ChildCtx(w.draws(s.pos).value.spi4, s.child.sa.value.inSPI, w.draws(s.pos).value.nonce, reestablish, dh);
      SoundRows(w);
      ChildRequestAsks(w.c, ctx, w.esp, w.v6);
      var inner := ChildRequest(w.c, ctx, w.esp, w.v6);
      OriginateBegins(w, Bump(s), now, 36, inner, ChildRekey(ctx), false);
      BumpedRequest(s, Originate(w, Bump(s), now, 36, inner, ChildRekey(ctx), false).0);
    }
  }

  lemma IkeBegins(w: World, s: State, now: int)
    requires Sound(w)
    ensures var t := InitiateIke(w, s, now).0;
            && t.timers == s.timers && t.child == s.child && t.win.fastDue == s.win.fastDue
            && (Unasked(s, t) || IkeBegun(w, s, t, now)) && (Works(w) ==> IkeBegun(w, s, t, now))
  {
    hide Originate, NewRequest, AsksForIke, IkeRequest, Sound;
    if w.draws(s.pos).Some? && w.privs(s.pos).Some? {
      var ctx := IkeCtx(w.draws(s.pos).value.spi8, w.draws(s.pos).value.nonce, Dh(s.ike.dhGroup, w.privs(s.pos).value));
      SoundRows(w);
      IkeRequestAsks(w.c, ctx, w.ike);
      var inner := IkeRequest(w.c, ctx, w.ike);
      OriginateBegins(w, Bump(s), now, 36, inner, IkeRekey(ctx), false);
      BumpedRequest(s, Originate(w, Bump(s), now, 36, inner, IkeRekey(ctx), false).0);
    }
  }

  lemma SoundRows(w: World)
    requires Sound(w)
    ensures Suites.Rows(Suites.EspLayer, w.esp) && Suites.Rows(Suites.IkeLayer, w.ike)
  {}

  lemma BumpedRequest(s: State, t: State)
    ensures NewRequest(Bump(s), t) <==> NewRequest(s, t)
    ensures Unasked(Bump(s), t) <==> Unasked(s, t)
  {}

  // ----- the free window -----

  /** Whose turn it is gets the window, and nobody else. */
  lemma BeginStarts(w: World, s: State, e: Event, k: Task)
    requires Sound(w) && e.Tick? && Turn(w, s, e, k)
    ensures var t := Begin(w, s, e.now, e.volume, e.lastData);
            && Rearmed(s, t, e.now, k) && (Unasked(s, t) || Begun(w, s, t, e.now, k))
            && (k != Rest && Works(w) && s.child.sa.Some? ==> Begun(w, s, t, e.now, k))
  {
    hide InitiateDpd, InitiateChild, InitiateIke, NewRequest, AsksForChild, AsksForIke, Sound, Works;
    Earlier(w, s, e, k);
    var t, again := Begin(w, s, e.now, e.volume, e.lastData), Some(e.now + RETRY);
    match k
    case FastProbe =>
      var s0 := s.(win := s.win.(fastDue := false));
      ProbeBegins(w, s0, e.now, true);
      SameWindow(s, s0, t);
      AllEncode(w, s.pos);
    case Reestablishment =>
      ChildBegins(w, s, e.now, true);
      Reestablished(w, s, e.now);
    case VolumeRekey =>
      var s0 := s.(timers := s.timers.(nextVolume := again));
      ChildBegins(w, s0, e.now, false);
      SameWindow(s, s0, t);
    case IkeRekeying =>
      var s0 := s.(timers := s.timers.(nextIke := again));
      IkeBegins(w, s0, e.now);
      SameWindow(s, s0, t);
    case ChildRekeying =>
      var s0 := s.(timers := s.timers.(nextChild := again));
      ChildBegins(w, s0, e.now, false);
      SameWindow(s, s0, t);
    case Probe =>
      ProbeBegins(w, s, e.now, false);
      AllEncode(w, s.pos);
    case Rest =>
  }

  lemma AllEncode(w: World, n: nat)
    ensures Works(w) ==> w.encodes(n)
  {}

  lemma Earlier(w: World, s: State, e: Event, k: Task)
    requires e.Tick? && Turn(w, s, e, k)
    ensures (k.Rank() > 0 ==> !Wanted(w, s, e, FastProbe)) && (k.Rank() > 1 ==> !Wanted(w, s, e, Reestablishment))
    ensures (k.Rank() > 2 ==> !Wanted(w, s, e, VolumeRekey)) && (k.Rank() > 3 ==> !Wanted(w, s, e, IkeRekeying))
    ensures (k.Rank() > 4 ==> !Wanted(w, s, e, ChildRekeying)) && (k.Rank() > 5 ==> !Wanted(w, s, e, Probe))
  {}

  lemma SameWindow(s: State, s0: State, t: State)
    requires s0.ike == s.ike && s0.child == s.child && s0.log == s.log
    requires s0.win == s.win.(fastDue := s0.win.fastDue)
    ensures NewRequest(s0, t) <==> NewRequest(s, t)
    ensures Unasked(s0, t) <==> Unasked(s, t)
  {}

  lemma Reestablished(w: World, s: State, now: int)
    ensures var a, t := InitiateChild(w, s, now, true).0, Reestablish(w, s, now);
            && t.timers == a.timers && t.win == a.win && t.log == a.log && t.ike == a.ike && t.pos == a.pos
            && (a.child == s.child ==> t.child == s.child.(nextReestablish := Some(now + 60_000_000_000))
                                       || t.child == s.child.(reestablish := false, nextReestablish := None))
            && (NewRequest(s, a) <==> NewRequest(s, t)) && (Unasked(s, a) <==> Unasked(s, t))
  {
    hide InitiateChild;
  }

  // ----- one tick -----

  /** No wake-up: the wall clock has not jumped by more than five seconds since the last
      tick. */
  predicate Awake(s: State, e: Event)
    requires e.Tick?
  {
    s.timers.lastTick.Some? ==> e.wall - s.timers.lastTick.value <= 5_000_000_000
  }

  /** What the chores before the window leave alone. */
  predicate Aside(s: State, t: State) {
    && t.ike.cur == s.ike.cur && t.ike.dhGroup == s.ike.dhGroup && t.win == s.win && t.child == s.child
    && t.log.requests == s.log.requests && s.pos <= t.pos
  }

  function Chores(w: World, s: State, now: int, wall: int): State {
    RetryOldDelete(w, ExpireGrace(DetectSuspend(w, s, now, wall), now), now)
  }

  lemma ChoresAside(w: World, s: State, e: Event)
    requires e.Tick? && Awake(s, e)
    ensures var t := Chores(w, Bump(s), e.now, e.wall); Aside(s, t) && t.timers == s.timers.(lastTick := Some(e.wall))
  {
    hide Delay, InitiateDpd;
  }

  /** A tick that finds the window free starts what is most urgent, exactly that, and
      nothing exactly when nothing is called for. */
  lemma TickStarts(w: World, s: State, e: Event, k: Task)
    requires Sound(w) && e.Tick? && Awake(s, e) && s.win.pending.None? && Turn(w, s, e, k)
    ensures var (t, stop) := Step(w, s, e);
            && !stop && Rearmed(s.(timers := s.timers.(lastTick := Some(e.wall))), t, e.now, k)
            && (Unasked(s, t) || Begun(w, s, t, e.now, k)) && (k == Rest ==> Unasked(s, t))
            && (k != Rest && Works(w) && s.child.sa.Some? ==> Begun(w, s, t, e.now, k))
  {
    hide Begin, RetryOldDelete, DetectSuspend, NewRequest, AsksForChild, AsksForIke, Sound, Works;
    ChoresAside(w, s, e);
    var s1 := Chores(w, Bump(s), e.now, e.wall);
    BeginStarts(w, s1, e, k);
    SameAside(w, s, s1, Begin(w, s1, e.now, e.volume, e.lastData), e.now, k);
  }

  lemma SameAside(w: World, s: State, s1: State, t: State, now: int, k: Task)
    requires Aside(s, s1)
    ensures Unasked(s1, t) <==> Unasked(s, t)
    ensures Begun(w, s1, t, now, k) ==> Begun(w, s, t, now, k)
  {
    hide AsksForChild, AsksForIke;
  }

  /** Some task has its turn, the last one when no other is called for. */
  lemma SomeTurn(w: World, s: State, e: Event) returns (k: Task)
    requires e.Tick?
    ensures Turn(w, s, e, k)
  {
    k := if Wanted(w, s, e, FastProbe) then FastProbe
         else if Wanted(w, s, e, Reestablishment) then Reestablishment
         else if Wanted(w, s, e, VolumeRekey) then VolumeRekey
         else if Wanted(w, s, e, IkeRekeying) then IkeRekeying
         else if Wanted(w, s, e, ChildRekeying) then ChildRekeying
         else if Wanted(w, s, e, Probe) then Probe else Rest;
  }

  /** The wait after the nth transmission: base, doubled each time, up to the cap. */
  function Waits(w: World, n: nat): int
    requires n >= 1
  {
    if n == 1 || w.base * Pow2(n - 1) < w.cap then w.base * Pow2(n - 1) else w.cap
  }

  /** The tries a request has: two when hurried or a fast probe, else as configured. */
  function TriesOf(w: World, p: Pending): nat {
    if p.fast then 2 else w.tries
  }

  /** A tick that finds a request outstanding leaves it alone until it is overdue, then sends
      the very same datagram again after the doubled wait, or a second when hurried, and
      gives it up when its tries are used: a probe with the death of the peer, a
      re-establishment by queueing another in a minute. */
  lemma PendingTick(w: World, s: State, e: Event)
    requires Sound(w) && e.Tick? && Awake(s, e) && s.win.pending.Some?
    ensures var (t, stop) := Step(w, s, e);
            var p := s.win.pending.value;
            && t.log.requests == s.log.requests && t.win.messageID == s.win.messageID && t.win.fastDue == s.win.fastDue
            && if e.now <= p.next then t.win.pending == Some(p) && t.child == s.child && !stop
               else if p.attempts < TriesOf(w, p) then
                 && !stop && t.child == s.child && t.log.sent != [] && t.log.sent[|t.log.sent| - 1].d == p.raw
                 && t.win.pending == Some(p.(attempts := p.attempts + 1,
                                             next := e.now + if p.fast then 1_000_000_000 else Waits(w, p.attempts + 1)))
               else
                 && t.win.pending.None? && (stop <==> p.kind == Dpd)
                 && t.child == if p.kind.ChildRekey? && p.kind.child.reestablish
                               then s.child.(reestablish := true, nextReestablish := Some(e.now + 60_000_000_000)) else s.child
  {
    hide Begin, RetryOldDelete, DetectSuspend, Delay;
    var p := s.win.pending.value;
    ChoresAside(w, s, e);
    DelayIs(w.base, w.cap, p.attempts + 1);
  }

  /** A wake-up hurries what is outstanding: it is due again at once, with the tries of a
      fast probe, and unless it is a probe itself one follows. With a free window a fast
      probe goes out. */
  lemma WokenTick(w: World, s: State, e: Event)
    requires Sound(w) && e.Tick? && !Awake(s, e)
    ensures var (t, stop) := Step(w, s, e);
            && (s.win.pending.Some? ==>
                  var p := s.win.pending.value;
                  && !stop && t.win == s.win.(pending := Some(p.(fast := true, next := e.now)), fastDue := s.win.fastDue || p.kind != Dpd)
                  && t.log.requests == s.log.requests && t.child == s.child)
            && (s.win.pending.None? && w.encodes(s.pos + 1) ==>
                  !stop && ProbeBegun(w, s, t, e.now, true) && t.win.fastDue == s.win.fastDue && t.child == s.child)
  {
    hide Begin, RetryOldDelete, InitiateDpd;
    var s0 := Bump(s).(timers := s.timers.(lastTick := Some(e.wall)));
    ProbeBegins(w, s0, e.now, true);
    var s1 := DetectSuspend(w, Bump(s), e.now, e.wall);
    OldDeleteAside(w, ExpireGrace(s1, e.now), e.now);
    var s2 := RetryOldDelete(w, ExpireGrace(s1, e.now), e.now);
    if s.win.pending.None? && w.encodes(s.pos + 1) {
      SameProbe(s, s0, s1, s2);
    }
  }

  lemma SameProbe(s: State, s0: State, s1: State, s2: State)
    requires s0.ike == s.ike && s0.win == s.win && s0.log == s.log && s2.win == s1.win && s2.log.requests == s1.log.requests
    ensures NewRequest(s0, s1) <==> NewRequest(s, s2)
  {}

  lemma OldDeleteAside(w: World, s: State, now: int)
    ensures Aside(s, RetryOldDelete(w, s, now))
  {
    hide Delay;
  }

  /** The superseded SA goes when its 30 seconds are over, with its answers and the DELETE
      still out for it; until then that DELETE is repeated like any request. */
  lemma GraceTick(w: World, s: State, e: Event)
    requires Sound(w) && e.Tick? && Awake(s, e)
    ensures var t := Step(w, s, e).0;
            if s.ike.prior.None? || e.now > s.ike.priorUntil then t.ike.prior.None? && t.ike.priorDelete.None?
            else
              && t.ike.prior == s.ike.prior && t.ike.priorUntil == s.ike.priorUntil && t.ike.priorPeer == s.ike.priorPeer
              && (s.ike.priorDelete.None? ==> t.ike.priorDelete.None?)
              && (s.ike.priorDelete.Some? ==>
                    var p := s.ike.priorDelete.value;
                    if e.now <= p.next then t.ike.priorDelete == Some(p)
                    else if p.attempts < w.tries then
                      && |t.log.sent| > |s.log.sent| && t.log.sent[|s.log.sent|].d == p.raw
                      && t.ike.priorDelete == Some(p.(attempts := p.attempts + 1, next := e.now + Waits(w, p.attempts + 1)))
                    else t.ike.priorDelete.None?)
  {
    hide Begin, RetryPending, InitiateDpd, Delay;
    var s1 := Chores(w, Bump(s), e.now, e.wall);
    BeginKeepsIke(w, s1, e);
    if s1.win.pending.Some? {
      RetryKeepsIke(w, s1, e.now);
    }
    if s.ike.priorDelete.Some? {
      DelayIs(w.base, w.cap, s.ike.priorDelete.value.attempts + 1);
    }
  }

  lemma RetryKeepsIke(w: World, s: State, now: int)
    requires s.win.pending.Some?
    ensures RetryPending(w, s, now).0.ike == s.ike && s.log.sent <= RetryPending(w, s, now).0.log.sent
  {
    hide Wait;
  }

  lemma OriginateAppends(w: World, s: State, now: int, exchange: byte, inner: seq<Payload>, kind: Kind, fast: bool)
    ensures var t := Originate(w, s, now, exchange, inner, kind, fast).0; t.ike == s.ike && s.log.sent <= t.log.sent
  {}

  lemma InitiateAppends(w: World, s: State, now: int, flag: bool)
    ensures var t := InitiateDpd(w, s, now, flag).0; t.ike == s.ike && s.log.sent <= t.log.sent
    ensures var t := InitiateChild(w, s, now, flag).0; t.ike == s.ike && s.log.sent <= t.log.sent
    ensures var t := InitiateIke(w, s, now).0; t.ike == s.ike && s.log.sent <= t.log.sent
  {
    hide ChildRequest, IkeRequest, Originate;
    OriginateAppends(w, s, now, EXCHANGE_INFORMATIONAL, [], Dpd, flag);
    forall inner, kind
      ensures var t := Originate(w, Bump(s), now, EXCHANGE_CREATE_CHILD_SA, inner, kind, false).0; t.ike == s.ike && s.log.sent <= t.log.sent
    {
      OriginateAppends(w, Bump(s), now, EXCHANGE_CREATE_CHILD_SA, inner, kind, false);
    }
  }

  lemma BeginKeepsIke(w: World, s: State, e: Event)
    requires e.Tick?
    ensures var t := Begin(w, s, e.now, e.volume, e.lastData); t.ike == s.ike && s.log.sent <= t.log.sent
  {
    hide InitiateDpd, InitiateChild, InitiateIke;
    var again := Some(e.now + RETRY);
    InitiateAppends(w, s, e.now, true);
    InitiateAppends(w, s, e.now, false);
    InitiateAppends(w, s.(win := s.win.(fastDue := false)), e.now, true);
    InitiateAppends(w, s.(timers := s.timers.(nextVolume := again)), e.now, false);
    InitiateAppends(w, s.(timers := s.timers.(nextIke := again)), e.now, false);
    InitiateAppends(w, s.(timers := s.timers.(nextChild := again)), e.now, false);
  }
}
