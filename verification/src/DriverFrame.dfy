/** What one step of the driver can change in its history, and where each entry comes
    from. None of it needs the invariants. */
module DriverFrame {
  import opened Bytes
  import opened IkeMsg
  import opened KeySchedule
  import opened Rekey
  import opened Driver
  import Backoff
  import BodyCodec

  /** The SAs and the histories of answers, effects and completions are as they were;
      requests may have been added. */
  ghost predicate Still(s: State, t: State) {
    && t.ike.cur == s.ike.cur && t.ike.prior == s.ike.prior && t.ike.priorUntil == s.ike.priorUntil
    && t.child.sa == s.child.sa && SameTale(s, t) && t.log.triggers == s.log.triggers
  }

  ghost predicate SameTale(s: State, t: State) {
    && s.log.requests <= t.log.requests && t.log.root == s.log.root
    && t.log.installs == s.log.installs && t.log.swaps == s.log.swaps && t.log.answers == s.log.answers
    && t.log.handled == s.log.handled && t.log.completed == s.log.completed && t.log.rekeyed == s.log.rekeyed
  }

  // ----- originating -----

  lemma OriginateStill(w: World, s: State, now: int, exchange: byte, inner: seq<Payload>, kind: Kind, fast: bool)
    ensures Still(s, Originate(w, s, now, exchange, inner, kind, fast).0)
  {}

  lemma InitiateStill(w: World, s: State, now: int, flag: bool)
    ensures Still(s, InitiateDpd(w, s, now, flag).0)
    ensures Still(s, InitiateChild(w, s, now, flag).0)
    ensures Still(s, InitiateIke(w, s, now).0)
  {
    hide ChildRequest, IkeRequest, Originate;
    OriginateStill(w, s, now, EXCHANGE_INFORMATIONAL, [], Dpd, flag);
    var t := Bump(s);
    forall inner, kind
      ensures Still(s, Originate(w, t, now, EXCHANGE_CREATE_CHILD_SA, inner, kind, false).0)
    {
      OriginateStill(w, t, now, EXCHANGE_CREATE_CHILD_SA, inner, kind, false);
    }
  }

  // ----- deletions -----

  /** Each payload that deletes the live Child SA triggers once. */
  lemma HandleDeleteTriggers(w: World, s: State, now: int, p: Payload)
    ensures var t := HandleDelete(w, s, now, p);
            && t.ike == s.ike && t.child.sa == s.child.sa && SameTale(s, t)
            && t.log.triggers == s.log.triggers + if Names(p, s.child.sa) then 1 else 0
  {
    hide RefsChild, BodyCodec.SpiSize, InitiateChild;
    var s0 := s.(log := s.log.(need := true, lost := false, triggers := s.log.triggers + 1));
    InitiateStill(w, s0, now, true);
    InitiateKeepsIke(w, s0, now);
  }

  lemma InitiateKeepsIke(w: World, s: State, now: int)
    ensures InitiateChild(w, s, now, true).0.ike == s.ike
  {
    hide ChildRequest;
  }

  lemma {:induction false} HandleDeletesTrigger(w: World, s: State, now: int, inner: seq<Payload>)
    ensures var t := HandleDeletes(w, s, now, inner);
            && t.ike == s.ike && t.child.sa == s.child.sa && SameTale(s, t)
            && t.log.triggers == s.log.triggers + Named(inner, s.child.sa)
    decreases inner
  {
    hide HandleDelete, Names;
    if inner != [] {
      var rest := inner[..|inner| - 1];
      HandleDeletesTrigger(w, s, now, rest);
      HandleDeleteTriggers(w, HandleDeletes(w, s, now, rest), now, inner[|inner| - 1]);
    }
  }

  // ----- answers and what they come from -----

  /** resp accepts the Child rekey request req under an SA with these keys, installing u. */
  ghost predicate ChildAccepted(w: World, keys: IkeKeys, req: seq<Payload>, u: ChildUpdate, resp: seq<Payload>)
    requires Sound(w)
  {
    exists was: uint32, n: nat :: Accepts(AnswerChild(w.c, keys.skd, was, w.esp, w.v6, req, w.privs(n), w.draws(n)), u, resp)
  }

  ghost predicate Accepts(a: ChildAnswer, u: ChildUpdate, resp: seq<Payload>) {
    a.AcceptChild? && a.update == u && a.resp == resp
  }

  /** resp accepts the IKE rekey request req, cutting over to cut. */
  ghost predicate IkeAccepted(w: World, keys: IkeKeys, req: seq<Payload>, cut: IkeKeys, resp: seq<Payload>)
    requires Sound(w)
  {
    exists n: nat :: AcceptsIke(AnswerIke(w.c, keys.skd, w.ike, req, w.privs(n), w.draws(n)), cut, resp)
  }

  ghost predicate AcceptsIke(a: IkeAnswer, keys: IkeKeys, resp: seq<Payload>) {
    a.AcceptIke? && a.keys == keys && a.resp == resp
  }

  /** resp grants nothing. */
  predicate Refusal(resp: seq<Payload>) {
    resp == [] || (|resp| == 1 && resp[0].Notify?)
  }

  /** raw answers the request (sa, msgID, req), with what was installed or cut over to. */
  ghost predicate Replies(w: World, sa: IkeSa, msgID: uint32, req: seq<Payload>, raw: Datagram, update: Option<ChildUpdate>, cut: Option<IkeKeys>)
    requires Sound(w)
  {
    && raw.sa == sa.id && raw.msgID == msgID && raw.response
    && (if update.Some? then cut.None? && ChildAccepted(w, sa.keys, req, update.value, raw.inner)
        else if cut.Some? then IkeAccepted(w, sa.keys, req, cut.value, raw.inner)
        else Refusal(raw.inner))
  }

  /** The effects of processing one request, before it is entered in the history. */
  ghost predicate Effects(w: World, s: State, t: State, sa: IkeSa, msgID: uint32, req: seq<Payload>)
    requires Sound(w)
  {
    && s.log.requests <= t.log.requests && t.log.root == s.log.root
    && t.log.handled == s.log.handled && t.log.completed == s.log.completed && t.log.rekeyed == s.log.rekeyed
    && (if |t.log.answers| <= |s.log.answers|
        then t.log.answers == s.log.answers && t.log.installs == s.log.installs && SlotsKept(s, t)
        else
          var raw := t.log.answers[|t.log.answers| - 1].resp;
          && t.log.answers == s.log.answers + [Answer(sa.id, msgID, raw)]
          && (t.log.installs == s.log.installs || (|t.log.installs| == |s.log.installs| + 1 && s.log.installs <= t.log.installs))
          && (SlotsKept(s, t) || CutOver(s, t))
          && Replies(w, sa, msgID, req, raw,
                     if |t.log.installs| > |s.log.installs| then Some(t.log.installs[|s.log.installs|]) else None,
                     if |t.log.swaps| > |s.log.swaps| then Some(t.ike.cur.keys) else None))
  }

  ghost predicate SlotsKept(s: State, t: State) {
    t.log.swaps == s.log.swaps && t.ike.cur == s.ike.cur && t.ike.prior == s.ike.prior && t.ike.priorUntil == s.ike.priorUntil
  }

  ghost predicate CutOver(s: State, t: State) {
    t.log.swaps == s.log.swaps + [t.ike.cur] && t.ike.cur.id == s.ike.cur.id + 1 && t.ike.prior == Some(s.ike.cur)
  }

  lemma ReplyEffects(w: World, s: State, sa: IkeSa, via: bool, exchange: byte, msgID: uint32, req: seq<Payload>, inner: seq<Payload>)
    requires Sound(w) && Refusal(inner)
    ensures var t := Reply(w, s, sa, via, exchange, msgID, inner);
            Effects(w, s, t, sa, msgID, req) && t.log.triggers == s.log.triggers
    ensures |Reply(w, s, sa, via, exchange, msgID, inner).log.answers| > |s.log.answers| <==> w.encodes(s.pos)
  {
    hide ChildAccepted, IkeAccepted;
  }

  lemma HandleChildEffects(w: World, s: State, now: int, sa: IkeSa, via: bool, msgID: uint32, req: seq<Payload>)
    requires Sound(w)
    ensures var t := HandleChild(w, s, now, sa, via, msgID, req);
            Effects(w, s, t, sa, msgID, req) && t.log.triggers == s.log.triggers
    ensures |HandleChild(w, s, now, sa, via, msgID, req).log.answers| > |s.log.answers| <==> w.encodes(s.pos)
  {
    hide AnswerChild, Reply, IkeAccepted;
    var t := HandleChild(w, s, now, sa, via, msgID, req);
    if s.child.sa.None? {
      ReplyEffects(w, s, sa, via, EXCHANGE_CREATE_CHILD_SA, msgID, req, [Notice(PROTOCOL_ESP, NOTIFY_CHILD_SA_NOT_FOUND)]);
    } else {
      ChildAnswerAnnounces(w.c, sa.keys.skd, s.child.sa.value.inSPI, w.esp, w.v6, req, w.privs(s.pos), w.draws(s.pos));
      var a := AnswerChild(w.c, sa.keys.skd, s.child.sa.value.inSPI, w.esp, w.v6, req, w.privs(s.pos), w.draws(s.pos));
      match a
      case RefuseChild(notify) => ReplyEffects(w, s, sa, via, EXCHANGE_CREATE_CHILD_SA, msgID, req, [notify]);
      case AcceptChild(u, resp, _) =>
        assert Accepts(a, u, resp);
        assert ChildAccepted(w, sa.keys, req, u, resp);
        hide ChildAccepted;
    }
  }

  lemma HandleIkeEffects(w: World, s: State, now: int, msgID: uint32, req: seq<Payload>)
    requires Sound(w)
    ensures var t := HandleIke(w, s, now, msgID, req);
            Effects(w, s, t, s.ike.cur, msgID, req) && t.log.triggers == s.log.triggers
    ensures |HandleIke(w, s, now, msgID, req).log.answers| > |s.log.answers| <==>
            w.encodes(s.pos) || (TakesIke(w, s, req) && w.encodes(s.pos + 1))
  {
    hide AnswerIke, Reply, ChildAccepted;
    var t := HandleIke(w, s, now, msgID, req);
    var sa := s.ike.cur;
    IkeAnswerAnnounces(w.c, sa.keys.skd, w.ike, req, w.privs(s.pos), w.draws(s.pos));
    var a := AnswerIke(w.c, sa.keys.skd, w.ike, req, w.privs(s.pos), w.draws(s.pos));
    match a
    case RefuseIke(notify) => ReplyEffects(w, s, sa, false, EXCHANGE_CREATE_CHILD_SA, msgID, req, [notify]);
    case AcceptIke(keys, resp, _) =>
      assert AcceptsIke(a, keys, resp);
      assert IkeAccepted(w, sa.keys, req, keys, resp);
      hide IkeAccepted;
      if !w.encodes(s.pos) {
        ReplyEffects(w, Bump(s), sa, false, EXCHANGE_CREATE_CHILD_SA, msgID, req, [TEMPORARY_FAILURE]);
      }
  }

  /** The IKE rekey request is one we accept, so a failed encoding gets a second try. */
  ghost predicate TakesIke(w: World, s: State, req: seq<Payload>)
    requires Sound(w)
  {
    AnswerIke(w.c, s.ike.cur.keys.skd, w.ike, req, w.privs(s.pos), w.draws(s.pos)).AcceptIke?
  }

  // ----- one request -----

  /** The guard on which an answer depends: whether the encoding it needs succeeds. */
  ghost predicate Answerable(w: World, s: State, now: int, via: bool, exchange: byte, inner: seq<Payload>)
    requires Sound(w)
  {
    if exchange == EXCHANGE_CREATE_CHILD_SA then
      w.encodes(s.pos) || (!Rekeying(s) && !via && IsIkeRekey(inner) && TakesIke(w, s, inner) && w.encodes(s.pos + 1))
    else w.encodes(HandleDeletes(w, s, now, inner).pos)
  }

  ghost predicate Rekeying(s: State) {
    s.win.pending.Some? && s.win.pending.value.kind.Rekeys()
  }

  lemma HandleCreateEffects(w: World, s: State, now: int, sa: IkeSa, via: bool, msgID: uint32, inner: seq<Payload>)
    requires Sound(w) && (!via ==> sa == s.ike.cur)
    ensures var t := HandleCreate(w, s, now, sa, via, msgID, inner);
            Effects(w, s, t, sa, msgID, inner) && t.log.triggers == s.log.triggers
    ensures |HandleCreate(w, s, now, sa, via, msgID, inner).log.answers| > |s.log.answers| <==>
            Answerable(w, s, now, via, EXCHANGE_CREATE_CHILD_SA, inner)
  {
    hide Effects, Reply, HandleIke, HandleChild, IsIkeRekey, TakesIke;
    if Rekeying(s) || (IsIkeRekey(inner) && via) {
      ReplyEffects(w, s, sa, via, EXCHANGE_CREATE_CHILD_SA, msgID, inner, [TEMPORARY_FAILURE]);
    } else if IsIkeRekey(inner) {
      HandleIkeEffects(w, s, now, msgID, inner);
    } else {
      HandleChildEffects(w, s, now, sa, via, msgID, inner);
    }
  }

  lemma HandleInformationalEffects(w: World, s: State, now: int, sa: IkeSa, via: bool, msgID: uint32, inner: seq<Payload>)
    requires Sound(w)
    ensures var t := HandleInformational(w, s, now, sa, via, msgID, inner);
            && Effects(w, s, t, sa, msgID, inner) && t.log.triggers == s.log.triggers + Named(inner, s.child.sa)
            && t.log.installs == s.log.installs && t.log.swaps == s.log.swaps && t.child.sa == s.child.sa
    ensures |HandleInformational(w, s, now, sa, via, msgID, inner).log.answers| > |s.log.answers| <==>
            Answerable(w, s, now, via, EXCHANGE_INFORMATIONAL, inner)
  {
    hide HandleDeletes, Named, ChildAccepted, IkeAccepted;
    HandleDeletesTrigger(w, s, now, inner);
    ReplyEffects(w, HandleDeletes(w, s, now, inner), sa, via, EXCHANGE_INFORMATIONAL, msgID, inner, []);
  }

  /** The history entry of one processed request, and what it did. */
  ghost predicate Entry(w: World, s: State, t: State, h: Handled, now: int, sa: IkeSa, via: bool, exchange: byte, msgID: uint32, inner: seq<Payload>)
    requires Sound(w)
  {
    && h.sa == sa && h.exchange == exchange && h.msgID == msgID && h.inner == inner
    && h.named == (if exchange == EXCHANGE_INFORMATIONAL then Named(inner, s.child.sa) else 0)
    && h.triggers == h.named && t.log.triggers == s.log.triggers + h.named
    && h.installs == (if h.update.Some? then 1 else 0)
    && s.log.requests <= t.log.requests && t.log.root == s.log.root
    && t.log.completed == s.log.completed && t.log.rekeyed == s.log.rekeyed
    && t.log.installs == s.log.installs + (if h.update.Some? then [h.update.value] else [])
    && t.log.answers == s.log.answers + (if h.resp.Some? then [Answer(sa.id, msgID, h.resp.value)] else [])
    && h.swaps == (if h.cut.Some? then 1 else 0)
    && (if h.cut.Some? then CutOver(s, t) && t.ike.cur.keys == h.cut.value else SlotsKept(s, t))
    && (h.resp.None? ==> h.installs == 0 && h.swaps == 0)
    && (h.resp.Some? ==> Replies(w, sa, msgID, inner, h.resp.value, h.update, h.cut))
    && (h.resp.Some? <==> Answerable(w, s, now, via, exchange, inner))
  }

  lemma NoteEntry(w: World, s: State, t: State, now: int, sa: IkeSa, via: bool, exchange: byte, msgID: uint32, inner: seq<Payload>)
    requires Sound(w) && Effects(w, s, t, sa, msgID, inner)
    requires t.log.triggers == s.log.triggers + if exchange == EXCHANGE_INFORMATIONAL then Named(inner, s.child.sa) else 0
    requires |t.log.answers| > |s.log.answers| <==> Answerable(w, s, now, via, exchange, inner)
    ensures var r := Note(s, t, sa, exchange, msgID, inner); var n := |s.log.handled|;
            && r == t.(log := r.log) && |r.log.handled| == n + 1 && r.log.handled[..n] == s.log.handled
            && Entry(w, s, r, r.log.handled[n], now, sa, via, exchange, msgID, inner)
  {
    hide Named, Replies, Answerable;
  }

  lemma HandleRequestEntry(w: World, s: State, now: int, sa: IkeSa, via: bool, exchange: byte, msgID: uint32, inner: seq<Payload>)
    requires Sound(w) && (!via ==> sa == s.ike.cur)
    requires exchange == EXCHANGE_INFORMATIONAL || exchange == EXCHANGE_CREATE_CHILD_SA
    requires !Duplicate(Slot(s, via), msgID)
    ensures var t, n := HandleRequest(w, s, now, sa, via, exchange, msgID, inner).0, |s.log.handled|;
            && |t.log.handled| == n + 1 && t.log.handled[..n] == s.log.handled
            && Entry(w, s, t, t.log.handled[n], now, sa, via, exchange, msgID, inner)
            && (exchange == EXCHANGE_INFORMATIONAL ==> t.child.sa == s.child.sa && t.log.handled[n].swaps == 0)
  {
    hide Effects, HandleCreate, HandleInformational, Named, Answerable, Replies, Teardown;
    if exchange == EXCHANGE_CREATE_CHILD_SA {
      HandleCreateEffects(w, s, now, sa, via, msgID, inner);
      NoteEntry(w, s, HandleCreate(w, s, now, sa, via, msgID, inner), now, sa, via, exchange, msgID, inner);
    } else {
      HandleInformationalEffects(w, s, now, sa, via, msgID, inner);
      NoteEntry(w, s, HandleInformational(w, s, now, sa, via, msgID, inner), now, sa, via, exchange, msgID, inner);
    }
  }

  // ----- one response -----

  /** A response answers nobody; at most it completes the pending rekey it matches. */
  ghost predicate Concludes(w: World, s: State, t: State, exchange: byte, via: bool, msgID: uint32, inner: seq<Payload>)
    requires Sound(w)
  {
    && s.log.requests <= t.log.requests && t.log.root == s.log.root && t.log.triggers == s.log.triggers
    && t.log.handled == s.log.handled && t.log.answers == s.log.answers && s.log.installs <= t.log.installs
    && (SlotsKept(s, t) || CutOver(s, t))
    && (t.log.completed == s.log.completed
        || (&& exchange == EXCHANGE_CREATE_CHILD_SA && !via && s.win.pending.Some? && s.win.pending.value.msgID == msgID
            && s.win.pending.value.kind.ChildRekey?
            && var ctx := s.win.pending.value.kind.child;
               var done := CompleteChild(w.c, s.ike.cur.keys.skd, ctx, w.esp, inner);
               done.Ok? && t.log.completed == s.log.completed + [Completion(s.ike.cur, msgID, ctx, inner, done.value)]))
    && (t.log.rekeyed == s.log.rekeyed
        || (&& exchange == EXCHANGE_CREATE_CHILD_SA && !via && s.win.pending.Some? && s.win.pending.value.msgID == msgID
            && s.win.pending.value.kind.IkeRekey?
            && var ctx := s.win.pending.value.kind.ike;
               var done := CompleteIke(w.c, s.ike.cur.keys.skd, ctx, w.ike, inner);
               done.Ok? && t.log.rekeyed == s.log.rekeyed + [Cutover(s.ike.cur, msgID, ctx, inner, done.value)]))
  }

  lemma FinishIkeConcludes(w: World, s: State, now: int, ctx: IkeCtx, inner: seq<Payload>)
    requires Sound(w)
    ensures var t := FinishIke(w, s, now, ctx, inner);
            && s.log.requests <= t.log.requests && t.log.root == s.log.root && t.log.triggers == s.log.triggers
            && t.log.handled == s.log.handled && t.log.answers == s.log.answers && t.log.installs == s.log.installs
            && t.log.completed == s.log.completed && t.log.rekeyed == s.log.rekeyed
            && var done := CompleteIke(w.c, s.ike.cur.keys.skd, ctx, w.ike, inner);
               if done.Ok? then CutOver(s, t) && t.ike.cur.keys == done.value else SlotsKept(s, t)
  {
    hide CompleteIke;
  }

  lemma FinishChildConcludes(w: World, s: State, now: int, ctx: ChildCtx, inner: seq<Payload>)
    requires Sound(w)
    ensures var t := FinishChild(w, s, now, ctx, inner).0;
            var done := CompleteChild(w.c, s.ike.cur.keys.skd, ctx, w.esp, inner);
            && s.log.requests <= t.log.requests && t.log.root == s.log.root && t.log.triggers == s.log.triggers
            && t.log.handled == s.log.handled && t.log.answers == s.log.answers
            && t.log.completed == s.log.completed && t.log.rekeyed == s.log.rekeyed
            && t.log.installs == s.log.installs + (if done.Ok? then [done.value] else []) && SlotsKept(s, t)
  {
    hide CompleteChild;
  }

  lemma HandleResponseConcludes(w: World, s: State, now: int, via: bool, exchange: byte, msgID: uint32, inner: seq<Payload>)
    requires Sound(w)
    ensures Concludes(w, s, HandleResponse(w, s, now, via, exchange, msgID, inner), exchange, via, msgID, inner)
  {
    hide FinishChild, FinishIke, CompleteChild, CompleteIke;
    if s.win.pending.Some? && s.win.pending.value.kind.Rekeys() {
      var s0 := s.(win := s.win.(pending := None));
      match s.win.pending.value.kind
      case ChildRekey(ctx) => FinishChildConcludes(w, s0, now, ctx, inner);
      case IkeRekey(ctx) => FinishIkeConcludes(w, s0, now, ctx, inner);
    }
  }

  // ----- one tick -----

  lemma BeginStill(w: World, s: State, now: int, volume: uint32, lastData: Option<int>)
    ensures Still(s, Begin(w, s, now, volume, lastData))
  {
    hide InitiateDpd, InitiateChild, InitiateIke;
    InitiateStill(w, s, now, true);
    InitiateStill(w, s, now, false);
    InitiateStill(w, s.(win := s.win.(fastDue := false)), now, true);
    InitiateStill(w, s.(timers := s.timers.(nextVolume := Some(now + RETRY))), now, false);
    InitiateStill(w, s.(timers := s.timers.(nextIke := Some(now + RETRY))), now, false);
    InitiateStill(w, s.(timers := s.timers.(nextChild := Some(now + RETRY))), now, false);
  }

  lemma DetectSuspendStill(w: World, s: State, now: int, wall: int)
    ensures Still(s, DetectSuspend(w, s, now, wall))
  {
    hide InitiateDpd;
    InitiateStill(w, s.(timers := s.timers.(lastTick := Some(wall))), now, true);
  }

  lemma RetryOldDeleteStill(w: World, s: State, now: int)
    ensures Still(s, RetryOldDelete(w, s, now))
  {
    hide Backoff.Delay;
  }

  lemma RetryPendingStill(w: World, s: State, now: int)
    requires s.win.pending.Some?
    ensures Still(s, RetryPending(w, s, now).0)
  {
    hide Wait;
  }

  /** A tick may add a request; beyond that it only lets the grace period run out. */
  lemma HousekeepingStill(w: World, s: State, now: int, wall: int, volume: uint32, lastData: Option<int>)
    ensures var t := Housekeeping(w, s, now, wall, volume, lastData).0;
            && t.ike.cur == s.ike.cur && t.child.sa == s.child.sa && SameTale(s, t) && t.log.triggers == s.log.triggers
            && ((t.ike.prior == s.ike.prior && t.ike.priorUntil == s.ike.priorUntil)
                || (t.ike.prior.None? && s.ike.prior.Some? && now > s.ike.priorUntil))
  {
    hide DetectSuspend, RetryOldDelete, RetryPending, Begin;
    DetectSuspendStill(w, s, now, wall);
    var s1 := ExpireGrace(DetectSuspend(w, s, now, wall), now);
    RetryOldDeleteStill(w, s1, now);
    var s2 := RetryOldDelete(w, s1, now);
    if s2.win.pending.Some? {
      RetryPendingStill(w, s2, now);
    }
    BeginStill(w, s2, now, volume, lastData);
  }

  // ----- one step -----

  /** What each kind of event does to the history. */
  lemma StepTale(w: World, s: State, e: Event)
    requires Sound(w)
    ensures var t := Step(w, s, e).0;
            && s.log.requests <= t.log.requests && t.log.root == s.log.root && s.log.installs <= t.log.installs
            && (SlotsKept(s, t) || CutOver(s, t)
                || (t.log.swaps == s.log.swaps && t.ike.cur == s.ike.cur && t.ike.prior.None?
                    && e.Tick? && s.ike.prior.Some? && e.now > s.ike.priorUntil))
            && (Hears(s, e) || (t.log.handled == s.log.handled && t.log.answers == s.log.answers))
            && ((e.Inbound? && e.response && e.sa == s.ike.cur.id)
                || (t.log.completed == s.log.completed && t.log.rekeyed == s.log.rekeyed))
  {
    hide HandleRequest, HandleResponse, Housekeeping, CompleteChild, CompleteIke, Entry;
    match e
    case Tick(now, wall, volume, lastData) => HousekeepingStill(w, Bump(s), now, wall, volume, lastData);
    case Inbound(now, sa, exchange, response, msgID, inner) =>
      var dec := Decoder(s, now, sa);
      if dec.Some? && (exchange == EXCHANGE_INFORMATIONAL || exchange == EXCHANGE_CREATE_CHILD_SA) {
        var s0 := Bump(s).(timers := s.timers.(lastInbound := now));
        if response {
          HandleResponseConcludes(w, s0, now, dec.value.1, exchange, msgID, inner);
        } else if Hears(s, e) {
          HearsEntry(w, s, e);
          EntryTale(w, s0, Step(w, s, e).0, e, dec.value.0, dec.value.1);
        } else {
          assert Step(w, s, e).0 == HandleRequest(w, s0, now, dec.value.0, dec.value.1, exchange, msgID, inner).0;
          DuplicateStill(w, s0, now, dec.value.0, dec.value.1, exchange, msgID, inner);
        }
      }
  }

  lemma DuplicateStill(w: World, s: State, now: int, sa: IkeSa, via: bool, exchange: byte, msgID: uint32, inner: seq<Payload>)
    requires Sound(w) && Duplicate(Slot(s, via), msgID)
    ensures Still(s, HandleRequest(w, s, now, sa, via, exchange, msgID, inner).0)
  {}

  lemma EntryTale(w: World, s: State, t: State, e: Event, sa: IkeSa, via: bool)
    requires Sound(w) && e.Inbound? && |t.log.handled| > |s.log.handled|
    requires Entry(w, s, t, t.log.handled[|s.log.handled|], e.now, sa, via, e.exchange, e.msgID, e.inner)
    ensures s.log.requests <= t.log.requests && t.log.root == s.log.root && s.log.installs <= t.log.installs
    ensures (SlotsKept(s, t) || CutOver(s, t)) && t.log.completed == s.log.completed && t.log.rekeyed == s.log.rekeyed
  {
    hide Replies, Answerable, Named;
  }

  /** The event is a peer request that gets processed. */
  ghost predicate Hears(s: State, e: Event) {
    && e.Inbound? && !e.response && (e.exchange == EXCHANGE_INFORMATIONAL || e.exchange == EXCHANGE_CREATE_CHILD_SA)
    && Decoder(s, e.now, e.sa).Some? && !Duplicate(Slot(s, Decoder(s, e.now, e.sa).value.1), e.msgID)
  }

  /** The state a datagram is handled in. */
  function Heard(s: State, now: int): State {
    Bump(s).(timers := s.timers.(lastInbound := now))
  }

  lemma HearsEntry(w: World, s: State, e: Event)
    requires Sound(w) && Hears(s, e)
    ensures var t, n, dec := Step(w, s, e).0, |s.log.handled|, Decoder(s, e.now, e.sa).value;
            && |t.log.handled| == n + 1 && t.log.handled[..n] == s.log.handled
            && Entry(w, Heard(s, e.now), t, t.log.handled[n], e.now, dec.0, dec.1, e.exchange, e.msgID, e.inner)
            && (e.exchange == EXCHANGE_INFORMATIONAL ==> t.child.sa == s.child.sa && t.log.handled[n].swaps == 0)
  {
    hide HandleRequest, Entry;
    var dec := Decoder(s, e.now, e.sa).value;
    HandleRequestEntry(w, Heard(s, e.now), e.now, dec.0, dec.1, e.exchange, e.msgID, e.inner);
  }

  lemma AnswerConcludes(w: World, s: State, e: Event)
    requires Sound(w) && e.Inbound? && e.response && e.sa == s.ike.cur.id
    ensures Concludes(w, Heard(s, e.now), Step(w, s, e).0, e.exchange, false, e.msgID, e.inner)
  {
    hide HandleResponse, CompleteChild, CompleteIke;
    HandleResponseConcludes(w, Heard(s, e.now), e.now, false, e.exchange, e.msgID, e.inner);
  }
}
