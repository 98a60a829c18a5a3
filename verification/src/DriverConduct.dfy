/** Over whole runs: what ends a session, what it ever asks of its peer, and which SA it
    deletes after a rekey. */
module DriverConduct {
  import opened Bytes
  import opened IkeMsg
  import opened Rekey
  import opened RekeyContents
  import opened Driver
  import opened DriverInv
  import opened DriverFrame
  import opened DriverTrace
  import opened DriverTicks
  import opened DriverEvents
  import opened DriverTheorems
  import BodyCodec

  // ----- the end -----

  /** The k-th event is the one that ends the run. */
  ghost predicate EndsAt(w: World, s0: State, es: seq<Event>, k: nat)
    requires Sound(w) && k < |es|
  {
    !Run(w, s0, es[..k]).1 && Ends(w, Run(w, s0, es[..k]).0, es[k])
  }

  /** A run has stopped, with the peer reported dead once, exactly when one of its events was
      a processed DELETE of the current IKE SA or the tick that gave up a probe. */
  lemma EndedExactly(w: World, s0: State, es: seq<Event>)
    requires Sound(w) && Start(s0)
    ensures Run(w, s0, es).1 <==> exists k :: 0 <= k < |es| && EndsAt(w, s0, es, k)
    ensures Run(w, s0, es).0.log.deaths == if exists k :: 0 <= k < |es| && EndsAt(w, s0, es, k) then 1 else 0
  {
    hide Inv, Start, EndsAt;
    StoppedExactly(w, s0, es);
    ReachedInv(w, s0, es, Run(w, s0, es).0);
  }

  lemma {:induction false} StoppedExactly(w: World, s0: State, es: seq<Event>)
    requires Sound(w)
    ensures Run(w, s0, es).1 <==> exists k :: 0 <= k < |es| && EndsAt(w, s0, es, k)
    decreases es
  {
    hide Step, Ends;
    if es != [] {
      var n := |es| - 1;
      var rest := es[..n];
      StoppedExactly(w, s0, rest);
      forall k | 0 <= k < n
        ensures EndsAt(w, s0, es, k) <==> EndsAt(w, s0, rest, k)
      {
        assert rest[..k] == es[..k];
      }
      StopsExactly(w, Run(w, s0, rest).0, es[n]);
      assert EndsAt(w, s0, es, n) <==> !Run(w, s0, rest).1 && Step(w, Run(w, s0, rest).0, es[n]).1;
    }
  }

  // ----- the deletion after a rekey -----

  /** In any run: when a response completes a Child rekey that is no re-establishment, and
      old and new SPI differ, what goes out next, if it can be encoded, is the deletion of
      exactly the SPI that was live until then and that the last installed update replaces;
      it is not the live one. */
  lemma ReplacedIsDeleted(w: World, s0: State, es: seq<Event>, s: State, e: Event)
    requires Sound(w) && Reached(w, s0, es, s) && e.Inbound? && e.response && e.exchange == 36 && UnderCurrent(s, e)
    requires Awaited(s, e) && s.win.pending.value.kind.ChildRekey? && !s.win.pending.value.kind.child.reestablish
    ensures var t, n := Step(w, s, e).0, |s.log.installs|;
            |t.log.installs| > n && t.log.installs[n].newInSPI != t.log.installs[n].oldInSPI && w.encodes(s.pos + 1) ==>
              && |t.log.installs| == n + 1 && s.child.sa.Some? && t.child.sa.Some?
              && t.log.installs[n].oldInSPI == s.child.sa.value.inSPI && t.log.installs[n].newInSPI == t.child.sa.value.inSPI
              && ChildDeleted(w, s, t, e.now, s.child.sa.value.inSPI) && s.child.sa.value.inSPI != t.child.sa.value.inSPI
  {
    hide Run, Start, Step, CompleteChild, ChildDeleted;
    ChildChain(w, s0, es, s);
    ChildConcluded(w, s, e);
    CompletedReplaces(w.c, s.ike.cur.keys.skd, s.win.pending.value.kind.child, w.esp, e.inner);
  }

  // ----- everything it ever asks -----

  /** The deletion that follows the completed rekey k. */
  predicate Tidies(inner: seq<Payload>, k: Completion) {
    && !k.ctx.reestablish && k.update.oldInSPI != k.update.newInSPI
    && |inner| == 1 && inner[0].Delete? && inner[0].protocol == 3
    && |inner[0].spis| == 1 && |inner[0].spis[0]| == 4 && U32(inner[0].spis[0]) == k.update.oldInSPI
  }

  ghost predicate AskedChild(w: World, inner: seq<Payload>) {
    exists spi, rekeyed, ni, dh :: AsksForChild(w.c, inner, spi, rekeyed, ni, dh, w.esp, w.v6)
  }

  ghost predicate AskedIke(w: World, inner: seq<Payload>) {
    exists spi, ni, dh :: AsksForIke(w.c, inner, spi, ni, dh, w.ike)
  }

  /** A probe, a deletion of the IKE SA that carries it, a Child or IKE rekey, or the
      deletion of the SPI a completed rekey of ours replaced. */
  ghost predicate Proper(w: World, completed: seq<Completion>, d: Datagram) {
    || (d.exchange == 37 && (d.inner == [] || d.inner == [Delete(1, [])]))
    || (d.exchange == 36 && (AskedChild(w, d.inner) || AskedIke(w, d.inner)))
    || (d.exchange == 37 && exists k :: 0 <= k < |completed| && Tidies(d.inner, completed[k]))
  }

  ghost predicate AllProper(w: World, log: Log) {
    forall i :: 0 <= i < |log.requests| ==> Proper(w, log.completed, log.requests[i].d)
  }

  /** At most one more request, and a proper one. */
  ghost predicate Asks1(w: World, s: State, t: State) {
    || t.log.requests == s.log.requests
    || (|t.log.requests| == |s.log.requests| + 1 && t.log.requests[..|s.log.requests|] == s.log.requests
        && Proper(w, t.log.completed, t.log.requests[|s.log.requests|].d))
  }

  lemma ProperLater(w: World, l: seq<Completion>, m: seq<Completion>, d: Datagram)
    requires Proper(w, l, d) && l <= m
    ensures Proper(w, m, d)
  {
    hide AskedChild, AskedIke, Tidies;
    if k :| 0 <= k < |l| && Tidies(d.inner, l[k]) {
      assert m[k] == l[k];
    }
  }

  lemma BegunIsProper(w: World, s: State, t: State, now: int, k: Task)
    requires Begun(w, s, t, now, k)
    ensures Asks1(w, s, t)
  {
    hide AsksForChild, AsksForIke;
    var p := t.win.pending.value;
    if p.kind.ChildRekey? {
      assert AskedChild(w, p.raw.inner);
    } else if p.kind.IkeRekey? {
      assert AskedIke(w, p.raw.inner);
    }
  }

  lemma TickAsks(w: World, s: State, e: Event)
    requires Sound(w) && e.Tick?
    ensures Asks1(w, s, Step(w, s, e).0)
  {
    hide Step, Begun, Turn, Works, Asks1;
    var t := Step(w, s, e).0;
    if Awake(s, e) && s.win.pending.None? {
      var k := SomeTurn(w, s, e);
      TickStarts(w, s, e, k);
      if !Unasked(s, t) {
        BegunIsProper(w, s, t, e.now, k);
      } else {
        NothingAsked(w, s, t);
      }
    } else if Awake(s, e) {
      PendingTick(w, s, e);
      NothingAsked(w, s, t);
    } else {
      WokenAsks(w, s, e);
    }
  }

  lemma NothingAsked(w: World, s: State, t: State)
    ensures t.log.requests == s.log.requests ==> Asks1(w, s, t)
  {}

  lemma WokenAsks(w: World, s: State, e: Event)
    requires Sound(w) && e.Tick? && !Awake(s, e)
    ensures Asks1(w, s, Step(w, s, e).0)
  {
    if s.win.pending.Some? || w.encodes(s.pos + 1) {
      hide Step;
      WokenTick(w, s, e);
    } else {
      WokenMuteAsks(w, s, e);
    }
  }

  /** The fast probe could not be encoded, so the window is still free. */
  lemma WokenMuteAsks(w: World, s: State, e: Event)
    requires Sound(w) && e.Tick? && !Awake(s, e) && s.win.pending.None? && !w.encodes(s.pos + 1)
    ensures Asks1(w, s, Step(w, s, e).0)
  {
    hide Begin, RetryOldDelete, InitiateDpd, Begun, Turn, Works, Proper, Rearmed;
    var s0 := Bump(s).(timers := s.timers.(lastTick := Some(e.wall)));
    ProbeBegins(w, s0, e.now, true);
    var s1 := ExpireGrace(DetectSuspend(w, Bump(s), e.now, e.wall), e.now);
    OldDeleteAside(w, s1, e.now);
    var s2 := RetryOldDelete(w, s1, e.now);
    var k := SomeTurn(w, s2, e);
    BeginStarts(w, s2, e, k);
    if !Unasked(s2, Begin(w, s2, e.now, e.volume, e.lastData)) {
      BegunIsProper(w, s2, Begin(w, s2, e.now, e.volume, e.lastData), e.now, k);
    }
  }

  lemma ResponseAsks(w: World, s: State, e: Event)
    requires Sound(w) && e.Inbound? && e.response && (UnderCurrent(s, e) || UnderPrior(s, e))
    ensures Asks1(w, s, Step(w, s, e).0)
  {
    hide Step, CompleteChild, CompleteIke, AskedChild, AskedIke;
    if e.exchange == 37 {
      Acknowledged(w, s, e);
    } else if !(e.exchange == 36 && UnderCurrent(s, e) && Awaited(s, e) && s.win.pending.value.kind.Rekeys()) {
      Unawaited(w, s, e);
    } else if s.win.pending.value.kind.IkeRekey? {
      IkeConcluded(w, s, e);
      IkeAsks(w, s, e);
    } else {
      ChildConcludedAsks(w, s, e);
    }
  }

  lemma IkeAsks(w: World, s: State, e: Event)
    requires Sound(w) && e.Inbound? && e.response && UnderCurrent(s, e)
    ensures s.log.requests <= Step(w, s, e).0.log.requests
  {
    hide Step, Hears;
    StepTale(w, s, e);
  }

  lemma ChildConcludedAsks(w: World, s: State, e: Event)
    requires Sound(w) && e.Inbound? && e.response && e.exchange == 36 && UnderCurrent(s, e)
    requires Awaited(s, e) && s.win.pending.value.kind.ChildRekey?
    ensures Asks1(w, s, Step(w, s, e).0)
  {
    hide Step, CompleteChild, AskedChild, AskedIke;
    ChildConcluded(w, s, e);
    AnswerConcludes(w, s, e);
    var t, ctx := Step(w, s, e).0, s.win.pending.value.kind.child;
    CompletedReplaces(w.c, s.ike.cur.keys.skd, ctx, w.esp, e.inner);
    if t.log.requests != s.log.requests {
      CompletionNoted(w, s, e);
      var m := |s.log.completed|;
      assert Tidies(t.log.requests[|s.log.requests|].d.inner, t.log.completed[m]);
    }
  }

  lemma CompletionNoted(w: World, s: State, e: Event)
    requires Sound(w) && e.Inbound? && e.response && e.exchange == 36 && UnderCurrent(s, e)
    requires Awaited(s, e) && s.win.pending.value.kind.ChildRekey?
    ensures var t, ctx := Step(w, s, e).0, s.win.pending.value.kind.child;
            var done := CompleteChild(w.c, s.ike.cur.keys.skd, ctx, w.esp, e.inner);
            done.Ok? ==> t.log.completed == s.log.completed + [Completion(s.ike.cur, e.msgID, ctx, e.inner, done.value)]
  {
    hide CompleteChild, FinishChild;
    var s0 := Heard(s, e.now).(win := s.win.(pending := None));
    FinishChildConcludes(w, s0, e.now, s.win.pending.value.kind.child, e.inner);
  }

  lemma RequestAsks(w: World, s: State, e: Event)
    requires Sound(w) && e.Inbound? && !e.response
    ensures Asks1(w, s, Step(w, s, e).0)
  {
    hide Step, Proper;
    if !Heeded(s, e) {
      UnheededAsks(w, s, e);
    } else if e.exchange == 36 {
      CreateAsks(w, s, e);
    } else {
      InformationalAsks(w, s, e);
    }
  }

  lemma InformationalAsks(w: World, s: State, e: Event)
    requires Sound(w) && Heeded(s, e) && e.exchange == 37
    ensures Asks1(w, s, Step(w, s, e).0)
  {
    hide Step, HandleDeletes, Proper;
    HeededStep(w, s, e);
    HeededCompletes(w, s, e);
    var s0 := Heard(s, e.now);
    DeletesAsk(w, s0, e.now, e.inner);
    var s1 := HandleDeletes(w, s0, e.now, e.inner);
    ReplyMoves(w, s1, SaOf(s, e), e.sa != s.ike.cur.id, e.msgID);
  }

  lemma HeededCompletes(w: World, s: State, e: Event)
    requires Sound(w) && Heeded(s, e)
    ensures Step(w, s, e).0.log.completed == s.log.completed
  {
    hide Step, Hears;
    HeededIsHeard(s, e);
    StepTale(w, s, e);
  }

  lemma CreateAsks(w: World, s: State, e: Event)
    requires Sound(w) && Heeded(s, e) && e.exchange == 36
    ensures Step(w, s, e).0.log.requests == s.log.requests
  {
    hide Step, AnswerChild, AnswerIke, Reply;
    HeededStep(w, s, e);
    var s0, sa, via := Heard(s, e.now), SaOf(s, e), e.sa != s.ike.cur.id;
    forall s1: State, inner
      ensures Reply(w, s1, sa, via, 36, e.msgID, inner).log.requests == s1.log.requests
    {
      ReplyKeepsRequests(w, s1, sa, via, e.msgID, inner);
    }
    forall s1: State, inner
      ensures Reply(w, s1, sa, false, 36, e.msgID, inner).log.requests == s1.log.requests
    {
      ReplyKeepsRequests(w, s1, sa, false, e.msgID, inner);
    }
  }

  lemma ReplyKeepsRequests(w: World, s: State, sa: IkeSa, via: bool, msgID: uint32, inner: seq<Payload>)
    ensures Reply(w, s, sa, via, 36, msgID, inner).log.requests == s.log.requests
  {}

  lemma UnheededAsks(w: World, s: State, e: Event)
    requires Sound(w) && e.Inbound? && !e.response && !Heeded(s, e)
    ensures Asks1(w, s, Step(w, s, e).0)
  {
    hide HandleCreate, HandleInformational, Proper;
  }

  /** Several deletions in one request still lead to at most one request of ours. */
  lemma {:induction false} DeletesAsk(w: World, s: State, now: int, inner: seq<Payload>)
    requires Sound(w)
    ensures var t := HandleDeletes(w, s, now, inner);
            && Asks1(w, s, t) && t.log.completed == s.log.completed
            && (t.log.requests != s.log.requests ==> t.win.pending.Some?)
    decreases inner
  {
    hide HandleDelete, Proper, Sound;
    if inner != [] {
      var q := HandleDeletes(w, s, now, inner[..|inner| - 1]);
      DeletesAsk(w, s, now, inner[..|inner| - 1]);
      DeleteAsks(w, q, now, inner[|inner| - 1]);
    }
  }

  lemma DeleteAsks(w: World, s: State, now: int, p: Payload)
    requires Sound(w)
    ensures var t := HandleDelete(w, s, now, p);
            && Asks1(w, s, t) && t.log.completed == s.log.completed
            && (s.win.pending.Some? ==> t.log.requests == s.log.requests && t.win == s.win)
            && (t.log.requests != s.log.requests ==> t.win.pending.Some?)
  {
    hide InitiateChild, RefsChild, BodyCodec.SpiSize, AsksForChild, Sound, Proper;
    var s0 := s.(log := s.log.(need := true, lost := false, triggers := s.log.triggers + 1));
    InitiateStill(w, s0, now, true);
    ChildBegins(w, s0, now, true);
    var a := InitiateChild(w, s0, now, true).0;
    if !Unasked(s0, a) {
      BegunIsProper(w, s0, a, now, Reestablishment);
    }
  }

  lemma StepAsks(w: World, s: State, e: Event)
    requires Sound(w)
    ensures Asks1(w, s, Step(w, s, e).0)
  {
    hide Step, Asks1;
    if e.Tick? {
      TickAsks(w, s, e);
    } else if !e.response {
      RequestAsks(w, s, e);
    } else if UnderCurrent(s, e) || UnderPrior(s, e) {
      ResponseAsks(w, s, e);
    } else {
      SignOfLife(w, s, e);
      NothingAsked(w, s, Step(w, s, e).0);
    }
  }

  /** Every request of every run is proper, and an event adds at most one. */
  lemma {:induction false} RequestsProper(w: World, s0: State, es: seq<Event>)
    requires Sound(w) && Start(s0)
    ensures AllProper(w, Run(w, s0, es).0.log)
    decreases es
  {
    hide Step, Proper, Later;
    if es != [] {
      var rest := es[..|es| - 1];
      RequestsProper(w, s0, rest);
      var (s, stopped) := Run(w, s0, rest);
      if !stopped {
        var t := Step(w, s, es[|es| - 1]).0;
        StepAsks(w, s, es[|es| - 1]);
        StepLater(w, s, es[|es| - 1]);
        CompletedGrow(s.log, t.log);
        forall i | 0 <= i < |t.log.requests|
          ensures Proper(w, t.log.completed, t.log.requests[i].d)
        {
          if i < |s.log.requests| {
            assert t.log.requests[i] == s.log.requests[i];
            ProperLater(w, s.log.completed, t.log.completed, s.log.requests[i].d);
          }
        }
      }
    }
  }

  lemma CompletedGrow(l: Log, m: Log)
    requires Later(l, m)
    ensures l.completed <= m.completed
  {}
}
