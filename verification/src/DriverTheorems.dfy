/** What holds in every run of the driver, from any session the handshake leaves and
    under any sequence of authentic datagrams and ticks. */
module DriverTheorems {
  import opened Bytes
  import opened Rekey
  import opened Driver
  import opened DriverInv
  import opened DriverSteps

  /** s is where some run can be. */
  ghost predicate Reached(w: World, s0: State, es: seq<Event>, s: State)
    requires Sound(w)
  {
    Start(s0) && Run(w, s0, es).0 == s
  }

  function FirstSpi(s0: State): uint32 {
    if s0.child.sa.Some? then s0.child.sa.value.inSPI else 0
  }

  lemma ReachedInv(w: World, s0: State, es: seq<Event>, s: State)
    requires Sound(w) && Reached(w, s0, es, s)
    ensures Inv(w, FirstSpi(s0), s)
    ensures s.log.deaths == if Run(w, s0, es).1 then 1 else 0
  {
    hide Run, Inv;
    StartInv(w, s0);
    RunKeeps(w, FirstSpi(s0), s0, es);
  }

  // ----- the request window -----

  /** d requests later under one SA the Message ID is d further on, modulo 2^32. */
  lemma {:induction false} Consecutive(cur: nat, oldDelete: Option<Pending>, win: Window, rs: seq<Request>, i: nat, j: nat)
    requires Windowed(cur, oldDelete, win, rs) && i <= j < |rs|
    ensures rs[i].d.sa <= rs[j].d.sa
    ensures rs[i].d.sa == rs[j].d.sa ==> rs[j].d.msgID == (rs[i].d.msgID + (j - i)) % 0x1_0000_0000
    decreases j
  {
    if i < j {
      Consecutive(cur, oldDelete, win, rs, i, j - 1);
      assert Follows(rs[j - 1].d, rs[j].d.sa, rs[j].d.msgID);
    }
  }

  /** The pending exchange is sealed under the current SA with the last Message ID used;
      requests under one SA are numbered consecutively, so none of 2^32 in a row share a
      number; and none was originated while another under its SA was outstanding. */
  lemma WindowOfOne(w: World, s0: State, es: seq<Event>, s: State)
    requires Sound(w) && Reached(w, s0, es, s)
    ensures s.win.pending.Some? ==>
              var p := s.win.pending.value;
              p.raw.sa == s.ike.cur.id && p.raw.msgID == p.msgID && (p.msgID + 1) % 0x1_0000_0000 == s.win.messageID
    ensures forall i, j :: 0 <= i < j < |s.log.requests| && s.log.requests[i].d.sa == s.log.requests[j].d.sa ==>
              && s.log.requests[j].d.msgID == (s.log.requests[i].d.msgID + (j - i)) % 0x1_0000_0000
              && (j - i < 0x1_0000_0000 ==> s.log.requests[j].d.msgID != s.log.requests[i].d.msgID)
    ensures forall i :: 0 <= i < |s.log.requests| ==> s.log.requests[i].alone
  {
    hide Run, Start, Cached, OnceEach, Announced, CacheBacked, Chained, Young, Tallied, Numbered;
    ReachedInv(w, s0, es, s);
    var rs := s.log.requests;
    forall i, j | 0 <= i < j < |rs| && rs[i].d.sa == rs[j].d.sa
      ensures rs[j].d.msgID == (rs[i].d.msgID + (j - i)) % 0x1_0000_0000
    {
      Consecutive(s.ike.cur.id, s.ike.priorDelete, s.win, rs, i, j);
    }
  }

  // ----- announcements -----

  /** Every rekey response that grants an SA, at its first transmission or any resend,
      went out after the SA it announces was installed or cut over to. */
  lemma AnnouncedInUse(w: World, s0: State, es: seq<Event>, s: State, i: nat)
    requires Sound(w) && Reached(w, s0, es, s) && i < |s.log.sent| && Grants(s.log.sent[i].d)
    ensures var x := s.log.sent[i];
            && x.installs <= |s.log.installs| && x.swaps <= |s.log.swaps| && |x.d.inner[0].proposals| == 1
            && ((exists j :: 0 <= j < x.installs && ChildGrant(x.d.inner[0].proposals[0], s.log.installs[j]))
                || (exists j :: 0 <= j < x.swaps && IkeGrant(x.d.inner[0].proposals[0], s.log.swaps[j].keys)))
  {
    hide Run, Start, Windowed, Cached, OnceEach, CacheBacked, Chained, Young, Tallied, ChildGrant, IkeGrant;
    ReachedInv(w, s0, es, s);
    var x := s.log.sent[i];
    assert BackedSend(x, s.log.installs, s.log.swaps);
    var p := x.d.inner[0].proposals[0];
    if j :| 0 <= j < x.installs && ChildGrant(p, s.log.installs[..x.installs][j]) {
      assert ChildGrant(p, s.log.installs[j]);
    } else {
      var j :| 0 <= j < x.swaps && IkeGrant(p, s.log.swaps[..x.swaps][j].keys);
      assert IkeGrant(p, s.log.swaps[j].keys);
    }
  }

  // ----- the Child SA -----

  /** The Child SAs handed to the data plane form a chain from the handshake's to the
      live one, each can be built, and a pending Child rekey always names the live
      inbound SPI. */
  lemma ChildChain(w: World, s0: State, es: seq<Event>, s: State)
    requires Sound(w) && Reached(w, s0, es, s)
    ensures Linked(FirstSpi(s0), s.log.installs) && forall i :: 0 <= i < |s.log.installs| ==> Buildable(s.log.installs[i])
    ensures s.child.sa.Some? ==> s.child.sa.value.inSPI == Tip(FirstSpi(s0), s.log.installs)
    ensures s.win.pending.Some? && s.win.pending.value.kind.ChildRekey? ==>
              s.child.sa.Some? && s.win.pending.value.kind.child.oldInSPI == s.child.sa.value.inSPI
  {
    hide Run, Start, Windowed, Cached, OnceEach, Announced, CacheBacked, Young, Tallied, Linked, Buildable;
    ReachedInv(w, s0, es, s);
  }

  /** No reply to a re-establishment was rejected along the run. */
  ghost predicate NoRejection(w: World, s0: State, es: seq<Event>)
    requires Sound(w)
  {
    forall k :: 0 <= k < |es| ==> !Rejects(w, Run(w, s0, es[..k]).0, es[k])
  }

  lemma {:induction false} NothingLost(w: World, s0: State, es: seq<Event>)
    requires Sound(w) && Start(s0) && NoRejection(w, s0, es)
    ensures !Run(w, s0, es).0.log.lost
    decreases es
  {
    hide Inv, Step, Rejects;
    if es != [] {
      var rest := es[..|es| - 1];
      forall k | 0 <= k < |rest|
        ensures !Rejects(w, Run(w, s0, rest[..k]).0, rest[k])
      {
        assert rest[..k] == es[..k];
      }
      NothingLost(w, s0, rest);
      ReachedInv(w, s0, rest, Run(w, s0, rest).0);
      StepKeeps(w, FirstSpi(s0), Run(w, s0, rest).0, es[|es| - 1]);
    }
  }

  ghost predicate InHand(s: State) {
    s.child.reestablish || (s.win.pending.Some? && s.win.pending.value.kind.Reestablishes())
  }

  /** From the peer's DELETE of the live Child SA until a fresh one is installed, a
      re-establishment is queued or in flight, through busy windows, failed sends,
      abandonment and cutover. */
  lemma Recovery(w: World, s0: State, es: seq<Event>, s: State)
    requires Sound(w) && Reached(w, s0, es, s) && NoRejection(w, s0, es)
    ensures s.log.need ==> InHand(s)
  {
    hide Run, Start, Core, NoRejection;
    ReachedInv(w, s0, es, s);
    NothingLost(w, s0, es);
  }

  /** And a rejected reply with none queued does end the recovery. */
  lemma RejectionStrands(w: World, s: State, e: Event)
    requires Sound(w) && s.log.need && Rejects(w, s, e)
    ensures var t := Step(w, s, e).0; t.log.need && !InHand(t)
  {
    hide CompleteChild;
  }

  // ----- transmissions -----

  /** No request is transmitted more often than its budget: the configured tries, two for
      a fast probe, and at least two for one a wake-up accelerated. */
  lemma TransmissionsBounded(w: World, s0: State, es: seq<Event>, s: State, i: nat)
    requires Sound(w) && Reached(w, s0, es, s) && i < |s.log.requests|
    ensures var r := s.log.requests[i];
            && (r.probe ==> Count(s.log.sent, r.d) <= FAST_TRIES)
            && (!r.probe && r.d.serial !in s.log.hurried ==> Count(s.log.sent, r.d) <= w.tries)
            && (!r.probe && w.tries >= 2 ==> Count(s.log.sent, r.d) <= w.tries)
            && Count(s.log.sent, r.d) <= Max(w.tries, FAST_TRIES)
  {
    hide Run, Start, Windowed, Cached, OnceEach, Announced, CacheBacked, Chained, Young, Count;
    ReachedInv(w, s0, es, s);
  }

  /** The peer is reported dead at most once, and then the driver has stopped. */
  lemma ReportedOnce(w: World, s0: State, es: seq<Event>, s: State)
    requires Sound(w) && Reached(w, s0, es, s)
    ensures s.log.deaths <= 1 && (s.log.deaths == 1 <==> Run(w, s0, es).1)
  {
    hide Run, Start, Inv;
    ReachedInv(w, s0, es, s);
  }

  ghost predicate Out(s: State, d: Datagram) {
    s.win.pending.Some? && s.win.pending.value.raw == d
  }

  /** A tick, without a wake-up, that finds the outstanding request overdue. */
  ghost predicate Overdue(s: State, e: Event) {
    && e.Tick? && s.win.pending.Some? && e.now > s.win.pending.value.next
    && (s.timers.lastTick.Some? ==> e.wall - s.timers.lastTick.value <= SUSPEND_THRESHOLD)
  }

  /** Such a tick repeats the request or gives it up, and giving up a probe is what
      reports the peer dead. */
  lemma OverdueTick(w: World, s: State, e: Event)
    requires Sound(w) && Overdue(s, e)
    ensures var (t, stop) := Step(w, s, e);
            var p := s.win.pending.value;
            if p.attempts < Tries(w, p) then
              Out(t, p.raw) && t.win.pending.value.attempts == p.attempts + 1 && t.win.pending.value.fast == p.fast && !stop
            else
              t.win.pending.None? && (stop <==> p.kind == Dpd) && (p.kind.Reestablishes() ==> t.child.reestablish)
  {
    hide Begin;
    var s1 := DetectSuspend(w, Bump(s), e.now, e.wall);
    assert s1.win == s.win;
    assert RetryOldDelete(w, ExpireGrace(s1, e.now), e.now).win == s.win;
  }

  /** An unanswered request stays out for no more overdue ticks than it has tries left. */
  lemma {:induction false} UnansweredEnds(w: World, s: State, es: seq<Event>)
    requires Sound(w) && s.win.pending.Some?
    requires forall k :: 0 <= k < |es| ==> Overdue(Run(w, s, es[..k]).0, es[k])
    requires forall k :: 0 <= k <= |es| ==> Out(Run(w, s, es[..k]).0, s.win.pending.value.raw)
    ensures var p, q := s.win.pending.value, Run(w, s, es).0.win.pending;
            && q.Some? && q.value.attempts == p.attempts + |es| && q.value.fast == p.fast && !Run(w, s, es).1
            && (es != [] ==> p.attempts + |es| <= Tries(w, p))
    decreases es
  {
    hide Step;
    if es != [] {
      var rest := es[..|es| - 1];
      forall k | 0 <= k < |rest|
        ensures Overdue(Run(w, s, rest[..k]).0, rest[k])
      {
        assert rest[..k] == es[..k];
      }
      forall k | 0 <= k <= |rest|
        ensures Out(Run(w, s, rest[..k]).0, s.win.pending.value.raw)
      {
        assert rest[..k] == es[..k];
      }
      UnansweredEnds(w, s, rest);
      OverdueTick(w, Run(w, s, rest).0, es[|es| - 1]);
      assert es[..|es|] == es;
    }
  }
}
