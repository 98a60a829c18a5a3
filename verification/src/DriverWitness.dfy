/** Concrete runs, from a session as the driver is entered with, that reach the cases in
    which a promise of the driver fails. */
module DriverWitness {
  import opened Bytes
  import opened Crypto
  import opened IkeMsg
  import opened KeySchedule
  import opened Suites
  import opened Rekey
  import opened Driver
  import opened DriverInv
  import opened DriverSteps
  import opened DriverFrame
  import opened DriverTheorems
  import opened DriverResponder

  /** Rekeying by lifetime disabled, dead peer detection after a second; encoding and the
      random source work or do not. */
  function Lab(encodes: bool, draw: Option<Draw>, tries: nat): World {
    World(Toy(), Table(EspLayer), Table(IkeLayer), false,
          tries, 2 * SECOND, 30 * SECOND, SECOND, 0, 0, 0x8000_0000,
          (n: nat) => encodes, (n: nat) => true, (n: nat) => draw, (n: nat) => None, (n: nat) => 0)
  }

  lemma LabSound(encodes: bool, draw: Option<Draw>, tries: nat)
    requires tries >= 1 && (draw.Some? ==> |draw.value.nonce| == NONCE_LEN)
    ensures Sound(Lab(encodes, draw, tries))
  {
    hide Toy;
    LawsHaveAModel();
  }

  const DRAW := Draw(9, 10, Zeros(NONCE_LEN))

  /** An IKE SA of the CBC suite, whose encoding needs the random source. */
  function LabSa(): (sa: IkeSa)
    ensures KeysFit(sa.keys)
  {
    var k := Zeros(32);
    IkeSa(0, IkeKeys(AesCbc256Sha256, Initiator, 1, 2, k, k, k, k, k, k, k))
  }

  function LabStart(w: World): (s: State)
    ensures Start(s)
  {
    Started(w, LabSa(), DH_X25519, 2, Some(ChildSa(7, 8, AesGcm256)), false, 0)
  }

  /** A peer request with n Delete payloads for our outbound SPI. */
  function DeleteRequest(n: nat): Event {
    Inbound(1, 0, EXCHANGE_INFORMATIONAL, false, 0, seq(n, _ => Delete(PROTOCOL_ESP, [Be32(8)])))
  }

  lemma {:induction false} AllNamed(n: nat)
    ensures Named(seq(n, _ => Delete(PROTOCOL_ESP, [Be32(8)])), Some(ChildSa(7, 8, AesGcm256))) == n
    decreases n
  {
    var d := Delete(PROTOCOL_ESP, [Be32(8)]);
    var inner := seq(n, _ => d);
    if n > 0 {
      AllNamed(n - 1);
      assert inner[..n - 1] == seq(n - 1, _ => d);
      U32OfBe32(8);
      assert Refs(d.spis[0], ChildSa(7, 8, AesGcm256));
      assert Names(d, Some(ChildSa(7, 8, AesGcm256)));
    }
  }

  // ----- one request, two triggers -----

  /** A run whose only request, answered, triggers twice. */
  ghost predicate DoublyNamed(w: World, s0: State, es: seq<Event>)
    requires Sound(w)
  {
    var h := Run(w, s0, es).0.log.handled;
    |h| == 1 && h[0].resp.Some? && h[0].triggers == 2
  }

  /** Two Delete payloads for the live Child SA in one request trigger twice, although the
      request is processed once and answered. */
  lemma TwoDeletesTriggerTwice()
    ensures exists w, es :: Sound(w) && (forall n :: w.encodes(n)) && DoublyNamed(w, LabStart(w), es)
  {
    hide Step, Run, Named, Entry;
    var w := Lab(true, Some(DRAW), 5);
    LabSound(true, Some(DRAW), 5);
    var s, e := LabStart(w), DeleteRequest(2);
    HearsEntry(w, s, e);
    AllNamed(2);
    EntryCounts(w, s, e);
    RunOne(w, s, e);
    assert DoublyNamed(w, s, [e]);
  }

  /** What the entry of a heard INFORMATIONAL request counts. */
  lemma EntryCounts(w: World, s: State, e: Event)
    requires Sound(w) && Hears(s, e) && e.exchange == EXCHANGE_INFORMATIONAL
    ensures var t, n := Step(w, s, e).0, |s.log.handled|;
            && |t.log.handled| == n + 1 && t.log.handled[..n] == s.log.handled
            && Is(t.log.handled[n], e.sa, e.msgID) && t.log.handled[n].triggers == Named(e.inner, s.child.sa)
            && (t.log.handled[n].resp.Some? <==> w.encodes(HandleDeletes(w, Heard(s, e.now), e.now, e.inner).pos))
  {
    hide Step, Named, Replies, HandleDeletes;
    HearsEntry(w, s, e);
    DecoderMeans(s, e.now, e.sa);
  }

  lemma RunOne(w: World, s: State, e: Event)
    requires Sound(w)
    ensures Run(w, s, [e]) == Step(w, s, e)
  {
    hide Step;
    assert [e][..0] == [];
    assert Run(w, s, []) == (s, false);
  }

  // ----- a request that cannot be answered -----

  /** A run that processes one request twice, with a trigger each time. */
  ghost predicate ProcessedTwice(w: World, s0: State, es: seq<Event>)
    requires Sound(w)
  {
    var h := Run(w, s0, es).0.log.handled;
    |h| == 2 && Is(h[1], h[0].sa.id, h[0].msgID) && EffectOf(h, h[0].sa.id, h[0].msgID).triggers == 2
  }

  /** With the random source dead the CBC suite cannot encode the acknowledgement, and the
      repeat of one DELETE triggers again. */
  lemma UnansweredDeleteTriggersTwice()
    ensures exists w, es :: Sound(w) && ProcessedTwice(w, LabStart(w), es)
  {
    hide Step, Run, Named, Inv, HandleDeletes;
    var w := Lab(false, None, 5);
    LabSound(false, None, 5);
    var s, e := LabStart(w), DeleteRequest(1);
    var f := Resent(e, 2);
    AllNamed(1);
    StartInv(w, s);
    EntryCounts(w, s, e);
    var t := Step(w, s, e).0;
    StepKeeps(w, 7, s, e);
    ReprocessedIffUnencodable(w, 7, s, e);
    EntryKeeps(w, s, e);
    SlotFor(w, 7, t, 2, e.sa);
    EntryCounts(w, t, f);
    StopsIffTeardown(w, s, e);
    RunPair(w, s, e, f);
    var h := Run(w, s, [e, f]).0.log.handled;
    assert h[..1][0] == t.log.handled[0];
    assert EffectOf(h[..1][..0], 0, 0) == Effect(0, 0, 0);
    assert EffectOf(h[..1], 0, 0).triggers == 1;
    assert ProcessedTwice(w, s, [e, f]);
  }

  // ----- a rejected re-establishment -----

  ghost predicate Stranded(w: World, s0: State, es: seq<Event>)
    requires Sound(w)
  {
    var s := Run(w, s0, es).0;
    s.log.need && !InHand(s)
  }

  /** The peer deletes the live Child SA and then refuses the re-establishment: nothing is
      queued or in flight any more. */
  lemma RejectedReplyStrands()
    ensures exists w, es :: Sound(w) && Stranded(w, LabStart(w), es)
  {
    hide Step, Run;
    var w := Lab(true, Some(DRAW), 5);
    LabSound(true, Some(DRAW), 5);
    var s, e := LabStart(w), DeleteRequest(1);
    Reestablishing(w, s, e);
    var t := Step(w, s, e).0;
    var f := Inbound(2, 0, EXCHANGE_CREATE_CHILD_SA, true, 2, [Notice(PROTOCOL_ESP, NOTIFY_NO_PROPOSAL_CHOSEN)]);
    RefusalIsError(w, t.ike.cur.keys.skd, t.win.pending.value.kind.child);
    RejectionStrands(w, t, f);
    RunPair(w, s, e, f);
    assert Stranded(w, s, [e, f]);
  }

  lemma RefusalIsError(w: World, skd: Bytes, ctx: ChildCtx)
    requires Sound(w)
    ensures CompleteChild(w.c, skd, ctx, w.esp, [Notice(PROTOCOL_ESP, NOTIFY_NO_PROPOSAL_CHOSEN)]).Err?
  {
    hide SelectedSuite;
    var n := Notice(PROTOCOL_ESP, NOTIFY_NO_PROPOSAL_CHOSEN);
    ExtractOneMore([], n);
    assert [] + [n] == [n];
  }

  lemma Reestablishing(w: World, s: State, e: Event)
    requires Sound(w) && w == Lab(true, Some(DRAW), 5) && s == LabStart(w) && e == DeleteRequest(1)
    ensures var (t, stop) := Step(w, s, e);
            && !stop && t.log.need && !t.child.reestablish && t.ike.cur == s.ike.cur
            && t.win.pending.Some? && t.win.pending.value.msgID == 2 && t.win.pending.value.kind.Reestablishes()
  {
    hide ChildRequest, Toy;
    U32OfBe32(8);
    var d := e.inner[0];
    assert Refs(d.spis[0], s.child.sa.value);
    assert RefsChild(d.spis, s.child.sa.value);
    var s1 := Heard(s, e.now);
    assert e.inner[..0] == [];
    assert HandleDeletes(w, s1, e.now, []) == s1;
    assert HandleDeletes(w, s1, e.now, e.inner) == HandleDelete(w, s1, e.now, d);
  }

  // ----- a single try -----

  /** No request of a run is transmitted more often than the tries, or twice if it began as
      a fast probe. */
  ghost predicate AllWithinTries(w: World, s0: State, es: seq<Event>)
    requires Sound(w)
  {
    var log := Run(w, s0, es).0.log;
    forall i :: 0 <= i < |log.requests| ==>
      Count(log.sent, log.requests[i].d) <= if log.requests[i].probe then FAST_TRIES else w.tries
  }

  ghost predicate WithinTries(w: World)
    requires Sound(w)
  {
    forall s0, es :: Start(s0) ==> AllWithinTries(w, s0, es)
  }

  /** Every run in every world keeps within the configured tries if and only if at least
      two are configured. */
  lemma WithinTriesIff(tries: nat)
    requires tries >= 1
    ensures (forall w :: Sound(w) && w.tries == tries ==> WithinTries(w)) <==> tries >= 2
  {
    if tries >= 2 {
      forall w | Sound(w) && w.tries == tries
        ensures WithinTries(w)
      {
        forall s0, es | Start(s0)
          ensures AllWithinTries(w, s0, es)
        {
          TwoTriesSuffice(w, s0, es);
        }
      }
    } else {
      hide Start, AllWithinTries;
      var w := Lab(true, None, 1);
      LabSound(true, None, 1);
      var es := WakeAfterProbe(w);
      assert Start(LabStart(w)) && !AllWithinTries(w, LabStart(w), es);
    }
  }

  lemma TwoTriesSuffice(w: World, s0: State, es: seq<Event>)
    requires Sound(w) && w.tries >= 2 && Start(s0)
    ensures AllWithinTries(w, s0, es)
  {
    hide Run, Start, Count;
    var s := Run(w, s0, es).0;
    forall i | 0 <= i < |s.log.requests|
      ensures Count(s.log.sent, s.log.requests[i].d) <= if s.log.requests[i].probe then FAST_TRIES else w.tries
    {
      TransmissionsBounded(w, s0, es, s, i);
    }
  }

  /** Idle for a second, probed; suspended, which accelerates the probe; probed again. */
  lemma WakeAfterProbe(w: World) returns (es: seq<Event>)
    requires Sound(w) && w == Lab(true, None, 1)
    ensures !AllWithinTries(w, LabStart(w), es)
  {
    hide Step, Run, Toy, LabSa;
    var s0 := LabStart(w);
    var e1, e2, e3 := Tick(2 * SECOND, 2 * SECOND, 0, None), Tick(3 * SECOND, 9 * SECOND, 0, None), Tick(4 * SECOND, 10 * SECOND, 0, None);
    es := [e1, e2, e3];
    var s1 := ProbeWhenIdle(w, s0, e1);
    var s2 := WakeUp(w, s1, e2);
    var s3 := ProbeAgain(w, s2, e3);
    RunThree(w, s0, e1, e2, e3);
    var x, y := s3.log.sent[0], s3.log.sent[1];
    CountPush([], x, x.d);
    assert [] + [x] == [x];
    CountPush([x], y, x.d);
    assert s3.log.sent == [x] + [y];
    assert Run(w, s0, es).0 == s3;
    assert !s3.log.requests[0].probe && Count(s3.log.sent, s3.log.requests[0].d) == 2;
  }

  lemma ProbeWhenIdle(w: World, s: State, e: Event) returns (t: State)
    requires Sound(w) && w.encodes(1) && w.lifetime <= 0 && e.Tick? && e.lastData.None? && e.volume < w.maxPackets
    requires Start(s) && s.pos == 0 && s.timers.lastTick.Some? && e.wall - s.timers.lastTick.value <= SUSPEND_THRESHOLD
    requires e.now - s.timers.lastInbound > w.dpdInterval
    ensures Step(w, s, e) == (t, false) && t.timers.lastTick == Some(e.wall) && t.ike == s.ike
    ensures |t.log.sent| == |t.log.requests| == 1 && !t.log.requests[0].probe && t.log.hurried == {}
    ensures t.win.pending.Some? && t.win.pending.value.raw == t.log.requests[0].d == t.log.sent[0].d
    ensures t.win.pending.value.kind == Dpd && t.win.pending.value.attempts == 1
  {
    t := Step(w, s, e).0;
  }

  lemma WakeUp(w: World, s: State, e: Event) returns (t: State)
    requires Sound(w) && e.Tick? && s.timers.lastTick.Some? && e.wall - s.timers.lastTick.value > SUSPEND_THRESHOLD
    requires s.win.pending.Some? && s.ike.prior.None? && s.ike.priorDelete.None?
    ensures Step(w, s, e) == (t, false) && t.timers.lastTick == Some(e.wall) && t.ike == s.ike
    ensures t.win.pending == Some(s.win.pending.value.(fast := true, next := e.now))
    ensures t.log.sent == s.log.sent && t.log.requests == s.log.requests
  {
    t := Step(w, s, e).0;
  }

  lemma ProbeAgain(w: World, s: State, e: Event) returns (t: State)
    requires Sound(w) && Overdue(s, e) && s.ike.prior.None? && s.ike.priorDelete.None?
    requires s.win.pending.value.fast && s.win.pending.value.attempts == 1
    ensures Step(w, s, e) == (t, false) && t.log.requests == s.log.requests
    ensures t.log.sent == s.log.sent + [Send(s.win.pending.value.raw, |s.log.installs|, |s.log.swaps|)]
  {
    t := Step(w, s, e).0;
  }

  lemma RunThree(w: World, s: State, e1: Event, e2: Event, e3: Event)
    requires Sound(w) && !Step(w, s, e1).1 && !Step(w, Step(w, s, e1).0, e2).1
    ensures Run(w, s, [e1, e2, e3]) == Step(w, Step(w, Step(w, s, e1).0, e2).0, e3)
  {
    hide Step;
    RunPair(w, s, e1, e2);
    assert [e1, e2, e3][..2] == [e1, e2];
  }
}
