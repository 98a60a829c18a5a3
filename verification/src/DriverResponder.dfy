/** The responder side over whole runs: what one peer request can cause, however often,
    late or out of order it arrives, and what a repeat of it gets. */
module DriverResponder {
  import opened Bytes
  import opened IkeMsg
  import opened Rekey
  import opened Driver
  import opened DriverInv
  import opened DriverSteps
  import opened DriverFrame
  import opened DriverTrace
  import opened DriverTheorems

  lemma ReachedTrace(w: World, s0: State, es: seq<Event>, s: State)
    requires Sound(w) && Reached(w, s0, es, s)
    ensures Trace(w, s)
  {
    hide Run, Inv, Trace;
    StartInv(w, s0);
    TraceStart(w, s0);
    RunTrace(w, FirstSpi(s0), s0, es);
  }

  // ----- effects of one request over a run -----

  datatype Effect = Effect(installs: nat, swaps: nat, triggers: nat)

  predicate Is(h: Handled, sa: nat, msgID: uint32) {
    h.sa.id == sa && h.msgID == msgID
  }

  /** All that the request (sa, msgID) caused, over every time it was processed. */
  function EffectOf(handled: seq<Handled>, sa: nat, msgID: uint32): Effect {
    if handled == [] then Effect(0, 0, 0) else
    var e, h := EffectOf(handled[..|handled| - 1], sa, msgID), handled[|handled| - 1];
    if Is(h, sa, msgID) then Effect(e.installs + h.installs, e.swaps + h.swaps, e.triggers + h.triggers) else e
  }

  /** A request answered so far was processed for the last time; before that it had
      installed and cut over nothing. */
  lemma {:induction false} EffectBounded(handled: seq<Handled>, answers: seq<Answer>, n: nat, sa: nat, msgID: uint32)
    requires OnceEach(handled, answers) && n <= |handled|
    requires forall i :: 0 <= i < |handled| ==> handled[i].installs <= 1 && handled[i].swaps <= 1
    ensures var e := EffectOf(handled[..n], sa, msgID); e.installs <= 1 && e.swaps <= 1
    ensures (forall i :: 0 <= i < n && Is(handled[i], sa, msgID) ==> handled[i].resp.None?) ==>
              var e := EffectOf(handled[..n], sa, msgID); e.installs == 0 && e.swaps == 0
    decreases n
  {
    hide LastAnswer;
    if n > 0 {
      EffectBounded(handled, answers, n - 1, sa, msgID);
      assert handled[..n][..n - 1] == handled[..n - 1] && handled[..n][n - 1] == handled[n - 1];
    }
  }

  /** Under any duplication and reordering a peer request installs at most one Child SA and
      causes at most one cutover, whether or not anything could be encoded. */
  lemma EffectsAtMostOnce(w: World, s0: State, es: seq<Event>, s: State, sa: nat, msgID: uint32)
    requires Sound(w) && Reached(w, s0, es, s)
    ensures var e := EffectOf(s.log.handled, sa, msgID); e.installs <= 1 && e.swaps <= 1
  {
    hide Run, Start, Windowed, Spoken, Cached, Announced, CacheBacked, Voiced, Chained, Young, Tallied, LastAnswer, EffectOf, Replies, Traced, Earned, Lineage;
    ReachedInv(w, s0, es, s);
    ReachedTrace(w, s0, es, s);
    var hs := s.log.handled;
    assert forall i :: 0 <= i < |hs| ==> Truthful(w, s.log, hs[i]);
    EffectBounded(hs, s.log.answers, |hs|, sa, msgID);
    assert hs[..|hs|] == hs;
  }

  /** A request that was answered is never processed again. */
  lemma AnsweredIsFinal(w: World, s0: State, es: seq<Event>, s: State, i: nat, j: nat)
    requires Sound(w) && Reached(w, s0, es, s) && i < j < |s.log.handled|
    requires s.log.handled[i].sa.id == s.log.handled[j].sa.id && s.log.handled[i].msgID == s.log.handled[j].msgID
    ensures s.log.handled[i].resp.None?
  {
    hide Run, Start, Windowed, Spoken, Cached, Announced, CacheBacked, Voiced, Chained, Young, Tallied, LastAnswer;
    ReachedInv(w, s0, es, s);
  }

  lemma {:induction false} AllAnswered(w: World, s0: State, es: seq<Event>)
    requires Sound(w) && Start(s0) && forall n :: w.encodes(n)
    ensures forall i :: 0 <= i < |Run(w, s0, es).0.log.handled| ==> Run(w, s0, es).0.log.handled[i].resp.Some?
    decreases es
  {
    hide Inv, Step;
    if es != [] {
      var rest := es[..|es| - 1];
      AllAnswered(w, s0, rest);
      var s := Run(w, s0, rest).0;
      ReachedInv(w, s0, rest, s);
      StepKeeps(w, FirstSpi(s0), s, es[|es| - 1]);
      var h, t := s.log.handled, Run(w, s0, es).0.log.handled;
      assert forall i :: 0 <= i < |t| && i < |h| ==> t[i] == h[i] by {
        assert |t| > |h| ==> t[..|h|] == h;
      }
    }
  }

  /** When everything encodes every peer request is processed at most once. */
  lemma ProcessedAtMostOnce(w: World, s0: State, es: seq<Event>, s: State, i: nat, j: nat)
    requires Sound(w) && Reached(w, s0, es, s) && (forall n :: w.encodes(n)) && i < j < |s.log.handled|
    ensures s.log.handled[i].sa.id != s.log.handled[j].sa.id || s.log.handled[i].msgID != s.log.handled[j].msgID
  {
    hide Run, Start;
    AllAnswered(w, s0, es);
    if s.log.handled[i].sa.id == s.log.handled[j].sa.id && s.log.handled[i].msgID == s.log.handled[j].msgID {
      AnsweredIsFinal(w, s0, es, s, i, j);
    }
  }

  /** The one entry of a key carries all its effects. */
  lemma {:induction false} SoleEntry(handled: seq<Handled>, n: nat, i: nat)
    requires n <= |handled| && i < |handled|
    requires forall j :: 0 <= j < |handled| && j != i ==> !Is(handled[j], handled[i].sa.id, handled[i].msgID)
    ensures EffectOf(handled[..n], handled[i].sa.id, handled[i].msgID) ==
            if i < n then Effect(handled[i].installs, handled[i].swaps, handled[i].triggers) else Effect(0, 0, 0)
    decreases n
  {
    if n > 0 {
      SoleEntry(handled, n - 1, i);
      assert handled[..n][..n - 1] == handled[..n - 1] && handled[..n][n - 1] == handled[n - 1];
    }
  }

  /** When everything encodes, a peer request triggers a re-establishment, over the whole
      run, exactly as often as its payloads delete the Child SA live at that time: at most
      once if and only if at most one of them does. */
  lemma TriggersAreDeletes(w: World, s0: State, es: seq<Event>, s: State, i: nat)
    requires Sound(w) && Reached(w, s0, es, s) && (forall n :: w.encodes(n)) && i < |s.log.handled|
    ensures var h := s.log.handled[i]; EffectOf(s.log.handled, h.sa.id, h.msgID).triggers == h.named
  {
    hide Run, Start, EffectOf, Replies, Traced, Earned, Lineage;
    var hs := s.log.handled;
    ReachedTrace(w, s0, es, s);
    assert Truthful(w, s.log, hs[i]);
    forall j | 0 <= j < |hs| && j != i
      ensures !Is(hs[j], hs[i].sa.id, hs[i].msgID)
    {
      if j < i {
        ProcessedAtMostOnce(w, s0, es, s, j, i);
      } else {
        ProcessedAtMostOnce(w, s0, es, s, i, j);
      }
    }
    SoleEntry(hs, |hs|, i);
    assert hs[..|hs|] == hs;
  }

  // ----- repeats -----

  ghost predicate Handles(exchange: byte) {
    exchange == EXCHANGE_INFORMATIONAL || exchange == EXCHANGE_CREATE_CHILD_SA
  }

  lemma DecoderMeans(s: State, now: int, sa: nat)
    ensures Decoder(s, now, sa).Some? ==>
              Decoder(s, now, sa).value.0.id == sa && DecodedAs(s, Decoder(s, now, sa).value.0, Decoder(s, now, sa).value.1)
  {}

  /** The slot a request is compared with holds the last answer under its SA. */
  lemma SlotFor(w: World, first: uint32, s: State, now: int, sa: nat)
    requires Inv(w, first, s) && Decoder(s, now, sa).Some?
    ensures Slot(s, Decoder(s, now, sa).value.1) == LastAnswer(s.log.answers, sa)
  {
    hide Core, LastAnswer;
    DecoderMeans(s, now, sa);
    SlotIsLastAnswer(w, first, s, Decoder(s, now, sa).value.0, Decoder(s, now, sa).value.1);
  }

  /** At any later time, as long as its SA still decodes, a repeat of the last answered
      request puts the identical octets on the wire and does nothing else. */
  lemma RepeatResends(w: World, first: uint32, s: State, now: int, sa: nat, exchange: byte, inner: seq<Payload>)
    requires Sound(w) && Inv(w, first, s) && Handles(exchange) && Decoder(s, now, sa).Some?
    requires LastAnswer(s.log.answers, sa).Answered?
    ensures var last := LastAnswer(s.log.answers, sa);
            Step(w, s, Inbound(now, sa, exchange, false, last.msgID, inner)) == (Transmit(Heard(s, now), last.resp), false)
  {
    hide Core, LastAnswer, HandleCreate, HandleInformational;
    SlotFor(w, first, s, now, sa);
  }

  /** An older request gets no answer at all. */
  lemma StaleIsSilent(w: World, first: uint32, s: State, now: int, sa: nat, exchange: byte, msgID: uint32, inner: seq<Payload>)
    requires Sound(w) && Inv(w, first, s) && Handles(exchange) && Decoder(s, now, sa).Some?
    requires LastAnswer(s.log.answers, sa).Answered? && msgID < LastAnswer(s.log.answers, sa).msgID
    ensures Step(w, s, Inbound(now, sa, exchange, false, msgID, inner)) == (Heard(s, now), false)
  {
    hide Core, LastAnswer, HandleCreate, HandleInformational;
    SlotFor(w, first, s, now, sa);
  }

  /** A processed request counts as a duplicate from then on exactly when the encoding its
      answer needs succeeds. */
  lemma ReprocessedIffUnencodable(w: World, first: uint32, s: State, e: Event)
    requires Sound(w) && Inv(w, first, s) && Hears(s, e)
    ensures var t, via := Step(w, s, e).0, Decoder(s, e.now, e.sa).value.1;
            Duplicate(LastAnswer(t.log.answers, e.sa), e.msgID) <==> Answerable(w, Heard(s, e.now), e.now, via, e.exchange, e.inner)
  {
    hide Core, LastAnswer, Step, Answerable, Named, Replies;
    HearsEntry(w, s, e);
    SlotFor(w, first, s, e.now, e.sa);
    DecoderMeans(s, e.now, e.sa);
    var t := Step(w, s, e).0;
    var h := t.log.handled[|s.log.handled|];
    if h.resp.Some? {
      LastAnswerPush(s.log.answers, Answer(e.sa, e.msgID, h.resp.value), e.sa);
    } else {
      assert t.log.answers == s.log.answers;
    }
  }

  /** The same request arriving at another time. */
  function Resent(e: Event, later: int): Event
    requires e.Inbound?
  {
    Inbound(later, e.sa, e.exchange, e.response, e.msgID, e.inner)
  }

  /** Whether the repeat of an INFORMATIONAL request e at time later is processed again:
      the driver still runs, its SA still decodes, and the first could not be answered. */
  ghost predicate Again(w: World, s: State, e: Event, later: int)
    requires Sound(w) && Hears(s, e)
  {
    var via := Decoder(s, e.now, e.sa).value.1;
    !Teardown(e.inner, via) && Decoder(s, later, e.sa).Some? && !Answerable(w, Heard(s, e.now), e.now, via, e.exchange, e.inner)
  }

  /** A DELETE request and its repeat trigger as often as the request's payloads delete the
      live Child SA, once for each time it is processed. So they trigger at most once if
      and only if no payload does, or one does and the repeat is not processed again. */
  lemma TriggersOverARepeat(w: World, first: uint32, s: State, e: Event, later: int)
    requires Sound(w) && Inv(w, first, s) && Hears(s, e) && e.exchange == EXCHANGE_INFORMATIONAL
    ensures var n, total := Named(e.inner, s.child.sa), Run(w, s, [e, Resent(e, later)]).0.log.triggers - s.log.triggers;
            && total == (if Again(w, s, e, later) then 2 * n else n)
            && (total <= 1 <==> n == 0 || (n == 1 && !Again(w, s, e, later)))
  {
    hide Step, Inv, Entry, Named, Answerable, Teardown;
    var f := Resent(e, later);
    var (t, stop) := Step(w, s, e);
    HearsEntry(w, s, e);
    EntryKeeps(w, s, e);
    StepKeeps(w, first, s, e);
    StopsIffTeardown(w, s, e);
    RunPair(w, s, e, f);
    if !stop {
      ReprocessedIffUnencodable(w, first, s, e);
      if Decoder(t, later, e.sa).Some? {
        SlotFor(w, first, t, later, e.sa);
        SameDecoder(s, e.now, later, e.sa);
        if Again(w, s, e, later) {
          assert Hears(t, f);
          HearsEntry(w, t, f);
          EntryKeeps(w, t, f);
        } else {
          DuplicateStep(w, t, f);
        }
      } else {
        UndecodableStep(w, t, f);
      }
    }
  }

  lemma EntryKeeps(w: World, s: State, e: Event)
    requires Sound(w) && Hears(s, e) && e.exchange == EXCHANGE_INFORMATIONAL
    ensures var t := Step(w, s, e).0;
            && t.log.triggers == s.log.triggers + Named(e.inner, s.child.sa) && t.child.sa == s.child.sa
            && t.ike.cur == s.ike.cur && t.ike.prior == s.ike.prior && t.ike.priorUntil == s.ike.priorUntil
  {
    hide Step, Answerable, Named, Replies;
    HearsEntry(w, s, e);
  }

  lemma StopsIffTeardown(w: World, s: State, e: Event)
    requires Sound(w) && Hears(s, e) && e.exchange == EXCHANGE_INFORMATIONAL
    ensures Step(w, s, e).1 <==> Teardown(e.inner, Decoder(s, e.now, e.sa).value.1)
  {
    hide HandleInformational, Teardown;
  }

  lemma RunPair(w: World, s: State, e: Event, f: Event)
    requires Sound(w)
    ensures Run(w, s, [e, f]) == if Step(w, s, e).1 then Step(w, s, e) else Step(w, Step(w, s, e).0, f)
  {
    hide Step;
    assert [e][..0] == [] && [e, f][..1] == [e];
    assert Run(w, s, []) == (s, false);
    assert Run(w, s, [e]) == Step(w, s, e);
  }

  lemma SameDecoder(s: State, now: int, later: int, sa: nat)
    requires Decoder(s, now, sa).Some? && Decoder(s, later, sa).Some?
    ensures Decoder(s, now, sa) == Decoder(s, later, sa)
  {}

  lemma DuplicateStep(w: World, s: State, e: Event)
    requires Sound(w) && e.Inbound? && !e.response && Handles(e.exchange) && Decoder(s, e.now, e.sa).Some?
    requires Duplicate(Slot(s, Decoder(s, e.now, e.sa).value.1), e.msgID)
    ensures Still(s, Step(w, s, e).0)
  {
    hide HandleRequest;
    var dec := Decoder(s, e.now, e.sa).value;
    DuplicateStill(w, Heard(s, e.now), e.now, dec.0, dec.1, e.exchange, e.msgID, e.inner);
  }

  lemma UndecodableStep(w: World, s: State, e: Event)
    requires Sound(w) && e.Inbound? && Decoder(s, e.now, e.sa).None?
    ensures Still(s, Step(w, s, e).0)
  {
    hide HandleRequest, HandleResponse;
  }

  // ----- a request that cuts over -----

  /** Nothing answers a newer request under the superseded SA or ends its grace period. */
  predicate Undisturbed(e: Event, sa: nat, msgID: uint32, until: int) {
    match e
    case Tick(now, _, _, _) => now <= until
    case Inbound(_, id, _, response, m, _) => id == sa && !response ==> m <= msgID
  }

  /** The answer given under the superseded SA is still the last one there. */
  ghost predicate Kept(s: State, sa: IkeSa, until: int, msgID: uint32, raw: Datagram) {
    && s.ike.prior == Some(sa) && s.ike.priorUntil == until && s.ike.cur.id != sa.id
    && LastAnswer(s.log.answers, sa.id) == Answered(msgID, raw)
  }

  lemma KeptStep(w: World, first: uint32, s: State, e: Event, sa: IkeSa, until: int, msgID: uint32, raw: Datagram)
    requires Sound(w) && Inv(w, first, s) && Kept(s, sa, until, msgID, raw) && Undisturbed(e, sa.id, msgID, until)
    ensures var t := Step(w, s, e).0; t.log.swaps == s.log.swaps ==> Kept(t, sa, until, msgID, raw)
  {
    hide Step, Core, LastAnswer, Entry;
    var t := Step(w, s, e).0;
    StepTale(w, s, e);
    if Hears(s, e) {
      SlotFor(w, first, s, e.now, e.sa);
      DecoderMeans(s, e.now, e.sa);
      AnswersElsewhere(w, s, e, sa.id);
    }
  }

  lemma AnswersElsewhere(w: World, s: State, e: Event, sa: nat)
    requires Sound(w) && Hears(s, e) && e.sa != sa
    ensures LastAnswer(Step(w, s, e).0.log.answers, sa) == LastAnswer(s.log.answers, sa)
  {
    hide Step, LastAnswer, Replies, Answerable, Named;
    HearsEntry(w, s, e);
    DecoderMeans(s, e.now, e.sa);
    var h := Step(w, s, e).0.log.handled[|s.log.handled|];
    if h.resp.Some? {
      LastAnswerPush(s.log.answers, Answer(e.sa, e.msgID, h.resp.value), sa);
    } else {
      assert Step(w, s, e).0.log.answers == s.log.answers;
    }
  }

  lemma {:induction false} KeptRun(w: World, first: uint32, s: State, es: seq<Event>, sa: IkeSa, until: int, msgID: uint32, raw: Datagram)
    requires Sound(w) && Inv(w, first, s) && Kept(s, sa, until, msgID, raw)
    requires forall k :: 0 <= k < |es| ==> Undisturbed(es[k], sa.id, msgID, until)
    ensures s.log.swaps <= Run(w, s, es).0.log.swaps
    ensures Run(w, s, es).0.log.swaps == s.log.swaps ==> Kept(Run(w, s, es).0, sa, until, msgID, raw)
    decreases es
  {
    hide Step, Inv, Kept, Undisturbed;
    if es != [] {
      var rest := es[..|es| - 1];
      KeptRun(w, first, s, rest, sa, until, msgID, raw);
      var q := Run(w, s, rest).0;
      RunKeeps(w, first, s, rest);
      StepLater(w, q, es[|es| - 1]);
      if q.log.swaps == s.log.swaps {
        KeptStep(w, first, q, es[|es| - 1], sa, until, msgID, raw);
      }
    }
  }

  /** The state right after a request under the current SA cut over. */
  lemma CutoverShape(w: World, first: uint32, s: State, e: Event)
    requires Sound(w) && Inv(w, first, s) && Hears(s, e) && e.exchange == EXCHANGE_CREATE_CHILD_SA && e.sa == s.ike.cur.id
    requires |Step(w, s, e).0.log.swaps| > |s.log.swaps|
    ensures var t := Step(w, s, e).0;
            && t.log.sent != [] && t.log.sent[|t.log.sent| - 1].d.response
            && Kept(t, s.ike.cur, e.now + GRACE, e.msgID, t.log.sent[|t.log.sent| - 1].d)
  {
    hide Core, LastAnswer, HandleCreate;
    var t := Step(w, s, e).0;
    CreateCutsOver(w, Heard(s, e.now), e.now, e.msgID, e.inner);
    var raw := t.log.sent[|t.log.sent| - 1].d;
    LastAnswerPush(s.log.answers, Answer(s.ike.cur.id, e.msgID, raw), s.ike.cur.id);
  }

  lemma CreateCutsOver(w: World, s: State, now: int, msgID: uint32, inner: seq<Payload>)
    requires Sound(w) && |HandleCreate(w, s, now, s.ike.cur, false, msgID, inner).log.swaps| > |s.log.swaps|
    ensures var t := HandleCreate(w, s, now, s.ike.cur, false, msgID, inner); var n := |s.log.sent|;
            && t.ike.prior == Some(s.ike.cur) && t.ike.priorUntil == now + GRACE && t.ike.cur.id != s.ike.cur.id
            && |t.log.sent| == n + 1 && t.log.sent[n].d.response
            && t.log.answers == s.log.answers + [Answer(s.ike.cur.id, msgID, t.log.sent[n].d)]
  {
    hide AnswerIke, AnswerChild, IsIkeRekey;
  }

  /** A request that itself cut the IKE SA over is answered again, octet for octet, under
      the superseded SA throughout the grace period, whatever happens in between short of a
      newer request under that SA or another cutover. */
  lemma RepeatAfterCutover(w: World, first: uint32, s: State, e: Event, es: seq<Event>, later: int, again: seq<Payload>)
    requires Sound(w) && Inv(w, first, s) && Hears(s, e) && e.exchange == EXCHANGE_CREATE_CHILD_SA && e.sa == s.ike.cur.id
    requires later < e.now + GRACE
    requires forall k :: 0 <= k < |es| ==> Undisturbed(es[k], e.sa, e.msgID, e.now + GRACE)
    ensures var t := Step(w, s, e).0;
            var u := Run(w, t, es).0;
            |t.log.swaps| > |s.log.swaps| && u.log.swaps == t.log.swaps ==>
              && t.log.sent != [] && t.log.sent[|t.log.sent| - 1].d.response
              && Step(w, u, Inbound(later, e.sa, e.exchange, false, e.msgID, again)) ==
                 (Transmit(Heard(u, later), t.log.sent[|t.log.sent| - 1].d), false)
  {
    hide Inv, LastAnswer, Step, Run, Undisturbed;
    var t := Step(w, s, e).0;
    var u := Run(w, t, es).0;
    if |t.log.swaps| > |s.log.swaps| && u.log.swaps == t.log.swaps {
      StepKeeps(w, first, s, e);
      CutoverShape(w, first, s, e);
      KeptRun(w, first, t, es, s.ike.cur, e.now + GRACE, e.msgID, t.log.sent[|t.log.sent| - 1].d);
      RunKeeps(w, first, t, es);
      RepeatResends(w, first, u, later, e.sa, e.exchange, again);
    }
  }
}
