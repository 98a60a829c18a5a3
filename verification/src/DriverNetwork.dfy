/** Two sessions of this driver and a network that loses, duplicates, delays and reorders
    what they send: a rekey one end completed has its mirror image at the other. */
module DriverNetwork {
  import opened Bytes
  import opened Crypto
  import opened IkeMsg
  import opened KeySchedule
  import opened Suites
  import opened Rekey
  import opened Driver
  import opened DriverInv
  import opened DriverSteps
  import opened DriverFrame
  import opened DriverTrace
  import opened DriverFresh
  import opened DriverTheorems

  // ----- two ends and what lies between -----

  /** d, sealed by x's SA sa, opens at y as the event e. */
  ghost predicate Opens(sa: IkeSa, y: State, d: Datagram, e: Event) {
    && e.Inbound? && e.response == d.response && e.exchange == d.exchange && e.msgID == d.msgID && e.inner == d.inner
    && sa.id == d.sa && Decoder(y, e.now, e.sa).Some? && Mirrored(sa.keys, Decoder(y, e.now, e.sa).value.0.keys)
  }

  /** The event can befall y: a tick, a datagram no SA of y opens, or a copy of anything x
      ever sent, at any time and as often as the network likes. */
  ghost predicate Carried(x: State, y: State, e: Event) {
    || e.Tick? || Decoder(y, e.now, e.sa).None?
    || exists i, sa :: 0 <= i < |x.log.sent| && sa in Sas(x.log) && Opens(sa, y, x.log.sent[i].d, e)
  }

  datatype Act = Act(atA: bool, e: Event)

  /** Both sessions, and whether each has stopped. */
  datatype Pair = Pair(a: State, b: State, aDone: bool, bDone: bool)

  ghost function Perform(wa: World, wb: World, p: Pair, act: Act): Pair
    requires Sound(wa) && Sound(wb)
  {
    if act.atA then
      if p.aDone then p else var (a, stop) := Step(wa, p.a, act.e); p.(a := a, aDone := stop)
    else
      if p.bDone then p else var (b, stop) := Step(wb, p.b, act.e); p.(b := b, bDone := stop)
  }

  ghost function After(wa: World, wb: World, p: Pair, acts: seq<Act>): Pair
    requires Sound(wa) && Sound(wb)
    decreases acts
  {
    if acts == [] then p else Perform(wa, wb, After(wa, wb, p, acts[..|acts| - 1]), acts[|acts| - 1])
  }

  ghost predicate Possible(p: Pair, act: Act) {
    if act.atA then Carried(p.b, p.a, act.e) else Carried(p.a, p.b, act.e)
  }

  ghost predicate Genuine(wa: World, wb: World, p: Pair, acts: seq<Act>)
    requires Sound(wa) && Sound(wb)
  {
    forall k :: 0 <= k < |acts| ==> Possible(After(wa, wb, p, acts[..k]), acts[k])
  }

  // ----- what ties the two histories together -----

  /** y processed only what x asked, under an SA mirroring the one x asked under. */
  ghost predicate Asked(x: Log, h: Handled) {
    exists i, sa :: 0 <= i < |x.requests| && sa in Sas(x) && AskedBy(x.requests[i].d, sa, h)
  }

  ghost predicate AskedBy(d: Datagram, sa: IkeSa, h: Handled) {
    sa.id == d.sa && d.msgID == h.msgID && d.inner == h.inner && Mirrored(sa.keys, h.sa.keys)
  }

  /** x completed only on an answer of y, under an SA mirroring its own. */
  ghost predicate Granted(y: Log, k: Completion) {
    exists j :: 0 <= j < |y.handled| && Answers(y.handled[j], k.sa, k.msgID, k.inner)
  }

  ghost predicate GrantedIke(y: Log, k: Cutover) {
    exists j :: 0 <= j < |y.handled| && Answers(y.handled[j], k.sa, k.msgID, k.inner)
  }

  ghost predicate Answers(h: Handled, sa: IkeSa, msgID: uint32, inner: seq<Payload>) {
    h.resp.Some? && h.resp.value.inner == inner && h.msgID == msgID && Mirrored(sa.keys, h.sa.keys)
  }

  ghost predicate Tied(x: Log, y: Log) {
    && (forall i :: 0 <= i < |y.handled| ==> Asked(x, y.handled[i]))
    && (forall i :: 0 <= i < |x.completed| ==> Granted(y, x.completed[i]))
    && (forall i :: 0 <= i < |x.rekeyed| ==> GrantedIke(y, x.rekeyed[i]))
  }

  lemma AskedGrows(x: Log, z: Log, h: Handled)
    requires Later(x, z) && Asked(x, h)
    ensures Asked(z, h)
  {
    var i, sa :| 0 <= i < |x.requests| && sa in Sas(x) && AskedBy(x.requests[i].d, sa, h);
    SasGrow(x, z, sa);
    assert z.requests[i] == x.requests[i];
  }

  lemma GrantedGrows(y: Log, z: Log, k: Completion)
    requires Later(y, z) && Granted(y, k)
    ensures Granted(z, k)
  {
    var j :| 0 <= j < |y.handled| && Answers(y.handled[j], k.sa, k.msgID, k.inner);
    assert z.handled[j] == y.handled[j];
  }

  lemma GrantedIkeGrows(y: Log, z: Log, k: Cutover)
    requires Later(y, z) && GrantedIke(y, k)
    ensures GrantedIke(z, k)
  {
    var j :| 0 <= j < |y.handled| && Answers(y.handled[j], k.sa, k.msgID, k.inner);
    assert z.handled[j] == y.handled[j];
  }

  /** The request behind a newly processed one. */
  lemma HeardWasAsked(w: World, first: uint32, wx: World, x: State, y: State, e: Event)
    requires Sound(w) && Sound(wx) && Inv(wx, first, x) && Hears(y, e) && Carried(x, y, e)
    ensures var t := Step(w, y, e).0; |t.log.handled| == |y.log.handled| + 1 && Asked(x.log, t.log.handled[|y.log.handled|])
  {
    hide Step, Replies, Answerable, Named, Core;
    HearsEntry(w, y, e);
    var i, sa :| 0 <= i < |x.log.sent| && sa in Sas(x.log) && Opens(sa, y, x.log.sent[i].d, e);
    SentIsLogged(wx, first, x, i);
    var j :| 0 <= j < |x.log.requests| && x.log.requests[j].d == x.log.sent[i].d;
    assert AskedBy(x.log.requests[j].d, sa, Step(w, y, e).0.log.handled[|y.log.handled|]);
  }

  lemma SentIsLogged(w: World, first: uint32, s: State, i: nat)
    requires Inv(w, first, s) && i < |s.log.sent|
    ensures Logged(s.log.sent[i].d, s.log.requests, s.log.answers)
  {
    hide ChildRequest, IkeRequest, Windowed, Cached, OnceEach, Announced, CacheBacked, Chained, Young, Tallied, Logged;
  }

  /** The processed request behind a response that arrives. */
  lemma ResponseWasAnswer(w: World, first: uint32, x: State, y: State, e: Event)
    requires Sound(w) && Inv(w, first, y) && Trace(w, y) && Carried(y, x, e)
    requires e.Inbound? && e.response && e.sa == x.ike.cur.id
    ensures exists j :: 0 <= j < |y.log.handled| && Answers(y.log.handled[j], x.ike.cur, e.msgID, e.inner)
  {
    hide Core, Replies, Earned, EarnedIke;
    var i, sa :| 0 <= i < |y.log.sent| && sa in Sas(y.log) && Opens(sa, x, y.log.sent[i].d, e);
    var d := y.log.sent[i].d;
    SentIsLogged(w, first, y, i);
    var m :| 0 <= m < |y.log.answers| && y.log.answers[m].resp == d;
    assert Traced(y.log, y.log.answers[m]);
    var j :| 0 <= j < |y.log.handled| && y.log.handled[j].resp == Some(d) && y.log.handled[j].sa.id == y.log.answers[m].sa;
    AnswerUnderItsSa(w, y, j, sa);
    assert Answers(y.log.handled[j], x.ike.cur, e.msgID, e.inner);
  }

  /** And so behind a newly completed rekey. */
  lemma CompletedWasAnswered(w: World, wy: World, first: uint32, x: State, y: State, e: Event)
    requires Sound(w) && Sound(wy) && Inv(wy, first, y) && Trace(wy, y) && Carried(y, x, e)
    requires e.Inbound? && e.response && e.sa == x.ike.cur.id
    ensures var t := Step(w, x, e).0;
            && (forall i :: |x.log.completed| <= i < |t.log.completed| ==> Granted(y.log, t.log.completed[i]))
            && (forall i :: |x.log.rekeyed| <= i < |t.log.rekeyed| ==> GrantedIke(y.log, t.log.rekeyed[i]))
  {
    hide Step, CompleteChild, CompleteIke, Inv, Trace, Carried, Answers;
    AnswerConcludes(w, x, e);
    var t, n, m := Step(w, x, e).0, |x.log.completed|, |x.log.rekeyed|;
    ResponseWasAnswer(wy, first, x, y, e);
    var j :| 0 <= j < |y.log.handled| && Answers(y.log.handled[j], x.ike.cur, e.msgID, e.inner);
    if |t.log.completed| > n {
      var k := t.log.completed[n];
      assert k.sa == x.ike.cur && k.msgID == e.msgID && k.inner == e.inner;
    }
    if |t.log.rekeyed| > m {
      var k := t.log.rekeyed[m];
      assert k.sa == x.ike.cur && k.msgID == e.msgID && k.inner == e.inner;
    }
  }

  /** The answer of a processed request is sealed under the SA that carried it. */
  lemma AnswerUnderItsSa(w: World, y: State, j: nat, sa: IkeSa)
    requires Sound(w) && Trace(w, y) && j < |y.log.handled| && y.log.handled[j].resp.Some? && sa in Sas(y.log)
    requires sa.id == y.log.handled[j].resp.value.sa
    ensures y.log.handled[j].sa == sa && y.log.handled[j].resp.value.msgID == y.log.handled[j].msgID
  {
    hide ChildAccepted, IkeAccepted, Earned, EarnedIke, Traced;
    var h := y.log.handled[j];
    assert Truthful(w, y.log, h);
    var p :| 0 <= p < |Sas(y.log)| && Sas(y.log)[p] == h.sa;
    var q :| 0 <= q < |Sas(y.log)| && Sas(y.log)[q] == sa;
  }

  /** One end's step, on anything the other ever sent, keeps the histories tied. */
  lemma TiedStep(wx: World, fx: uint32, x: State, wy: World, fy: uint32, y: State, e: Event)
    requires Sound(wx) && Sound(wy) && Inv(wx, fx, x) && Trace(wx, x) && Trace(wy, y) && Carried(x, y, e)
    requires Tied(x.log, y.log) && Tied(y.log, x.log)
    ensures Tied(x.log, Step(wy, y, e).0.log) && Tied(Step(wy, y, e).0.log, x.log)
  {
    hide Step, Inv, Hears, Later, Asked, Granted, GrantedIke, Carried, Truthful, Traced, Earned, EarnedIke, Lineage, Decoder;
    var t := Step(wy, y, e).0;
    StepLater(wy, y, e);
    LaterMeans(y.log, t.log);
    StepGrowth(wy, y, e);
    forall i | 0 <= i < |t.log.handled|
      ensures Asked(x.log, t.log.handled[i])
    {
      if i >= |y.log.handled| {
        HeardWasAsked(wy, fx, wx, x, y, e);
      }
    }
    forall i | 0 <= i < |x.log.completed|
      ensures Granted(t.log, x.log.completed[i])
    {
      GrantedGrows(y.log, t.log, x.log.completed[i]);
    }
    forall i | 0 <= i < |x.log.rekeyed|
      ensures GrantedIke(t.log, x.log.rekeyed[i])
    {
      GrantedIkeGrows(y.log, t.log, x.log.rekeyed[i]);
    }
    forall i | 0 <= i < |x.log.handled|
      ensures Asked(t.log, x.log.handled[i])
    {
      AskedGrows(y.log, t.log, x.log.handled[i]);
    }
    forall i | 0 <= i < |t.log.completed|
      ensures Granted(x.log, t.log.completed[i])
    {
      if i >= |y.log.completed| {
        CompletedWasAnswered(wy, wx, fx, y, x, e);
      }
    }
    forall i | 0 <= i < |t.log.rekeyed|
      ensures GrantedIke(x.log, t.log.rekeyed[i])
    {
      if i >= |y.log.rekeyed| {
        CompletedWasAnswered(wy, wx, fx, y, x, e);
      }
    }
  }

  ghost predicate PairInv(wa: World, fa: uint32, wb: World, fb: uint32, p: Pair)
    requires Sound(wa) && Sound(wb)
  {
    && Inv(wa, fa, p.a) && Trace(wa, p.a) && Inv(wb, fb, p.b) && Trace(wb, p.b)
    && Tied(p.a.log, p.b.log) && Tied(p.b.log, p.a.log) && Owned(wa, p.a) && Owned(wb, p.b)
  }

  lemma PerformKeeps(wa: World, fa: uint32, wb: World, fb: uint32, p: Pair, act: Act)
    requires Sound(wa) && Sound(wb) && PairInv(wa, fa, wb, fb, p) && Possible(p, act)
    ensures PairInv(wa, fa, wb, fb, Perform(wa, wb, p, act))
  {
    hide Step, Inv, Trace, Tied, Owned, Carried;
    if act.atA && !p.aDone {
      StepKeeps(wa, fa, p.a, act.e);
      TraceStep(wa, fa, p.a, act.e);
      OwnedStep(wa, p.a, act.e);
      TiedStep(wb, fb, p.b, wa, fa, p.a, act.e);
    } else if !act.atA && !p.bDone {
      StepKeeps(wb, fb, p.b, act.e);
      TraceStep(wb, fb, p.b, act.e);
      OwnedStep(wb, p.b, act.e);
      TiedStep(wa, fa, p.a, wb, fb, p.b, act.e);
    }
  }

  lemma {:induction false} AfterKeeps(wa: World, fa: uint32, wb: World, fb: uint32, p: Pair, acts: seq<Act>)
    requires Sound(wa) && Sound(wb) && PairInv(wa, fa, wb, fb, p) && Genuine(wa, wb, p, acts)
    ensures PairInv(wa, fa, wb, fb, After(wa, wb, p, acts))
    decreases acts
  {
    hide PairInv, Perform, Possible;
    if acts != [] {
      var rest := acts[..|acts| - 1];
      forall k | 0 <= k < |rest|
        ensures Possible(After(wa, wb, p, rest[..k]), rest[k])
      {
        assert rest[..k] == acts[..k];
      }
      AfterKeeps(wa, fa, wb, fb, p, rest);
      PerformKeeps(wa, fa, wb, fb, After(wa, wb, p, rest), acts[|acts| - 1]);
    }
  }

  // ----- the theorem -----

  ghost predicate HasMirror(u: ChildUpdate, y: Log) {
    exists j :: 0 <= j < |y.installs| && MirrorChild(u, y.installs[j])
  }

  ghost predicate HasIkeMirror(keys: IkeKeys, y: Log) {
    exists j :: 0 <= j < |y.swaps| && Mirrored(keys, y.swaps[j].keys)
  }

  ghost predicate AllMirrored(x: Log, y: Log) {
    && (forall i :: 0 <= i < |x.completed| ==> HasMirror(x.completed[i].update, y))
    && (forall i :: 0 <= i < |x.rekeyed| ==> HasIkeMirror(x.rekeyed[i].keys, y))
  }

  /** A proposal for the other protocol selects no suite. */
  lemma OtherProtocol(layer: Layer, p: Proposal, enabled: seq<Suite>)
    requires Rows(layer, enabled) && p.protocol != (if layer == IkeLayer then PROTOCOL_IKE else PROTOCOL_ESP)
    ensures SelectedSuite(p, enabled).None?
  {
    hide SelectedSuite;
    if SelectedSuite(p, enabled).Some? {
      SelectedSuiteIff(p, enabled, SelectedSuite(p, enabled).value);
    }
  }

  /** Neither a refusal nor the answer to an IKE rekey completes a Child rekey. */
  lemma NotAChild(w: World, keys: IkeKeys, skd: Bytes, ctx: ChildCtx, req: seq<Payload>, cut: Option<IkeKeys>, resp: seq<Payload>)
    requires Sound(w) && (if cut.Some? then IkeAccepted(w, keys, req, cut.value, resp) else Refusal(resp))
    ensures forall enabled :: Rows(EspLayer, enabled) ==> CompleteChild(w.c, skd, ctx, enabled, resp).Err?
  {
    hide SelectedSuite, ChildKeysFor, AnswerIke;
    if cut.Some? {
      var n: nat :| AcceptsIke(AnswerIke(w.c, keys.skd, w.ike, req, w.privs(n), w.draws(n)), cut.value, resp);
      IkeAnswerAnnounces(w.c, keys.skd, w.ike, req, w.privs(n), w.draws(n));
      IkeAnswerSa(w.c, keys.skd, w.ike, req, w.privs(n), w.draws(n));
      hide Extract;
      forall enabled | Rows(EspLayer, enabled)
        ensures CompleteChild(w.c, skd, ctx, enabled, resp).Err?
      {
        OtherProtocol(EspLayer, resp[0].proposals[0], enabled);
      }
    } else if |resp| == 1 {
      ExtractOneMore([], resp[0]);
      assert [] + [resp[0]] == resp;
    }
  }

  /** Neither a refusal nor the answer to a Child rekey completes an IKE rekey. */
  lemma NotAnIke(w: World, keys: IkeKeys, skd: Bytes, ctx: IkeCtx, req: seq<Payload>, update: Option<ChildUpdate>, resp: seq<Payload>)
    requires Sound(w) && (if update.Some? then ChildAccepted(w, keys, req, update.value, resp) else Refusal(resp))
    ensures forall enabled :: Rows(IkeLayer, enabled) ==> CompleteIke(w.c, skd, ctx, enabled, resp).Err?
  {
    hide SelectedSuite, FromSkeyseed, AnswerChild;
    if update.Some? {
      var was: uint32, n: nat :| Accepts(AnswerChild(w.c, keys.skd, was, w.esp, w.v6, req, w.privs(n), w.draws(n)), update.value, resp);
      ChildAnswerAnnounces(w.c, keys.skd, was, w.esp, w.v6, req, w.privs(n), w.draws(n));
      ChildAnswerSa(w.c, keys.skd, was, w.esp, w.v6, req, w.privs(n), w.draws(n));
      hide Extract;
      forall enabled | Rows(IkeLayer, enabled)
        ensures CompleteIke(w.c, skd, ctx, enabled, resp).Err?
      {
        OtherProtocol(IkeLayer, resp[0].proposals[0], enabled);
      }
    } else if |resp| == 1 {
      ExtractOneMore([], resp[0]);
      assert [] + [resp[0]] == resp;
    }
  }

  /** Under one SA a Message ID names one request, for 2^32 requests. */
  lemma OneRequest(w: World, first: uint32, s: State, i: nat, j: nat)
    requires Inv(w, first, s) && |s.log.requests| <= 0x1_0000_0000 && i < |s.log.requests| && j < |s.log.requests|
    requires s.log.requests[i].d.sa == s.log.requests[j].d.sa && s.log.requests[i].d.msgID == s.log.requests[j].d.msgID
    ensures i == j
  {
    hide ChildRequest, IkeRequest, Voiced, Cached, OnceEach, Announced, CacheBacked, Chained, Young, Tallied, Numbered;
    if i < j {
      Consecutive(s.ike.cur.id, s.ike.priorDelete, s.win, s.log.requests, i, j);
    } else if j < i {
      Consecutive(s.ike.cur.id, s.ike.priorDelete, s.win, s.log.requests, j, i);
    }
  }

  /** The request y processed is the one x asked, whichever of x's requests has the
      Message ID and SA of the exchange. */
  lemma SameExchange(w: World, first: uint32, x: State, h: Handled, sa: IkeSa, j: nat)
    requires Sound(w) && Inv(w, first, x) && Trace(w, x) && Asked(x.log, h) && sa in Sas(x.log) && Mirrored(sa.keys, h.sa.keys)
    requires Unrepeated(x.log) && |x.log.requests| <= 0x1_0000_0000
    requires j < |x.log.requests| && x.log.requests[j].d.sa == sa.id && x.log.requests[j].d.msgID == h.msgID
    ensures h.inner == x.log.requests[j].d.inner
  {
    hide Core, Truthful, Traced, Earned, EarnedIke;
    var i, other :| 0 <= i < |x.log.requests| && other in Sas(x.log) && AskedBy(x.log.requests[i].d, other, h);
    assert other.keys == sa.keys;
    var p :| 0 <= p < |Sas(x.log)| && Sas(x.log)[p] == other;
    var q :| 0 <= q < |Sas(x.log)| && Sas(x.log)[q] == sa;
    assert p == q;
    OneRequest(w, first, x, i, j);
  }

  /** What the theorem asks of the two histories. */
  ghost predicate Paired(wx: World, fx: uint32, x: State, wy: World, y: State) {
    && Sound(wx) && Sound(wy) && wx.c == wy.c && Laws(wx.c)
    && Inv(wx, fx, x) && Trace(wx, x) && Trace(wy, y) && Tied(x.log, y.log)
    && Unrepeated(x.log) && |x.log.requests| <= 0x1_0000_0000
  }

  lemma CompletedHasMirror(wx: World, fx: uint32, x: State, wy: World, y: State, i: nat)
    requires Paired(wx, fx, x, wy, y) && i < |x.log.completed|
    ensures HasMirror(x.log.completed[i].update, y.log)
  {
    hide Inv, CompleteChild, AnswerChild, ChildRequest, IkeAccepted, Refusal, Unrepeated, Traced, Lineage, Asked, MirrorChild, EarnedIke;
    var k := x.log.completed[i];
    assert Granted(y.log, k) && Earned(wx, x.log, k);
    var j :| 0 <= j < |y.log.handled| && Answers(y.log.handled[j], k.sa, k.msgID, k.inner);
    var h := y.log.handled[j];
    assert Asked(x.log, h) && Truthful(wy, y.log, h);
    var q :| 0 <= q < |x.log.requests| && Asks(wx, x.log.requests[q].d, k);
    SameExchange(wx, fx, x, h, k.sa, q);
    if h.update.None? {
      NotAChild(wy, h.sa.keys, k.sa.keys.skd, k.ctx, h.inner, h.cut, k.inner);
    } else {
      var was: uint32, n: nat :| Accepts(AnswerChild(wy.c, h.sa.keys.skd, was, wy.esp, wy.v6, h.inner, wy.privs(n), wy.draws(n)), h.update.value, k.inner);
      ChildRekeyMirrors(wx.c, k.sa.keys.skd, k.ctx, wx.esp, wy.esp, wx.v6, wy.v6, was, wy.privs(n), wy.draws(n));
      var m :| 0 <= m < |y.log.installs| && y.log.installs[m] == h.update.value;
      assert MirrorChild(k.update, y.log.installs[m]);
    }
  }

  lemma CutoverHasMirror(wx: World, fx: uint32, x: State, wy: World, y: State, i: nat)
    requires Paired(wx, fx, x, wy, y) && i < |x.log.rekeyed|
    ensures HasIkeMirror(x.log.rekeyed[i].keys, y.log)
  {
    hide Inv, CompleteIke, AnswerIke, IkeRequest, ChildAccepted, Refusal, Unrepeated, Traced, Lineage, Asked, Earned;
    var k := x.log.rekeyed[i];
    assert GrantedIke(y.log, k) && EarnedIke(wx, x.log, k);
    var j :| 0 <= j < |y.log.handled| && Answers(y.log.handled[j], k.sa, k.msgID, k.inner);
    var h := y.log.handled[j];
    assert Asked(x.log, h) && Truthful(wy, y.log, h);
    var q :| 0 <= q < |x.log.requests| && AsksIke(wx, x.log.requests[q].d, k);
    SameExchange(wx, fx, x, h, k.sa, q);
    if h.update.Some? || h.cut.None? {
      NotAnIke(wy, h.sa.keys, k.sa.keys.skd, k.ctx, h.inner, h.update, k.inner);
    } else {
      var n: nat :| AcceptsIke(AnswerIke(wy.c, h.sa.keys.skd, wy.ike, h.inner, wy.privs(n), wy.draws(n)), h.cut.value, k.inner);
      IkeRekeyMirrors(wx.c, k.sa.keys.skd, k.ctx, wx.ike, wy.ike, wy.privs(n), wy.draws(n));
      var m :| 0 <= m < |y.log.swaps| && y.log.swaps[m].keys == h.cut.value;
      assert Mirrored(k.keys, y.log.swaps[m].keys);
    }
  }

  lemma HistoryMirrored(wx: World, fx: uint32, x: State, wy: World, y: State)
    requires Paired(wx, fx, x, wy, y)
    ensures AllMirrored(x.log, y.log)
  {
    hide Paired, HasMirror, HasIkeMirror;
    forall i | 0 <= i < |x.log.completed|
      ensures HasMirror(x.log.completed[i].update, y.log)
    {
      CompletedHasMirror(wx, fx, x, wy, y, i);
    }
    forall i | 0 <= i < |x.log.rekeyed|
      ensures HasIkeMirror(x.log.rekeyed[i].keys, y.log)
    {
      CutoverHasMirror(wx, fx, x, wy, y, i);
    }
  }

  lemma StartTied(a: State, b: State)
    requires Start(a) && Start(b)
    ensures Tied(a.log, b.log) && Tied(b.log, a.log)
  {}

  /** What it takes on x's side: the SPIs x drew so far do not repeat, and it has sent no
      more requests than there are Message IDs. */
  ghost predicate Apart(w: World, x: State) {
    Distinct(w, x.log.root, x.pos) && |x.log.requests| <= 0x1_0000_0000
  }

  /** Two drivers, each as it is entered, under any loss, duplication, reordering and delay:
      in every state, every Child rekey either end has completed was installed at the other
      end as its mirror image, and every IKE SA either end has cut over to by its own rekey
      was cut over to at the other end with the same keys in the opposite role. */
  lemma CompletedRekeysMirrored(wa: World, wb: World, p: Pair, acts: seq<Act>)
    requires Sound(wa) && Sound(wb) && wa.c == wb.c && Laws(wa.c) && Start(p.a) && Start(p.b) && Genuine(wa, wb, p, acts)
    ensures var q := After(wa, wb, p, acts);
            && (Apart(wa, q.a) ==> AllMirrored(q.a.log, q.b.log))
            && (Apart(wb, q.b) ==> AllMirrored(q.b.log, q.a.log))
  {
    hide After, Inv, Trace, Genuine, Distinct, Unrepeated, AllMirrored, Start, Tied, Owned;
    var fa, fb := FirstSpi(p.a), FirstSpi(p.b);
    StartInv(wa, p.a);
    StartInv(wb, p.b);
    TraceStart(wa, p.a);
    TraceStart(wb, p.b);
    OwnedStart(wa, p.a);
    OwnedStart(wb, p.b);
    StartTied(p.a, p.b);
    AfterKeeps(wa, fa, wb, fb, p, acts);
    var q := After(wa, wb, p, acts);
    if Apart(wa, q.a) {
      OwnedUnrepeated(wa, q.a);
      HistoryMirrored(wa, fa, q.a, wb, q.b);
    }
    if Apart(wb, q.b) {
      OwnedUnrepeated(wb, q.b);
      HistoryMirrored(wb, fb, q.b, wa, q.a);
    }
  }
}
