/** Where the entries of a session's history come from: over every run, each processed
    request was answered by what its payloads and its SA yield, and each completed rekey
    follows from a request of ours and its response. */
module DriverTrace {
  import opened Bytes
  import opened IkeMsg
  import opened Rekey
  import opened Driver
  import opened DriverInv
  import opened DriverSteps
  import opened DriverFrame

  // ----- what the history tells -----

  /** The IKE SAs a session has had, oldest first. */
  function Sas(log: Log): seq<IkeSa> {
    [log.root] + log.swaps
  }

  ghost predicate Lineage(s: State) {
    var sas := Sas(s.log);
    && (forall k :: 0 <= k < |sas| ==> sas[k].id == s.log.root.id + k)
    && s.ike.cur == sas[|sas| - 1]
    && (s.ike.prior.Some? ==> s.ike.prior.value in sas)
  }

  /** A processed request was answered by what its payloads and its SA yield. */
  ghost predicate Truthful(w: World, log: Log, h: Handled)
    requires Sound(w)
  {
    && h.sa in Sas(log) && h.installs <= 1 && h.swaps <= 1 && h.triggers == h.named
    && (h.update.Some? ==> h.update.value in log.installs)
    && (h.cut.Some? ==> exists k :: 0 <= k < |log.swaps| && log.swaps[k].keys == h.cut.value)
    && (h.resp.Some? ==> Replies(w, h.sa, h.msgID, h.inner, h.resp.value, h.update, h.cut))
  }

  ghost predicate Traced(log: Log, a: Answer) {
    exists j :: 0 <= j < |log.handled| && log.handled[j].resp == Some(a.resp) && log.handled[j].sa.id == a.sa
  }

  /** A completed Child rekey had a request of ours and follows from its response. */
  ghost predicate Earned(w: World, log: Log, k: Completion)
    requires Sound(w)
  {
    && k.sa in Sas(log)
    && CompleteChild(w.c, k.sa.keys.skd, k.ctx, w.esp, k.inner) == Ok(k.update)
    && exists i :: 0 <= i < |log.requests| && Asks(w, log.requests[i].d, k)
  }

  ghost predicate Asks(w: World, d: Datagram, k: Completion) {
    d.sa == k.sa.id && d.msgID == k.msgID && d.inner == ChildRequest(w.c, k.ctx, w.esp, w.v6)
  }

  /** Likewise a completed IKE rekey. */
  ghost predicate EarnedIke(w: World, log: Log, k: Cutover)
    requires Sound(w)
  {
    && k.sa in Sas(log)
    && CompleteIke(w.c, k.sa.keys.skd, k.ctx, w.ike, k.inner) == Ok(k.keys)
    && exists i :: 0 <= i < |log.requests| && AsksIke(w, log.requests[i].d, k)
  }

  ghost predicate AsksIke(w: World, d: Datagram, k: Cutover) {
    d.sa == k.sa.id && d.msgID == k.msgID && d.inner == IkeRequest(w.c, k.ctx, w.ike)
  }

  ghost predicate Trace(w: World, s: State)
    requires Sound(w)
  {
    && Lineage(s)
    && (forall i :: 0 <= i < |s.log.handled| ==> Truthful(w, s.log, s.log.handled[i]))
    && (forall i :: 0 <= i < |s.log.answers| ==> Traced(s.log, s.log.answers[i]))
    && (forall i :: 0 <= i < |s.log.completed| ==> Earned(w, s.log, s.log.completed[i]))
    && (forall i :: 0 <= i < |s.log.rekeyed| ==> EarnedIke(w, s.log, s.log.rekeyed[i]))
  }

  // ----- it stays truthful -----

  ghost predicate Later(l: Log, m: Log) {
    && m.root == l.root && l.swaps <= m.swaps && l.requests <= m.requests && l.installs <= m.installs
    && l.handled <= m.handled && l.answers <= m.answers && l.completed <= m.completed
    && l.rekeyed <= m.rekeyed
  }

  lemma SasGrow(l: Log, m: Log, sa: IkeSa)
    requires Later(l, m) && sa in Sas(l)
    ensures sa in Sas(m)
  {
    var k :| 0 <= k < |Sas(l)| && Sas(l)[k] == sa;
    assert Sas(m)[k] == sa;
  }

  lemma TruthfulGrows(w: World, l: Log, m: Log, h: Handled)
    requires Sound(w) && Later(l, m) && Truthful(w, l, h)
    ensures Truthful(w, m, h)
  {
    hide Replies;
    SasGrow(l, m, h.sa);
    if h.update.Some? {
      var j :| 0 <= j < |l.installs| && l.installs[j] == h.update.value;
      assert m.installs[j] == h.update.value;
    }
    if h.cut.Some? {
      var k :| 0 <= k < |l.swaps| && l.swaps[k].keys == h.cut.value;
      assert m.swaps[k] == l.swaps[k];
    }
  }

  lemma TracedGrows(l: Log, m: Log, a: Answer)
    requires Later(l, m) && Traced(l, a)
    ensures Traced(m, a)
  {
    var j :| 0 <= j < |l.handled| && l.handled[j].resp == Some(a.resp) && l.handled[j].sa.id == a.sa;
    assert m.handled[j] == l.handled[j];
  }

  lemma EarnedGrows(w: World, l: Log, m: Log, k: Completion)
    requires Sound(w) && Later(l, m) && Earned(w, l, k)
    ensures Earned(w, m, k)
  {
    hide CompleteChild, ChildRequest;
    SasGrow(l, m, k.sa);
    var i :| 0 <= i < |l.requests| && Asks(w, l.requests[i].d, k);
    assert m.requests[i] == l.requests[i];
  }

  lemma EarnedIkeGrows(w: World, l: Log, m: Log, k: Cutover)
    requires Sound(w) && Later(l, m) && EarnedIke(w, l, k)
    ensures EarnedIke(w, m, k)
  {
    hide CompleteIke, IkeRequest;
    SasGrow(l, m, k.sa);
    var i :| 0 <= i < |l.requests| && AsksIke(w, l.requests[i].d, k);
    assert m.requests[i] == l.requests[i];
  }

  lemma StepLater(w: World, s: State, e: Event)
    requires Sound(w)
    ensures Later(s.log, Step(w, s, e).0.log)
  {
    hide Step, Entry, Concludes;
    StepTale(w, s, e);
    if Hears(s, e) {
      HearsEntry(w, s, e);
      EntryLater(w, s, e);
    } else if e.Inbound? && e.response && e.sa == s.ike.cur.id {
      AnswerConcludes(w, s, e);
      ConcludesLater(w, s, e);
    }
  }

  lemma EntryLater(w: World, s: State, e: Event)
    requires Sound(w) && Hears(s, e)
    ensures Step(w, s, e).0.log.completed == s.log.completed && Step(w, s, e).0.log.rekeyed == s.log.rekeyed
    ensures s.log.answers <= Step(w, s, e).0.log.answers && s.log.handled <= Step(w, s, e).0.log.handled
  {
    hide Step, Replies, Answerable, Named;
    HearsEntry(w, s, e);
  }

  lemma ConcludesLater(w: World, s: State, e: Event)
    requires Sound(w) && e.Inbound? && e.response && e.sa == s.ike.cur.id
    ensures var t := Step(w, s, e).0;
            && t.log.handled == s.log.handled && t.log.answers == s.log.answers
            && s.log.completed <= t.log.completed && |t.log.completed| <= |s.log.completed| + 1
            && s.log.rekeyed <= t.log.rekeyed && |t.log.rekeyed| <= |s.log.rekeyed| + 1
  {
    hide Step, CompleteChild, CompleteIke;
    AnswerConcludes(w, s, e);
  }

  lemma LineageStep(w: World, s: State, e: Event)
    requires Sound(w) && Lineage(s)
    ensures Lineage(Step(w, s, e).0)
  {
    hide Step, Hears;
    StepTale(w, s, e);
    var t := Step(w, s, e).0;
    if t.log.swaps == s.log.swaps {
      assert Sas(t.log) == Sas(s.log);
    } else {
      assert Sas(t.log) == Sas(s.log) + [t.ike.cur];
      assert Sas(s.log)[|Sas(s.log)| - 1] == s.ike.cur;
    }
  }

  lemma DecodedSa(s: State, now: int, id: nat)
    requires Lineage(s) && Decoder(s, now, id).Some?
    ensures Decoder(s, now, id).value.0 in Sas(s.log) && Decoder(s, now, id).value.0.id == id
  {
    assert Sas(s.log)[|Sas(s.log)| - 1] == s.ike.cur;
  }

  /** The entry a processed request leaves is truthful and its answer traceable. */
  lemma HeardTrace(w: World, s: State, e: Event)
    requires Sound(w) && Trace(w, s) && Hears(s, e)
    ensures var t, n := Step(w, s, e).0, |s.log.handled|;
            && |t.log.handled| == n + 1 && Truthful(w, t.log, t.log.handled[n])
            && forall i :: |s.log.answers| <= i < |t.log.answers| ==> Traced(t.log, t.log.answers[i])
  {
    hide Step, Replies, Answerable, Named, Truthful, Earned, EarnedIke;
    var t, n, dec := Step(w, s, e).0, |s.log.handled|, Decoder(s, e.now, e.sa).value;
    HearsEntry(w, s, e);
    StepLater(w, s, e);
    DecodedSa(s, e.now, e.sa);
    SasGrow(s.log, t.log, dec.0);
    var h := t.log.handled[n];
    assert h.update.Some? ==> t.log.installs[|s.log.installs|] == h.update.value;
    assert h.cut.Some? ==> t.log.swaps[|s.log.swaps|].keys == h.cut.value;
    EntryTruthful(w, Heard(s, e.now), t, h, e.now, dec.0, dec.1, e.exchange, e.msgID, e.inner);
  }

  lemma EntryTruthful(w: World, s: State, t: State, h: Handled, now: int, sa: IkeSa, via: bool, exchange: byte, msgID: uint32, inner: seq<Payload>)
    requires Sound(w) && Entry(w, s, t, h, now, sa, via, exchange, msgID, inner) && sa in Sas(t.log)
    requires h.update.Some? ==> h.update.value in t.log.installs
    requires h.cut.Some? ==> exists k :: 0 <= k < |t.log.swaps| && t.log.swaps[k].keys == h.cut.value
    ensures Truthful(w, t.log, h)
  {
    hide Replies, Answerable, Named;
  }

  lemma CompletedTrace(w: World, first: uint32, s: State, e: Event)
    requires Sound(w) && Inv(w, first, s) && Trace(w, s) && e.Inbound? && e.response && e.sa == s.ike.cur.id
    ensures var t := Step(w, s, e).0;
            && (forall i :: |s.log.completed| <= i < |t.log.completed| ==> Earned(w, t.log, t.log.completed[i]))
            && (forall i :: |s.log.rekeyed| <= i < |t.log.rekeyed| ==> EarnedIke(w, t.log, t.log.rekeyed[i]))
  {
    hide Step, CompleteChild, CompleteIke, ChildRequest, IkeRequest, Truthful, Core;
    var t, n := Step(w, s, e).0, |s.log.completed|;
    AnswerConcludes(w, s, e);
    StepLater(w, s, e);
    if |t.log.completed| > n {
      PendingAsked(w, first, s);
      var j := |s.log.requests| - 1;
      assert t.log.requests[j] == s.log.requests[j];
      assert Asks(w, t.log.requests[j].d, t.log.completed[n]);
      assert Sas(s.log)[|Sas(s.log)| - 1] == s.ike.cur;
      SasGrow(s.log, t.log, s.ike.cur);
    }
    var m := |s.log.rekeyed|;
    if |t.log.rekeyed| > m {
      PendingAsked(w, first, s);
      var j := |s.log.requests| - 1;
      assert t.log.requests[j] == s.log.requests[j];
      assert AsksIke(w, t.log.requests[j].d, t.log.rekeyed[m]);
      assert Sas(s.log)[|Sas(s.log)| - 1] == s.ike.cur;
      SasGrow(s.log, t.log, s.ike.cur);
    }
  }

  lemma PendingAsked(w: World, first: uint32, s: State)
    requires Inv(w, first, s) && s.win.pending.Some?
    ensures var p, n := s.win.pending.value, |s.log.requests|;
            && n > 0 && s.log.requests[n - 1].d == p.raw && p.raw.sa == s.ike.cur.id && p.raw.msgID == p.msgID
            && (p.kind.ChildRekey? ==> p.raw.inner == ChildRequest(w.c, p.kind.child, w.esp, w.v6))
            && (p.kind.IkeRekey? ==> p.raw.inner == IkeRequest(w.c, p.kind.ike, w.ike))
  {
    hide ChildRequest, IkeRequest, Voiced, Cached, OnceEach, Announced, CacheBacked, Chained, Young, Tallied, Numbered;
  }

  lemma TraceStep(w: World, first: uint32, s: State, e: Event)
    requires Sound(w) && Inv(w, first, s) && Trace(w, s)
    ensures Trace(w, Step(w, s, e).0)
  {
    hide Step, Truthful, Traced, Earned, EarnedIke, Lineage, Inv, Hears, Later, Decoder;
    var t := Step(w, s, e).0;
    LineageStep(w, s, e);
    StepLater(w, s, e);
    LaterMeans(s.log, t.log);
    forall i | 0 <= i < |t.log.handled|
      ensures Truthful(w, t.log, t.log.handled[i])
    {
      if i < |s.log.handled| {
        TruthfulGrows(w, s.log, t.log, s.log.handled[i]);
      } else {
        StepGrowth(w, s, e);
        HeardTrace(w, s, e);
      }
    }
    forall i | 0 <= i < |t.log.answers|
      ensures Traced(t.log, t.log.answers[i])
    {
      if i < |s.log.answers| {
        TracedGrows(s.log, t.log, s.log.answers[i]);
      } else {
        StepGrowth(w, s, e);
        HeardTrace(w, s, e);
      }
    }
    forall i | 0 <= i < |t.log.completed|
      ensures Earned(w, t.log, t.log.completed[i])
    {
      if i < |s.log.completed| {
        EarnedGrows(w, s.log, t.log, s.log.completed[i]);
      } else {
        StepGrowth(w, s, e);
        CompletedTrace(w, first, s, e);
      }
    }
    forall i | 0 <= i < |t.log.rekeyed|
      ensures EarnedIke(w, t.log, t.log.rekeyed[i])
    {
      if i < |s.log.rekeyed| {
        EarnedIkeGrows(w, s.log, t.log, s.log.rekeyed[i]);
      } else {
        StepGrowth(w, s, e);
        CompletedTrace(w, first, s, e);
      }
    }
  }

  lemma LaterMeans(l: Log, m: Log)
    requires Later(l, m)
    ensures |l.handled| <= |m.handled| && forall i :: 0 <= i < |l.handled| ==> m.handled[i] == l.handled[i]
    ensures |l.answers| <= |m.answers| && forall i :: 0 <= i < |l.answers| ==> m.answers[i] == l.answers[i]
    ensures |l.completed| <= |m.completed| && forall i :: 0 <= i < |l.completed| ==> m.completed[i] == l.completed[i]
    ensures |l.rekeyed| <= |m.rekeyed| && forall i :: 0 <= i < |l.rekeyed| ==> m.rekeyed[i] == l.rekeyed[i]
  {}

  /** Only a heard request adds to handled and answers, only a response to our own rekeys. */
  lemma StepGrowth(w: World, s: State, e: Event)
    requires Sound(w)
    ensures var t := Step(w, s, e).0;
            && (|t.log.handled| > |s.log.handled| || |t.log.answers| > |s.log.answers| ==> Hears(s, e))
            && (|t.log.completed| > |s.log.completed| || |t.log.rekeyed| > |s.log.rekeyed| ==> e.Inbound? && e.response && e.sa == s.ike.cur.id)
  {
    hide Step, Hears;
    StepTale(w, s, e);
  }

  lemma TraceStart(w: World, s: State)
    requires Sound(w) && Start(s)
    ensures Trace(w, s)
  {}

  lemma {:induction false} RunTrace(w: World, first: uint32, s: State, es: seq<Event>)
    requires Sound(w) && Inv(w, first, s) && Trace(w, s)
    ensures Trace(w, Run(w, s, es).0)
    decreases es
  {
    hide Inv, Trace, Step;
    if es != [] {
      RunTrace(w, first, s, es[..|es| - 1]);
      RunKeeps(w, first, s, es[..|es| - 1]);
      TraceStep(w, first, Run(w, s, es[..|es| - 1]).0, es[|es| - 1]);
    }
  }
}
