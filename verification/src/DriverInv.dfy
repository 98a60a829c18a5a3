/** What every state of a driver run keeps. */
module DriverInv {
  import opened Bytes
  import opened IkeMsg
  import opened Rekey
  import opened Driver

  // ----- the request window -----

  ghost predicate Holds(p: Pending, sa: nat) {
    p.raw.sa == sa && p.raw.msgID == p.msgID && !p.raw.response && p.attempts >= 1
  }

  /** Message ID id under SA sa comes next after d: consecutive under one SA, 0 under a
      later one. */
  ghost predicate Follows(d: Datagram, sa: nat, id: uint32) {
    if d.sa == sa then id == Next(d.msgID) else d.sa < sa && id == 0
  }

  ghost predicate Numbered(rs: seq<Request>) {
    forall i, j :: 0 <= i < j < |rs| && j == i + 1 ==> Follows(rs[i].d, rs[j].d.sa, rs[j].d.msgID)
  }

  function Last(rs: seq<Request>): Request
    requires rs != []
  {
    rs[|rs| - 1]
  }

  ghost predicate Windowed(cur: nat, oldDelete: Option<Pending>, win: Window, rs: seq<Request>) {
    && (win.pending.Some? ==>
          Holds(win.pending.value, cur) && Next(win.pending.value.msgID) == win.messageID
          && rs != [] && Last(rs).d == win.pending.value.raw)
    && (oldDelete.Some? ==> Holds(oldDelete.value, oldDelete.value.raw.sa) && oldDelete.value.raw.sa < cur)
    && Numbered(rs)
    && (rs != [] ==> Follows(Last(rs).d, cur, win.messageID))
    && (forall i :: 0 <= i < |rs| ==> rs[i].alone && !rs[i].d.response)
  }

  /** A pending rekey carries the request its context describes. */
  ghost predicate Spoken(w: World, pending: Option<Pending>) {
    pending.Some? ==>
      var p := pending.value;
      && (p.kind.Rekeys() ==> p.raw.exchange == EXCHANGE_CREATE_CHILD_SA)
      && (p.kind.ChildRekey? ==> p.raw.inner == ChildRequest(w.c, p.kind.child, w.esp, w.v6) && |p.kind.child.ni| == NONCE_LEN)
      && (p.kind.IkeRekey? ==> p.raw.inner == IkeRequest(w.c, p.kind.ike, w.ike) && |p.kind.ike.ni| == NONCE_LEN)
  }

  // ----- the responder cache -----

  /** The last answer given under an SA, read off the history. */
  function LastAnswer(answers: seq<Answer>, sa: nat): Dedup {
    if answers == [] then Fresh else
    var a := answers[|answers| - 1];
    if a.sa == sa then Answered(a.msgID, a.resp) else LastAnswer(answers[..|answers| - 1], sa)
  }

  lemma LastAnswerPush(answers: seq<Answer>, a: Answer, sa: nat)
    ensures LastAnswer(answers + [a], sa) == if a.sa == sa then Answered(a.msgID, a.resp) else LastAnswer(answers, sa)
  {
    assert (answers + [a])[..|answers|] == answers;
  }

  /** An SA nothing was answered under has an empty cache. */
  lemma {:induction false} NoAnswerYet(answers: seq<Answer>, sa: nat)
    requires forall i :: 0 <= i < |answers| ==> answers[i].sa < sa
    ensures LastAnswer(answers, sa) == Fresh
    decreases answers
  {
    if answers != [] {
      NoAnswerYet(answers[..|answers| - 1], sa);
    }
  }

  ghost predicate Cached(ike: Ike, answers: seq<Answer>) {
    && ike.peer == LastAnswer(answers, ike.cur.id)
    && (ike.prior.Some? ==> ike.prior.value.id < ike.cur.id && ike.priorPeer == LastAnswer(answers, ike.prior.value.id))
    && (ike.prior.None? ==> ike.priorPeer.Fresh?)
    && (forall i :: 0 <= i < |answers| ==> answers[i].sa <= ike.cur.id && answers[i].resp.response)
    && (ike.peer.Answered? ==> ike.peer.resp.response) && (ike.priorPeer.Answered? ==> ike.priorPeer.resp.response)
  }

  /** Processed requests whose answer is on record are never processed again, and
      whatever installed or cut over was answered. */
  ghost predicate OnceEach(handled: seq<Handled>, answers: seq<Answer>) {
    && (forall i, j :: 0 <= i < j < |handled| && handled[i].resp.Some? ==>
          handled[i].sa.id != handled[j].sa.id || handled[i].msgID != handled[j].msgID)
    && (forall i :: 0 <= i < |handled| ==>
          && (handled[i].installs > 0 || handled[i].swaps > 0 ==> handled[i].resp.Some?)
          && (handled[i].resp.Some? ==> Duplicate(LastAnswer(answers, handled[i].sa.id), handled[i].msgID)))
  }

  // ----- announcements -----

  ghost predicate Grants(d: Datagram) {
    d.response && d.exchange == EXCHANGE_CREATE_CHILD_SA && LeadsWithSa(d.inner)
  }

  /** A rekey response that grants an SA announces one already in use. */
  ghost predicate Backed(d: Datagram, installs: seq<ChildUpdate>, swaps: seq<IkeSa>) {
    Grants(d) ==>
      && |d.inner[0].proposals| == 1
      && var p := d.inner[0].proposals[0];
         || (exists j :: 0 <= j < |installs| && ChildGrant(p, installs[j]))
         || (exists j :: 0 <= j < |swaps| && IkeGrant(p, swaps[j].keys))
  }

  ghost predicate BackedSend(x: Send, installs: seq<ChildUpdate>, swaps: seq<IkeSa>) {
    x.installs <= |installs| && x.swaps <= |swaps| && Backed(x.d, installs[..x.installs], swaps[..x.swaps])
  }

  ghost predicate Announced(sent: seq<Send>, installs: seq<ChildUpdate>, swaps: seq<IkeSa>) {
    forall i :: 0 <= i < |sent| ==> BackedSend(sent[i], installs, swaps)
  }

  ghost predicate Aged(dd: Dedup, pos: nat) {
    dd.Answered? ==> dd.resp.serial < pos
  }

  ghost predicate CacheBacked(dd: Dedup, installs: seq<ChildUpdate>, swaps: seq<IkeSa>) {
    dd.Answered? ==> Backed(dd.resp, installs, swaps)
  }

  /** Whatever was sent is a request of ours or an answer on record. */
  ghost predicate Voiced(sent: seq<Send>, rs: seq<Request>, answers: seq<Answer>) {
    forall i :: 0 <= i < |sent| ==> Logged(sent[i].d, rs, answers)
  }

  ghost predicate Logged(d: Datagram, rs: seq<Request>, answers: seq<Answer>) {
    if d.response then exists j :: 0 <= j < |answers| && answers[j].resp == d
    else exists j :: 0 <= j < |rs| && rs[j].d == d
  }

  // ----- the Child SA -----

  function Tip(first: uint32, installs: seq<ChildUpdate>): uint32 {
    if installs == [] then first else installs[|installs| - 1].newInSPI
  }

  /** Each installed Child SA names its predecessor; the last one is the live one, and a
      pending Child rekey names the live one. */
  ghost predicate Linked(first: uint32, installs: seq<ChildUpdate>) {
    forall i :: 0 <= i < |installs| ==> installs[i].oldInSPI == Tip(first, installs[..i])
  }

  ghost predicate Chained(first: uint32, sa: Option<ChildSa>, pending: Option<Pending>, installs: seq<ChildUpdate>) {
    && Linked(first, installs) && (forall i :: 0 <= i < |installs| ==> Buildable(installs[i]))
    && (sa.Some? ==> sa.value.inSPI == Tip(first, installs))
    && (pending.Some? && pending.value.kind.ChildRekey? ==> sa.Some? && pending.value.kind.child.oldInSPI == sa.value.inSPI)
  }

  /** While the live Child SA is gone, a re-establishment is queued or in flight, except
      exactly after a rejected reply that found none queued. */
  ghost predicate Recoverable(child: Child, pending: Option<Pending>, need: bool, lost: bool) {
    need ==> (lost <==> !(child.reestablish || (pending.Some? && pending.value.kind.Reestablishes())))
  }

  // ----- transmissions -----

  function Count(sent: seq<Send>, d: Datagram): nat {
    if sent == [] then 0 else Count(sent[..|sent| - 1], d) + if sent[|sent| - 1].d == d then 1 else 0
  }

  lemma CountPush(sent: seq<Send>, x: Send, d: Datagram)
    ensures Count(sent + [x], d) == Count(sent, d) + if x.d == d then 1 else 0
  {
    assert (sent + [x])[..|sent|] == sent;
  }

  lemma {:induction false} CountNone(sent: seq<Send>, d: Datagram)
    requires forall i :: 0 <= i < |sent| ==> sent[i].d != d
    ensures Count(sent, d) == 0
    decreases sent
  {
    if sent != [] {
      CountNone(sent[..|sent| - 1], d);
    }
  }

  function Max(a: nat, b: nat): nat {
    if a < b then b else a
  }

  /** How often a request may be transmitted. */
  function Budget(w: World, hurried: set<nat>, r: Request): nat {
    if r.probe then FAST_TRIES else if r.d.serial in hurried then Max(w.tries, FAST_TRIES) else w.tries
  }

  ghost predicate Young(rs: seq<Request>, sent: seq<Send>, hurried: set<nat>, pos: nat) {
    && (forall i :: 0 <= i < |rs| ==> rs[i].d.serial < pos)
    && (forall i, j :: 0 <= i < j < |rs| ==> rs[i].d.serial < rs[j].d.serial)
    && (forall i :: 0 <= i < |sent| ==> sent[i].d.serial < pos)
    && (forall n :: n in hurried ==> n < pos)
  }

  ghost predicate Within(w: World, rs: seq<Request>, sent: seq<Send>, hurried: set<nat>) {
    forall i :: 0 <= i < |rs| ==> Count(sent, rs[i].d) <= Budget(w, hurried, rs[i])
  }

  ghost predicate Tallied(w: World, pending: Option<Pending>, oldDelete: Option<Pending>,
                    rs: seq<Request>, sent: seq<Send>, hurried: set<nat>) {
    && Within(w, rs, sent, hurried)
    && (pending.Some? && rs != [] ==>
          var p := pending.value;
          && Count(sent, p.raw) == p.attempts
          && (p.fast <==> Last(rs).probe || p.raw.serial in hurried))
    && (oldDelete.Some? ==>
          var p := oldDelete.value;
          Request(p.raw, true, false) in rs && p.raw.serial !in hurried && Count(sent, p.raw) == p.attempts)
  }

  // ----- all of it -----

  ghost predicate Core(w: World, first: uint32, s: State) {
    && Windowed(s.ike.cur.id, s.ike.priorDelete, s.win, s.log.requests)
    && Spoken(w, s.win.pending)
    && Cached(s.ike, s.log.answers)
    && OnceEach(s.log.handled, s.log.answers)
    && Announced(s.log.sent, s.log.installs, s.log.swaps)
    && CacheBacked(s.ike.peer, s.log.installs, s.log.swaps) && CacheBacked(s.ike.priorPeer, s.log.installs, s.log.swaps)
    && Aged(s.ike.peer, s.pos) && Aged(s.ike.priorPeer, s.pos)
    && Voiced(s.log.sent, s.log.requests, s.log.answers)
    && Chained(first, s.child.sa, s.win.pending, s.log.installs)
    && Young(s.log.requests, s.log.sent, s.log.hurried, s.pos)
    && Tallied(w, s.win.pending, s.ike.priorDelete, s.log.requests, s.log.sent, s.log.hurried)
  }

  ghost predicate Recovers(s: State) {
    Recoverable(s.child, s.win.pending, s.log.need, s.log.lost)
  }

  ghost predicate Inv(w: World, first: uint32, s: State) {
    Core(w, first, s) && Recovers(s)
  }
}
