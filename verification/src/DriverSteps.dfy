/** Every step of the driver keeps the invariants. */
module DriverSteps {
  import opened Bytes
  import opened IkeMsg
  import opened KeySchedule
  import opened Rekey
  import opened Driver
  import opened DriverInv
  import BodyCodec

  // ----- growing histories -----

  lemma BackedGrows(d: Datagram, installs: seq<ChildUpdate>, swaps: seq<IkeSa>, us: seq<ChildUpdate>, sas: seq<IkeSa>)
    requires Backed(d, installs, swaps)
    ensures Backed(d, installs + us, swaps + sas)
  {
    hide ChildGrant, IkeGrant;
    if Grants(d) {
      var p := d.inner[0].proposals[0];
      if j :| 0 <= j < |installs| && ChildGrant(p, installs[j]) {
        assert (installs + us)[j] == installs[j];
      } else {
        var j :| 0 <= j < |swaps| && IkeGrant(p, swaps[j].keys);
        assert (swaps + sas)[j] == swaps[j];
      }
    }
  }

  lemma AnnouncedGrows(sent: seq<Send>, installs: seq<ChildUpdate>, swaps: seq<IkeSa>, us: seq<ChildUpdate>, sas: seq<IkeSa>)
    requires Announced(sent, installs, swaps)
    ensures Announced(sent, installs + us, swaps + sas)
  {
    hide Backed;
    forall i | 0 <= i < |sent|
      ensures BackedSend(sent[i], installs + us, swaps + sas)
    {
      var x := sent[i];
      assert (installs + us)[..x.installs] == installs[..x.installs];
      assert (swaps + sas)[..x.swaps] == swaps[..x.swaps];
    }
  }

  lemma AnnouncedPush(sent: seq<Send>, d: Datagram, installs: seq<ChildUpdate>, swaps: seq<IkeSa>)
    requires Announced(sent, installs, swaps) && Backed(d, installs, swaps)
    ensures Announced(sent + [Send(d, |installs|, |swaps|)], installs, swaps)
  {
    hide Backed;
    assert installs[..|installs|] == installs && swaps[..|swaps|] == swaps;
  }

  lemma VoicedPush(sent: seq<Send>, x: Send, rs: seq<Request>, answers: seq<Answer>)
    requires Voiced(sent, rs, answers) && Logged(x.d, rs, answers)
    ensures Voiced(sent + [x], rs, answers)
  {
    hide Logged;
  }

  lemma VoicedGrows(sent: seq<Send>, rs: seq<Request>, answers: seq<Answer>, more: seq<Request>, told: seq<Answer>)
    requires Voiced(sent, rs, answers)
    ensures Voiced(sent, rs + more, answers + told)
  {
    forall i | 0 <= i < |sent|
      ensures Logged(sent[i].d, rs + more, answers + told)
    {
      if sent[i].d.response {
        var j :| 0 <= j < |answers| && answers[j].resp == sent[i].d;
        assert (answers + told)[j] == answers[j];
      } else {
        var j :| 0 <= j < |rs| && rs[j].d == sent[i].d;
        assert (rs + more)[j] == rs[j];
      }
    }
  }

  /** A new request, and its first transmission. */
  lemma VoicedNew(sent: seq<Send>, x: Send, rs: seq<Request>, q: Request, answers: seq<Answer>)
    requires Voiced(sent, rs, answers) && x.d == q.d && !q.d.response
    ensures Voiced(sent + [x], rs + [q], answers)
  {
    VoicedGrows(sent, rs, answers, [q], []);
    assert answers + [] == answers;
    assert (rs + [q])[|rs|] == q;
    VoicedPush(sent, x, rs + [q], answers);
  }

  lemma {:induction false} LastAnswerLogged(answers: seq<Answer>, sa: nat, rs: seq<Request>)
    requires LastAnswer(answers, sa).Answered? && LastAnswer(answers, sa).resp.response
    ensures Logged(LastAnswer(answers, sa).resp, rs, answers)
    decreases answers
  {
    var n := |answers| - 1;
    if answers[n].sa != sa {
      LastAnswerLogged(answers[..n], sa, rs);
      var j :| 0 <= j < n && answers[..n][j].resp == LastAnswer(answers, sa).resp;
      assert answers[j].resp == LastAnswer(answers, sa).resp;
    }
  }

  /** Sending something that is not a request leaves every tally alone. */
  lemma TalliedPushOther(w: World, pending: Option<Pending>, oldDelete: Option<Pending>,
                         rs: seq<Request>, sent: seq<Send>, hurried: set<nat>, x: Send)
    requires Tallied(w, pending, oldDelete, rs, sent, hurried)
    requires pending.Some? ==> rs != [] && Last(rs).d == pending.value.raw
    requires forall i :: 0 <= i < |rs| ==> rs[i].d != x.d
    ensures Tallied(w, pending, oldDelete, rs, sent + [x], hurried)
  {
    hide Count;
    forall i | 0 <= i < |rs|
      ensures Count(sent + [x], rs[i].d) == Count(sent, rs[i].d)
    {
      CountPush(sent, x, rs[i].d);
    }
    if oldDelete.Some? {
      var i :| 0 <= i < |rs| && rs[i] == Request(oldDelete.value.raw, true, false);
    }
  }

  /** Retransmitting request k adds one to its tally only. */
  lemma WithinRetry(w: World, rs: seq<Request>, sent: seq<Send>, hurried: set<nat>, x: Send)
    requires Within(w, rs, sent, hurried)
    requires forall i :: 0 <= i < |rs| && rs[i].d == x.d ==> Count(sent, x.d) + 1 <= Budget(w, hurried, rs[i])
    ensures Within(w, rs, sent + [x], hurried)
    ensures Count(sent + [x], x.d) == Count(sent, x.d) + 1
    ensures forall d :: d != x.d ==> Count(sent + [x], d) == Count(sent, d)
  {
    hide Count, Budget;
    forall d: Datagram
      ensures Count(sent + [x], d) == Count(sent, d) + if x.d == d then 1 else 0
    {
      CountPush(sent, x, d);
    }
  }

  // ----- sending -----

  lemma BumpKeeps(w: World, first: uint32, s: State)
    requires Core(w, first, s)
    ensures Core(w, first, Bump(s))
  {
    hide ChildRequest, IkeRequest, Voiced, Windowed, Cached, OnceEach, Announced, CacheBacked, Chained, Tallied;
  }

  /** A response on its way out. */
  lemma TransmitKeeps(w: World, first: uint32, s: State, d: Datagram)
    requires Core(w, first, s) && d.response && d.serial < s.pos && Backed(d, s.log.installs, s.log.swaps)
    requires Logged(d, s.log.requests, s.log.answers)
    ensures Core(w, first, Transmit(s, d))
  {
    hide ChildRequest, IkeRequest, Voiced, Cached, OnceEach, Announced, CacheBacked, Chained, Tallied, Backed, Logged;
    VoicedPush(s.log.sent, Send(d, |s.log.installs|, |s.log.swaps|), s.log.requests, s.log.answers);
    AnnouncedPush(s.log.sent, d, s.log.installs, s.log.swaps);
    TalliedPushOther(w, s.win.pending, s.ike.priorDelete, s.log.requests, s.log.sent, s.log.hurried,
                     Send(d, |s.log.installs|, |s.log.swaps|));
  }

  // ----- originating -----

  lemma NumberedPush(rs: seq<Request>, r: Request)
    requires Numbered(rs) && (rs != [] ==> Follows(Last(rs).d, r.d.sa, r.d.msgID))
    ensures Numbered(rs + [r])
  {}

  lemma TalliedNew(w: World, p: Pending, oldDelete: Option<Pending>, rs: seq<Request>, r: Request,
                   sent: seq<Send>, x: Send, hurried: set<nat>, pos: nat)
    requires w.tries >= 1 && Tallied(w, None, oldDelete, rs, sent, hurried) && Young(rs, sent, hurried, pos)
    requires x.d == r.d == p.raw && r.d.serial == pos && p.attempts == 1 && (p.fast <==> r.probe)
    ensures Tallied(w, Some(p), oldDelete, rs + [r], sent + [x], hurried)
    ensures r == Request(r.d, true, false) ==> Tallied(w, None, Some(p), rs + [r], sent + [x], hurried)
  {
    hide Count;
    CountNone(sent, r.d);
    var rs1 := rs + [r];
    assert Within(w, rs1, sent, hurried) by {
      forall i | 0 <= i < |rs1|
        ensures Count(sent, rs1[i].d) <= Budget(w, hurried, rs1[i])
      {
        assert i < |rs| ==> rs1[i] == rs[i];
      }
    }
    WithinRetry(w, rs1, sent, hurried, x);
    assert rs1[|rs|] == r;
  }

  /** The next Message ID under the current SA is used up, in either slot. */
  lemma WindowedNew(cur: nat, oldDelete: Option<Pending>, win: Window, rs: seq<Request>, q: Request, p: Pending)
    requires Windowed(cur, oldDelete, win, rs) && win.pending.None? && Holds(p, cur)
    requires q.d == p.raw && q.alone && p.msgID == win.messageID
    ensures Windowed(cur, oldDelete, Window(Next(win.messageID), Some(p), win.fastDue), rs + [q])
    ensures Windowed(cur, None, Window(Next(win.messageID), None, win.fastDue), rs + [q])
  {
    hide Numbered;
    NumberedPush(rs, q);
  }

  lemma OriginateKeeps(w: World, first: uint32, s: State, now: int, exchange: byte, inner: seq<Payload>, kind: Kind, fast: bool)
    requires Sound(w) && Core(w, first, s) && s.win.pending.None?
    requires kind.ChildRekey? ==> s.child.sa.Some? && kind.child.oldInSPI == s.child.sa.value.inSPI
    requires kind.Rekeys() ==> exchange == EXCHANGE_CREATE_CHILD_SA
    requires kind.ChildRekey? ==> inner == ChildRequest(w.c, kind.child, w.esp, w.v6) && |kind.child.ni| == NONCE_LEN
    requires kind.IkeRekey? ==> inner == IkeRequest(w.c, kind.ike, w.ike) && |kind.ike.ni| == NONCE_LEN
    ensures var r := Originate(w, s, now, exchange, inner, kind, fast);
            Core(w, first, r.0) && Taken(s, r.0, kind.Reestablishes(), r.1)
  {
    hide ChildRequest, IkeRequest, Voiced, Cached, OnceEach, Announced, CacheBacked, Tallied, Backed, Linked, Windowed;
    BumpKeeps(w, first, s);
    var r := Originate(w, s, now, exchange, inner, kind, fast).0;
    if w.encodes(s.pos) {
      var raw := Sealed(s, s.ike.cur, exchange, false, s.win.messageID, inner);
      var q := Request(raw, true, fast);
      var x := Send(raw, |s.log.installs|, |s.log.swaps|);
      NothingOutstanding(w, first, s);
      WindowedNew(s.ike.cur.id, s.ike.priorDelete, s.win, s.log.requests, q, r.win.pending.value);
      NotGrant(raw, s.log.installs, s.log.swaps);
      AnnouncedPush(s.log.sent, raw, s.log.installs, s.log.swaps);
      VoicedNew(s.log.sent, x, s.log.requests, q, s.log.answers);
      TalliedNew(w, r.win.pending.value, s.ike.priorDelete, s.log.requests, q, s.log.sent, x, s.log.hurried, s.pos);
    }
  }

  lemma NothingOutstanding(w: World, first: uint32, s: State)
    requires Core(w, first, s) && s.win.pending.None?
    ensures !Outstanding(Bump(s), s.ike.cur.id)
  {
    hide ChildRequest, IkeRequest, Voiced, Cached, OnceEach, Announced, CacheBacked, Tallied, Chained, Numbered, Young;
  }

  lemma NotGrant(d: Datagram, installs: seq<ChildUpdate>, swaps: seq<IkeSa>)
    requires !d.response || !LeadsWithSa(d.inner)
    ensures Backed(d, installs, swaps)
  {}

  /** What originating leaves alone, and that on success the window is taken. */
  ghost predicate Taken(s: State, t: State, reestablish: bool, ok: bool) {
    && t.ike == s.ike && t.child == s.child
    && t.log.installs == s.log.installs && t.log.swaps == s.log.swaps && t.log.answers == s.log.answers
    && t.log.handled == s.log.handled && t.log.triggers == s.log.triggers && t.log.deaths == s.log.deaths
    && t.log.need == s.log.need && t.log.lost == s.log.lost
    && (t.win.pending == s.win.pending || (t.win.pending.Some? && t.win.pending.value.kind.Reestablishes() == reestablish))
    && (ok ==> t.win.pending.Some? && t.win.pending.value.kind.Reestablishes() == reestablish)
  }

  lemma InitiateDpdKeeps(w: World, first: uint32, s: State, now: int, fast: bool)
    requires Sound(w) && Core(w, first, s) && s.win.pending.None?
    ensures var r := InitiateDpd(w, s, now, fast); Core(w, first, r.0) && Taken(s, r.0, false, r.1)
  {
    hide Core, Originate;
    OriginateKeeps(w, first, s, now, EXCHANGE_INFORMATIONAL, [], Dpd, fast);
  }

  lemma InitiateChildKeeps(w: World, first: uint32, s: State, now: int, reestablish: bool)
    requires Sound(w) && Core(w, first, s) && s.win.pending.None?
    ensures var r := InitiateChild(w, s, now, reestablish); Core(w, first, r.0) && Taken(s, r.0, reestablish, r.1)
  {
    hide Core, Originate, ChildRequest;
    BumpKeeps(w, first, s);
    if s.child.sa.Some? && w.draws(s.pos).Some? && (s.child.pfs ==> w.privs(s.pos).Some?) {
      var dh := if s.child.pfs then Some(Dh(PfsGroup(s), w.privs(s.pos).value)) else None;
      var draw := w.draws(s.pos).value;
      var ctx := ChildCtx(draw.spi4, s.child.sa.value.inSPI, draw.nonce, reestablish, dh);
      OriginateKeeps(w, first, Bump(s), now, EXCHANGE_CREATE_CHILD_SA, ChildRequest(w.c, ctx, w.esp, w.v6), ChildRekey(ctx), false);
    }
  }

  lemma InitiateIkeKeeps(w: World, first: uint32, s: State, now: int)
    requires Sound(w) && Core(w, first, s) && s.win.pending.None?
    ensures var r := InitiateIke(w, s, now); Core(w, first, r.0) && Taken(s, r.0, false, r.1)
  {
    hide Core, Originate, IkeRequest;
    BumpKeeps(w, first, s);
    if w.draws(s.pos).Some? && w.privs(s.pos).Some? {
      var draw := w.draws(s.pos).value;
      var ctx := IkeCtx(draw.spi8, draw.nonce, Dh(s.ike.dhGroup, w.privs(s.pos).value));
      OriginateKeeps(w, first, Bump(s), now, EXCHANGE_CREATE_CHILD_SA, IkeRequest(w.c, ctx, w.ike), IkeRekey(ctx), false);
    }
  }

  /** The core invariants do not look at timers, flags or the recovery history. */
  lemma CoreIgnores(w: World, first: uint32, s: State, t: State)
    requires Core(w, first, s)
    requires t.ike.(dhGroup := s.ike.dhGroup) == s.ike && t.win.(fastDue := s.win.fastDue) == s.win
    requires t.child.sa == s.child.sa && t.pos == s.pos
    requires t.log == s.log.(need := t.log.need, lost := t.log.lost, triggers := t.log.triggers, deaths := t.log.deaths,
                                   completed := t.log.completed, rekeyed := t.log.rekeyed)
    ensures Core(w, first, t)
  {
    hide ChildRequest, IkeRequest, Voiced, LastAnswer, OnceEach, Announced, CacheBacked, Chained, Tallied, Young, Numbered, Follows;
  }

  /** Forgetting the outstanding request is always safe. */
  lemma DropKeeps(w: World, first: uint32, s: State)
    requires Core(w, first, s)
    ensures Core(w, first, s.(win := s.win.(pending := None)))
    ensures Core(w, first, s.(ike := s.ike.(priorDelete := None)))
  {
    hide ChildRequest, IkeRequest, Voiced, Cached, OnceEach, Announced, CacheBacked, Linked, Young, Numbered, Follows, Within;
    var t := s.(ike := s.ike.(priorDelete := None));
    assert Cached(t.ike, t.log.answers) by {
      assert Cached(s.ike, s.log.answers);
      CachedIgnores(s.ike, s.log.answers);
    }
  }

  lemma CachedIgnores(ike: Ike, answers: seq<Answer>)
    ensures Cached(ike, answers) ==> Cached(ike.(priorDelete := None), answers)
  {}

  // ----- answering -----

  ghost predicate DecodedAs(s: State, sa: IkeSa, via: bool) {
    if via then s.ike.prior == Some(sa) else s.ike.cur == sa
  }

  lemma OnceEachPush(handled: seq<Handled>, answers: seq<Answer>, a: Answer)
    requires OnceEach(handled, answers) && !Duplicate(LastAnswer(answers, a.sa), a.msgID)
    ensures OnceEach(handled, answers + [a])
  {
    hide LastAnswer;
    forall i | 0 <= i < |handled| && handled[i].resp.Some?
      ensures Duplicate(LastAnswer(answers + [a], handled[i].sa.id), handled[i].msgID)
    {
      LastAnswerPush(answers, a, handled[i].sa.id);
    }
  }

  lemma RecordKeeps(w: World, first: uint32, s: State, sa: IkeSa, via: bool, msgID: uint32, raw: Datagram)
    requires Core(w, first, s) && DecodedAs(s, sa, via) && !Duplicate(Slot(s, via), msgID)
    requires raw.sa == sa.id && raw.response && raw.serial < s.pos && Backed(raw, s.log.installs, s.log.swaps)
    ensures Core(w, first, Record(s, via, msgID, raw))
    ensures LastAnswer(Record(s, via, msgID, raw).log.answers, sa.id) == Answered(msgID, raw)
    ensures Logged(raw, s.log.requests, Record(s, via, msgID, raw).log.answers)
  {
    hide ChildRequest, IkeRequest, Voiced, Windowed, OnceEach, Announced, Chained, Young, Tallied, Backed, LastAnswer;
    var a := Answer(raw.sa, msgID, raw);
    OnceEachPush(s.log.handled, s.log.answers, a);
    VoicedGrows(s.log.sent, s.log.requests, s.log.answers, [], [a]);
    assert s.log.requests + [] == s.log.requests;
    assert (s.log.answers + [a])[|s.log.answers|] == a;
    LastAnswerPush(s.log.answers, a, s.ike.cur.id);
    if s.ike.prior.Some? {
      LastAnswerPush(s.log.answers, a, s.ike.prior.value.id);
    }
  }

  /** Nothing but sending, caching and the clock of the oracle changes. */
  ghost predicate Replied(s: State, t: State) {
    && t.win == s.win && t.child == s.child && t.log.need == s.log.need && t.log.lost == s.log.lost
    && t.log.installs == s.log.installs && t.log.swaps == s.log.swaps && t.log.handled == s.log.handled
    && t.log.triggers == s.log.triggers && t.log.deaths == s.log.deaths && t.log.requests == s.log.requests
  }

  /** Nobody is reported dead, no re-establishment is lost, no peer request processed. */
  ghost predicate Quiet(s: State, t: State) {
    t.log.deaths == s.log.deaths && t.log.handled == s.log.handled && (t.log.lost ==> s.log.lost)
  }

  /** Effects come with an answer, and an answer stays on record. */
  ghost predicate Accounted(s: State, t: State, sa: nat, msgID: uint32) {
    && t.log.handled == s.log.handled && Quiet(s, t)
    && (t.log.answers == s.log.answers || |t.log.answers| > |s.log.answers|)
    && (|t.log.installs| > |s.log.installs| || |t.log.swaps| > |s.log.swaps| ==> |t.log.answers| > |s.log.answers|)
    && (|t.log.answers| > |s.log.answers| ==> Duplicate(LastAnswer(t.log.answers, sa), msgID))
  }

  lemma ReplyKeeps(w: World, first: uint32, s: State, sa: IkeSa, via: bool, exchange: byte, msgID: uint32, inner: seq<Payload>)
    requires Core(w, first, s) && DecodedAs(s, sa, via) && !Duplicate(Slot(s, via), msgID) && !LeadsWithSa(inner)
    ensures var t := Reply(w, s, sa, via, exchange, msgID, inner);
            Core(w, first, t) && Replied(s, t) && Accounted(s, t, sa.id, msgID)
  {
    hide Core, LastAnswer, Backed;
    BumpKeeps(w, first, s);
    if w.encodes(s.pos) {
      var raw := Sealed(s, sa, exchange, true, msgID, inner);
      NotGrant(raw, s.log.installs, s.log.swaps);
      RecordKeeps(w, first, Bump(s), sa, via, msgID, raw);
      TransmitKeeps(w, first, Record(Bump(s), via, msgID, raw), raw);
    }
  }

  lemma ResendKeeps(w: World, first: uint32, s: State, via: bool, msgID: uint32)
    requires Core(w, first, s)
    ensures var t := Resend(s, Slot(s, via), msgID); Core(w, first, t) && Replied(s, t)
  {
    hide ChildRequest, IkeRequest, Voiced, Windowed, OnceEach, Announced, Chained, Young, Tallied, Backed, LastAnswer;
    if Slot(s, via).Answered? {
      assert Core(w, first, s);
      LastAnswerLogged(s.log.answers, if via then s.ike.prior.value.id else s.ike.cur.id, s.log.requests);
      TransmitKeeps(w, first, s, Slot(s, via).resp);
    }
  }

  /** Processing one more request, once its effects are accounted for. */
  lemma NoteKeeps(w: World, first: uint32, s: State, t: State, sa: IkeSa, exchange: byte, msgID: uint32, inner: seq<Payload>)
    requires Core(w, first, s) && Core(w, first, t) && Accounted(s, t, sa.id, msgID)
    requires !Duplicate(LastAnswer(s.log.answers, sa.id), msgID)
    ensures Core(w, first, Note(s, t, sa, exchange, msgID, inner))
  {
    hide ChildRequest, IkeRequest, Voiced, Windowed, Cached, Announced, CacheBacked, Chained, Young, Tallied, LastAnswer, Named;
  }

  // ----- installing and cutting over -----

  lemma LinkedPush(first: uint32, installs: seq<ChildUpdate>, u: ChildUpdate)
    requires Linked(first, installs) && u.oldInSPI == Tip(first, installs)
    ensures Linked(first, installs + [u])
  {
    forall i | 0 <= i < |installs| + 1
      ensures (installs + [u])[i].oldInSPI == Tip(first, (installs + [u])[..i])
    {
      assert (installs + [u])[..i] == installs[..i];
      assert installs[..|installs|] == installs;
    }
  }

  /** A Child SA replacing the live one, with no Child rekey of ours in flight. */
  lemma InstallKeeps(w: World, first: uint32, s: State, u: ChildUpdate)
    requires Core(w, first, s) && s.child.sa.Some? && u.oldInSPI == s.child.sa.value.inSPI && Buildable(u)
    requires s.win.pending.Some? ==> !s.win.pending.value.kind.ChildRekey?
    ensures Core(w, first, Install(s, u))
  {
    hide ChildRequest, IkeRequest, Voiced, Windowed, Cached, OnceEach, Announced, Young, Tallied, Backed, Linked, Buildable;
    LinkedPush(first, s.log.installs, u);
    AnnouncedGrows(s.log.sent, s.log.installs, s.log.swaps, [u], []);
    assert s.log.swaps + [] == s.log.swaps;
    if s.ike.peer.Answered? {
      BackedGrows(s.ike.peer.resp, s.log.installs, s.log.swaps, [u], []);
    }
    if s.ike.priorPeer.Answered? {
      BackedGrows(s.ike.priorPeer.resp, s.log.installs, s.log.swaps, [u], []);
    }
  }

  /** A DELETE of the SA about to be superseded may occupy the old slot. */
  ghost predicate Retiring(w: World, s: State) {
    var d := s.ike.priorDelete;
    && (d.Some? ==> Holds(d.value, d.value.raw.sa) && d.value.raw.sa <= s.ike.cur.id)
    && Tallied(w, None, d, s.log.requests, s.log.sent, s.log.hurried)
  }

  lemma SwapKeeps(w: World, first: uint32, s: State, now: int, keys: IkeKeys)
    requires Core(w, first, s.(ike := s.ike.(priorDelete := None))) && Retiring(w, s)
    ensures Core(w, first, SwapIke(w, s, now, keys))
  {
    hide ChildRequest, IkeRequest, Voiced, OnceEach, Announced, Young, Tallied, Backed, Linked, Numbered, LastAnswer;
    var sa := IkeSa(s.ike.cur.id + 1, keys);
    NoAnswerYet(s.log.answers, sa.id);
    AnnouncedGrows(s.log.sent, s.log.installs, s.log.swaps, [], [sa]);
    assert s.log.installs + [] == s.log.installs;
    if s.ike.peer.Answered? {
      BackedGrows(s.ike.peer.resp, s.log.installs, s.log.swaps, [], [sa]);
    }
  }

  // ----- completing our own rekeys -----

  lemma FinishChildKeeps(w: World, first: uint32, s: State, now: int, ctx: ChildCtx, inner: seq<Payload>)
    requires Sound(w) && Core(w, first, s) && s.win.pending.None?
    requires s.child.sa.Some? && ctx.oldInSPI == s.child.sa.value.inSPI
    requires s.log.need ==> (s.log.lost <==> !(s.child.reestablish || ctx.reestablish))
    ensures Inv(w, first, FinishChild(w, s, now, ctx, inner).0)
    ensures var t := FinishChild(w, s, now, ctx, inner).0;
            && t.log.deaths == s.log.deaths && t.log.handled == s.log.handled
            && (t.log.lost ==> s.log.lost || (ctx.reestablish && !s.child.reestablish
                                              && CompleteChild(w.c, s.ike.cur.keys.skd, ctx, w.esp, inner).Err?))
  {
    hide Core, Originate, CompleteChild, Buildable;
    CompletedReplaces(w.c, s.ike.cur.keys.skd, ctx, w.esp, inner);
    match CompleteChild(w.c, s.ike.cur.keys.skd, ctx, w.esp, inner)
    case Err => CoreIgnores(w, first, s, FinishChild(w, s, now, ctx, inner).0);
    case Ok(u) =>
      InstallKeeps(w, first, s, u);
      var s1 := Install(s, u);
      var s2 := s1.(child := s1.child.(reestablish := false, nextReestablish := None));
      CoreIgnores(w, first, s1, s2);
      OriginateKeeps(w, first, s2, now, EXCHANGE_INFORMATIONAL, [Delete(PROTOCOL_ESP, [Be32(ctx.oldInSPI)])], DeleteSa, false);
  }

  lemma DeleteOldIkeKeeps(w: World, first: uint32, s: State, now: int)
    requires Sound(w) && Core(w, first, s) && s.win.pending.None?
    ensures var t := DeleteOldIke(w, s, now);
            && Core(w, first, t.(ike := t.ike.(priorDelete := None))) && Retiring(w, t)
            && t.child == s.child && t.log.need == s.log.need && t.log.lost == s.log.lost && Quiet(s, t)
  {
    hide ChildRequest, IkeRequest, Voiced, Cached, OnceEach, Announced, CacheBacked, Tallied, Backed, Linked, Numbered;
    CachedIgnores(s.ike, s.log.answers);
    DropKeeps(w, first, s);
    var t := DeleteOldIke(w, s, now);
    if w.encodes(s.pos) {
      var raw := Sealed(s, s.ike.cur, EXCHANGE_INFORMATIONAL, false, s.win.messageID, [Delete(PROTOCOL_IKE, [])]);
      var q := Request(raw, true, false);
      var x := Send(raw, |s.log.installs|, |s.log.swaps|);
      NothingOutstanding(w, first, s);
      WindowedNew(s.ike.cur.id, None, s.win, s.log.requests, q, t.ike.priorDelete.value);
      NotGrant(raw, s.log.installs, s.log.swaps);
      AnnouncedPush(s.log.sent, raw, s.log.installs, s.log.swaps);
      VoicedNew(s.log.sent, x, s.log.requests, q, s.log.answers);
      TalliedNew(w, t.ike.priorDelete.value, None, s.log.requests, q, s.log.sent, x, s.log.hurried, s.pos);
      TalliedLess(w, t);
    }
  }

  lemma TalliedLess(w: World, t: State)
    requires Tallied(w, None, t.ike.priorDelete, t.log.requests, t.log.sent, t.log.hurried)
    ensures Tallied(w, None, None, t.log.requests, t.log.sent, t.log.hurried)
  {
    hide Within;
  }

  lemma FinishIkeKeeps(w: World, first: uint32, s: State, now: int, ctx: IkeCtx, inner: seq<Payload>)
    requires Sound(w) && Inv(w, first, s) && s.win.pending.None?
    ensures Inv(w, first, FinishIke(w, s, now, ctx, inner))
    ensures Quiet(s, FinishIke(w, s, now, ctx, inner))
  {
    hide Core, DeleteOldIke, CompleteIke, Retiring;
    match CompleteIke(w.c, s.ike.cur.keys.skd, ctx, w.ike, inner)
    case Err =>
    case Ok(keys) =>
      DeleteOldIkeKeeps(w, first, s, now);
      SwapKeeps(w, first, DeleteOldIke(w, s, now), now, keys);
  }

  lemma PendingChildNamesLive(w: World, first: uint32, s: State)
    requires Core(w, first, s) && s.win.pending.Some? && s.win.pending.value.kind.ChildRekey?
    ensures s.child.sa.Some? && s.win.pending.value.kind.child.oldInSPI == s.child.sa.value.inSPI
  {
    hide ChildRequest, IkeRequest, Voiced, Windowed, Cached, OnceEach, Announced, CacheBacked, Tallied, Linked, Young;
  }

  /** The reply to our outstanding re-establishment is one we reject, with no further
      re-establishment queued. */
  ghost predicate Rejected(w: World, s: State, msgID: uint32, inner: seq<Payload>, via: bool)
    requires Sound(w)
  {
    && !via && s.win.pending.Some? && s.win.pending.value.msgID == msgID
    && s.win.pending.value.kind.Reestablishes() && !s.child.reestablish
    && CompleteChild(w.c, s.ike.cur.keys.skd, s.win.pending.value.kind.child, w.esp, inner).Err?
  }

  lemma CompleteMatchingKeeps(w: World, first: uint32, s: State, now: int, msgID: uint32, inner: seq<Payload>, via: bool)
    requires Sound(w) && Inv(w, first, s)
    ensures var t := CompleteMatching(w, s, now, msgID, inner, via);
            && Inv(w, first, t) && t.log.deaths == s.log.deaths && t.log.handled == s.log.handled
            && (t.log.lost ==> s.log.lost || Rejected(w, s, msgID, inner, via))
  {
    hide Core, FinishChild, FinishIke, CompleteChild;
    if !via && s.win.pending.Some? && s.win.pending.value.msgID == msgID && s.win.pending.value.kind.Rekeys() {
      DropKeeps(w, first, s);
      var s0 := s.(win := s.win.(pending := None));
      match s.win.pending.value.kind
      case ChildRekey(ctx) =>
        PendingChildNamesLive(w, first, s);
        FinishChildKeeps(w, first, s0, now, ctx, inner);
        var s2 := FinishChild(w, s0, now, ctx, inner).0;
        var s1 := Concluded(s0, FinishChild(w, s0, now, ctx, inner), msgID, ctx, inner).0;
        CoreIgnores(w, first, s2, s1);
        CoreIgnores(w, first, s1, s1.(timers := s1.timers.(nextChild := Deadline(w, w.lifetime, now, s1.pos))));
      case IkeRekey(ctx) =>
        FinishIkeKeeps(w, first, s0, now, ctx, inner);
        var s2 := FinishIke(w, s0, now, ctx, inner);
        CoreIgnores(w, first, s2, ConcludedIke(s0, s2, msgID, ctx, inner));
    }
  }

  // ----- answering the peer's rekeys -----

  lemma GrantBacked(d: Datagram, installs: seq<ChildUpdate>, swaps: seq<IkeSa>)
    requires LeadsWithSa(d.inner) && |d.inner[0].proposals| == 1
    requires (installs != [] && ChildGrant(d.inner[0].proposals[0], installs[|installs| - 1]))
          || (swaps != [] && IkeGrant(d.inner[0].proposals[0], swaps[|swaps| - 1].keys))
    ensures Backed(d, installs, swaps)
  {
    hide ChildGrant, IkeGrant;
  }

  lemma HandleChildKeeps(w: World, first: uint32, s: State, now: int, sa: IkeSa, via: bool, msgID: uint32, inner: seq<Payload>)
    requires Sound(w) && Inv(w, first, s) && DecodedAs(s, sa, via) && !Duplicate(Slot(s, via), msgID)
    requires s.win.pending.Some? ==> !s.win.pending.value.kind.Rekeys()
    ensures var t := HandleChild(w, s, now, sa, via, msgID, inner); Inv(w, first, t) && Accounted(s, t, sa.id, msgID)
  {
    hide Core, AnswerChild, Reply, LastAnswer, Backed, ChildGrant, Buildable;
    var t := HandleChild(w, s, now, sa, via, msgID, inner);
    if s.child.sa.None? {
      ReplyKeeps(w, first, s, sa, via, EXCHANGE_CREATE_CHILD_SA, msgID, [Notice(PROTOCOL_ESP, NOTIFY_CHILD_SA_NOT_FOUND)]);
    } else {
      ChildAnswerAnnounces(w.c, sa.keys.skd, s.child.sa.value.inSPI, w.esp, w.v6, inner, w.privs(s.pos), w.draws(s.pos));
      match AnswerChild(w.c, sa.keys.skd, s.child.sa.value.inSPI, w.esp, w.v6, inner, w.privs(s.pos), w.draws(s.pos))
      case RefuseChild(notify) => ReplyKeeps(w, first, s, sa, via, EXCHANGE_CREATE_CHILD_SA, msgID, [notify]);
      case AcceptChild(u, resp, pfs) =>
        BumpKeeps(w, first, s);
        if w.encodes(s.pos) {
          var raw := Sealed(s, sa, EXCHANGE_CREATE_CHILD_SA, true, msgID, resp);
          InstallKeeps(w, first, Bump(s), u);
          var s1 := Install(Bump(s), u);
          var s2 := if pfs.Some? then s1.(child := s1.child.(pfs := true, pfsGroup := pfs.value)) else s1;
          var s3 := s2.(timers := s2.timers.(nextChild := Deadline(w, w.lifetime, now, s2.pos)));
          CoreIgnores(w, first, s1, s3);
          GrantBacked(raw, s3.log.installs, s3.log.swaps);
          RecordKeeps(w, first, s3, sa, via, msgID, raw);
          TransmitKeeps(w, first, Record(s3, via, msgID, raw), raw);
        }
    }
  }

  /** Caching the answer and then cutting over is cutting over and then caching it for
      the superseded SA. */
  lemma RecordThenSwap(w: World, s: State, now: int, keys: IkeKeys, msgID: uint32, raw: Datagram)
    ensures SwapIke(w, Record(s, false, msgID, raw), now, keys) == Record(SwapIke(w, s, now, keys), true, msgID, raw)
  {}

  lemma CoreRetires(w: World, first: uint32, s: State)
    requires Core(w, first, s)
    ensures Core(w, first, s.(ike := s.ike.(priorDelete := None))) && Retiring(w, s)
  {
    DropKeeps(w, first, s);
    hide ChildRequest, IkeRequest, Voiced, Cached, OnceEach, Announced, CacheBacked, Linked, Young, Numbered, Follows, Within;
  }

  lemma HandleIkeKeeps(w: World, first: uint32, s: State, now: int, msgID: uint32, inner: seq<Payload>)
    requires Sound(w) && Inv(w, first, s) && !Duplicate(s.ike.peer, msgID)
    requires s.win.pending.Some? ==> !s.win.pending.value.kind.Rekeys()
    ensures var t := HandleIke(w, s, now, msgID, inner); Inv(w, first, t) && Accounted(s, t, s.ike.cur.id, msgID)
  {
    hide Core, AnswerIke, Reply, LastAnswer, Backed, IkeGrant, Retiring;
    var sa := s.ike.cur;
    IkeAnswerAnnounces(w.c, sa.keys.skd, w.ike, inner, w.privs(s.pos), w.draws(s.pos));
    BumpKeeps(w, first, s);
    match AnswerIke(w.c, sa.keys.skd, w.ike, inner, w.privs(s.pos), w.draws(s.pos))
    case RefuseIke(notify) => ReplyKeeps(w, first, s, sa, false, EXCHANGE_CREATE_CHILD_SA, msgID, [notify]);
    case AcceptIke(keys, resp, group) =>
      if !w.encodes(s.pos) {
        ReplyKeeps(w, first, Bump(s), sa, false, EXCHANGE_CREATE_CHILD_SA, msgID, [TEMPORARY_FAILURE]);
      } else {
        var raw := Sealed(s, sa, EXCHANGE_CREATE_CHILD_SA, true, msgID, resp);
        var s1 := SwapIke(w, Bump(s), now, keys);
        CoreRetires(w, first, Bump(s));
        SwapKeeps(w, first, Bump(s), now, keys);
        GrantBacked(raw, s1.log.installs, s1.log.swaps);
        RecordKeeps(w, first, s1, sa, true, msgID, raw);
        RecordThenSwap(w, Bump(s), now, keys, msgID, raw);
        var s2 := Record(s1, true, msgID, raw);
        var s3 := s2.(ike := s2.ike.(dhGroup := group));
        CoreIgnores(w, first, s2, s3);
        TransmitKeeps(w, first, s3, raw);
      }
  }

  lemma HandleCreateKeeps(w: World, first: uint32, s: State, now: int, sa: IkeSa, via: bool, msgID: uint32, inner: seq<Payload>)
    requires Sound(w) && Inv(w, first, s) && DecodedAs(s, sa, via) && !Duplicate(Slot(s, via), msgID)
    ensures var t := HandleCreate(w, s, now, sa, via, msgID, inner); Inv(w, first, t) && Accounted(s, t, sa.id, msgID)
  {
    hide Core, Reply, HandleIke, HandleChild, Accounted, IsIkeRekey;
    if (s.win.pending.Some? && s.win.pending.value.kind.Rekeys()) || (IsIkeRekey(inner) && via) {
      ReplyKeeps(w, first, s, sa, via, EXCHANGE_CREATE_CHILD_SA, msgID, [TEMPORARY_FAILURE]);
    } else if IsIkeRekey(inner) {
      HandleIkeKeeps(w, first, s, now, msgID, inner);
    } else {
      HandleChildKeeps(w, first, s, now, sa, via, msgID, inner);
    }
  }

  // ----- INFORMATIONAL requests -----

  /** Deletions start or queue a re-establishment and touch nothing else. */
  ghost predicate OnlyTriggers(s: State, t: State) {
    && t.ike == s.ike && t.child.sa == s.child.sa
    && t.log.installs == s.log.installs && t.log.swaps == s.log.swaps
    && t.log.answers == s.log.answers && t.log.handled == s.log.handled && Quiet(s, t)
  }

  lemma HandleDeleteKeeps(w: World, first: uint32, s: State, now: int, p: Payload)
    requires Sound(w) && Inv(w, first, s)
    ensures var t := HandleDelete(w, s, now, p); Inv(w, first, t) && OnlyTriggers(s, t)
  {
    hide Core, InitiateChild, RefsChild, BodyCodec.SpiSize;
    var t := HandleDelete(w, s, now, p);
    if t != s {
      var s0 := s.(log := s.log.(need := true, lost := false, triggers := s.log.triggers + 1));
      CoreIgnores(w, first, s, s0);
      if s.win.pending.Some? {
        CoreIgnores(w, first, s0, t);
      } else {
        InitiateChildKeeps(w, first, s0, now, true);
        CoreIgnores(w, first, InitiateChild(w, s0, now, true).0, t);
      }
    }
  }

  lemma {:induction false} HandleDeletesKeeps(w: World, first: uint32, s: State, now: int, inner: seq<Payload>)
    requires Sound(w) && Inv(w, first, s)
    ensures var t := HandleDeletes(w, s, now, inner); Inv(w, first, t) && OnlyTriggers(s, t)
    decreases inner
  {
    hide Inv, HandleDelete;
    if inner != [] {
      var rest := inner[..|inner| - 1];
      HandleDeletesKeeps(w, first, s, now, rest);
      HandleDeleteKeeps(w, first, HandleDeletes(w, s, now, rest), now, inner[|inner| - 1]);
    }
  }

  lemma HandleInformationalKeeps(w: World, first: uint32, s: State, now: int, sa: IkeSa, via: bool, msgID: uint32, inner: seq<Payload>)
    requires Sound(w) && Inv(w, first, s) && DecodedAs(s, sa, via) && !Duplicate(Slot(s, via), msgID)
    ensures var t := HandleInformational(w, s, now, sa, via, msgID, inner); Inv(w, first, t) && Accounted(s, t, sa.id, msgID)
  {
    hide Core, Reply, HandleDeletes, LastAnswer;
    HandleDeletesKeeps(w, first, s, now, inner);
    ReplyKeeps(w, first, HandleDeletes(w, s, now, inner), sa, via, EXCHANGE_INFORMATIONAL, msgID, []);
  }

  // ----- one inbound datagram -----

  /** The peer is reported dead exactly when the driver stops. */
  ghost predicate Stops(s: State, r: (State, bool)) {
    r.0.log.deaths == s.log.deaths + (if r.1 then 1 else 0)
  }

  lemma SlotIsLastAnswer(w: World, first: uint32, s: State, sa: IkeSa, via: bool)
    requires Core(w, first, s) && DecodedAs(s, sa, via)
    ensures Slot(s, via) == LastAnswer(s.log.answers, sa.id)
  {
    hide ChildRequest, IkeRequest, Voiced, Windowed, OnceEach, Announced, CacheBacked, Chained, Young, Tallied, LastAnswer;
  }

  /** At most one more request was processed, and if everything encodes it was answered. */
  ghost predicate Noted(w: World, s: State, t: State) {
    || t.log.handled == s.log.handled
    || (&& |t.log.handled| == |s.log.handled| + 1 && t.log.handled[..|s.log.handled|] == s.log.handled
        && ((forall n :: w.encodes(n)) ==> t.log.handled[|s.log.handled|].resp.Some?))
  }

  lemma {:induction false} DeletesKeepAnswers(w: World, s: State, now: int, inner: seq<Payload>)
    ensures HandleDeletes(w, s, now, inner).log.answers == s.log.answers
    decreases inner
  {
    hide RefsChild, BodyCodec.SpiSize, ChildRequest;
    if inner != [] {
      DeletesKeepAnswers(w, s, now, inner[..|inner| - 1]);
    }
  }

  /** When everything encodes, every processed request is answered. */
  lemma InformationalAnswered(w: World, s: State, now: int, sa: IkeSa, via: bool, msgID: uint32, inner: seq<Payload>)
    requires Sound(w) && forall n :: w.encodes(n)
    ensures |HandleInformational(w, s, now, sa, via, msgID, inner).log.answers| > |s.log.answers|
  {
    hide HandleDeletes;
    DeletesKeepAnswers(w, s, now, inner);
  }

  lemma CreateAnswered(w: World, s: State, now: int, sa: IkeSa, via: bool, msgID: uint32, inner: seq<Payload>)
    requires Sound(w) && forall n :: w.encodes(n)
    ensures |HandleCreate(w, s, now, sa, via, msgID, inner).log.answers| > |s.log.answers|
  {
    hide AnswerChild, AnswerIke, IsIkeRekey;
  }

  lemma HandleRequestKeeps(w: World, first: uint32, s: State, now: int, sa: IkeSa, via: bool, exchange: byte, msgID: uint32, inner: seq<Payload>)
    requires Sound(w) && Inv(w, first, s) && DecodedAs(s, sa, via)
    ensures var r := HandleRequest(w, s, now, sa, via, exchange, msgID, inner);
            Inv(w, first, r.0) && Stops(s, r) && (r.0.log.lost ==> s.log.lost) && Noted(w, s, r.0)
  {
    hide Core, HandleCreate, HandleInformational, LastAnswer, Teardown, Named;
    if (forall n :: w.encodes(n)) {
      CreateAnswered(w, s, now, sa, via, msgID, inner);
      InformationalAnswered(w, s, now, sa, via, msgID, inner);
    }
    SlotIsLastAnswer(w, first, s, sa, via);
    if Duplicate(Slot(s, via), msgID) {
      ResendKeeps(w, first, s, via, msgID);
    } else if exchange == EXCHANGE_CREATE_CHILD_SA {
      HandleCreateKeeps(w, first, s, now, sa, via, msgID, inner);
      NoteKeeps(w, first, s, HandleCreate(w, s, now, sa, via, msgID, inner), sa, exchange, msgID, inner);
    } else {
      HandleInformationalKeeps(w, first, s, now, sa, via, msgID, inner);
      var t := HandleInformational(w, s, now, sa, via, msgID, inner);
      NoteKeeps(w, first, s, t, sa, exchange, msgID, inner);
      var noted := Note(s, t, sa, exchange, msgID, inner);
      CoreIgnores(w, first, noted, Dead(noted));
    }
  }

  lemma HandleResponseKeeps(w: World, first: uint32, s: State, now: int, via: bool, exchange: byte, msgID: uint32, inner: seq<Payload>)
    requires Sound(w) && Inv(w, first, s)
    ensures var t := HandleResponse(w, s, now, via, exchange, msgID, inner);
            && Inv(w, first, t) && t.log.deaths == s.log.deaths && t.log.handled == s.log.handled
            && (t.log.lost ==> s.log.lost || (exchange == EXCHANGE_CREATE_CHILD_SA && Rejected(w, s, msgID, inner, via)))
  {
    hide Core, CompleteMatching, Rejected;
    DropKeeps(w, first, s);
    if exchange == EXCHANGE_CREATE_CHILD_SA {
      CompleteMatchingKeeps(w, first, s, now, msgID, inner, via);
    }
  }

  lemma HandleInboundKeeps(w: World, first: uint32, s: State, now: int, id: nat, exchange: byte, response: bool, msgID: uint32, inner: seq<Payload>)
    requires Sound(w) && Inv(w, first, s)
    ensures var r := HandleInbound(w, s, now, id, exchange, response, msgID, inner);
            && Inv(w, first, r.0) && Stops(s, r) && Noted(w, s, r.0)
            && (r.0.log.lost ==> s.log.lost || (response && exchange == EXCHANGE_CREATE_CHILD_SA && id == s.ike.cur.id
                                                && Rejected(w, s, msgID, inner, false)))
  {
    hide Core, HandleResponse, HandleRequest, CompleteChild;
    match Decoder(s, now, id)
    case None =>
    case Some(dec) =>
      var s0 := s.(timers := s.timers.(lastInbound := now));
      CoreIgnores(w, first, s, s0);
      HandleResponseKeeps(w, first, s0, now, dec.1, exchange, msgID, inner);
      HandleRequestKeeps(w, first, s0, now, dec.0, dec.1, exchange, msgID, inner);
  }

  // ----- one tick -----

  lemma HurryKeeps(w: World, first: uint32, s: State, now: int, arm: bool)
    requires Inv(w, first, s) && s.win.pending.Some?
    ensures Inv(w, first, Hurry(s, s.win.pending.value, now, arm))
  {
    hide ChildRequest, IkeRequest, Voiced, Cached, OnceEach, Announced, CacheBacked, Linked, Count, Numbered, Follows;
    if s.ike.priorDelete.Some? {
      var i :| 0 <= i < |s.log.requests| && s.log.requests[i] == Request(s.ike.priorDelete.value.raw, true, false);
    }
  }

  lemma DetectSuspendKeeps(w: World, first: uint32, s: State, now: int, wall: int)
    requires Sound(w) && Inv(w, first, s)
    ensures var t := DetectSuspend(w, s, now, wall); Inv(w, first, t) && Quiet(s, t)
  {
    hide Core, InitiateDpd;
    var s0 := s.(timers := s.timers.(lastTick := Some(wall)));
    CoreIgnores(w, first, s, s0);
    if s.win.pending.None? {
      InitiateDpdKeeps(w, first, s0, now, true);
    } else {
      HurryKeeps(w, first, s0, now, s.win.pending.value.kind != Dpd);
    }
  }

  lemma ExpireGraceKeeps(w: World, first: uint32, s: State, now: int)
    requires Inv(w, first, s)
    ensures Inv(w, first, ExpireGrace(s, now)) && ExpireGrace(s, now).log == s.log
  {
    hide ChildRequest, IkeRequest, Voiced, OnceEach, Announced, Linked, Count, Numbered, Follows, Within, LastAnswer, Backed;
  }

  /** Serials tell requests apart. */
  lemma SameRequest(rs: seq<Request>, sent: seq<Send>, hurried: set<nat>, pos: nat, i: nat, r: Request)
    requires Young(rs, sent, hurried, pos) && i < |rs| && r in rs && rs[i].d == r.d
    ensures rs[i] == r
  {
    var j :| 0 <= j < |rs| && rs[j] == r;
  }

  lemma RetryOldDeleteKeeps(w: World, first: uint32, s: State, now: int)
    requires Sound(w) && Inv(w, first, s)
    ensures var t := RetryOldDelete(w, s, now); Inv(w, first, t) && Quiet(s, t)
  {
    hide ChildRequest, IkeRequest, Voiced, OnceEach, Announced, Linked, Count, Numbered, Follows, Within, LastAnswer, Backed;
    DropKeeps(w, first, s);
    if s.ike.priorDelete.Some? && s.ike.prior.Some? && now > s.ike.priorDelete.value.next && s.ike.priorDelete.value.attempts < w.tries {
      var raw := s.ike.priorDelete.value.raw;
      var x := Send(raw, |s.log.installs|, |s.log.swaps|);
      forall i | 0 <= i < |s.log.requests| && s.log.requests[i].d == raw
        ensures Count(s.log.sent, raw) + 1 <= Budget(w, s.log.hurried, s.log.requests[i])
      {
        SameRequest(s.log.requests, s.log.sent, s.log.hurried, s.pos, i, Request(raw, true, false));
      }
      WithinRetry(w, s.log.requests, s.log.sent, s.log.hurried, x);
      NotGrant(raw, s.log.installs, s.log.swaps);
      AnnouncedPush(s.log.sent, raw, s.log.installs, s.log.swaps);
      var i :| 0 <= i < |s.log.requests| && s.log.requests[i] == Request(raw, true, false);
      VoicedPush(s.log.sent, x, s.log.requests, s.log.answers);
    }
  }

  lemma RepeatPendingKeeps(w: World, first: uint32, s: State, next: int)
    requires Sound(w) && Inv(w, first, s) && s.win.pending.Some?
    requires s.win.pending.value.attempts < Tries(w, s.win.pending.value)
    ensures var p := s.win.pending.value;
            Inv(w, first, Transmit(s.(win := s.win.(pending := Some(p.(attempts := p.attempts + 1, next := next)))), p.raw))
  {
    hide ChildRequest, IkeRequest, Voiced, Cached, OnceEach, Announced, CacheBacked, Linked, Count, Numbered, Follows, Within, Backed;
    var rs, raw := s.log.requests, s.win.pending.value.raw;
    var x := Send(raw, |s.log.installs|, |s.log.swaps|);
    forall i | 0 <= i < |rs| && rs[i].d == raw
      ensures Count(s.log.sent, raw) + 1 <= Budget(w, s.log.hurried, rs[i])
    {
      SameRequest(rs, s.log.sent, s.log.hurried, s.pos, i, Last(rs));
    }
    WithinRetry(w, rs, s.log.sent, s.log.hurried, x);
    NotGrant(raw, s.log.installs, s.log.swaps);
    AnnouncedPush(s.log.sent, raw, s.log.installs, s.log.swaps);
    VoicedPush(s.log.sent, x, rs, s.log.answers);
  }

  lemma RetryPendingKeeps(w: World, first: uint32, s: State, now: int)
    requires Sound(w) && Inv(w, first, s) && s.win.pending.Some?
    ensures var r := RetryPending(w, s, now); Inv(w, first, r.0) && Stops(s, r) && r.0.log.lost == s.log.lost && r.0.log.handled == s.log.handled
  {
    hide Core;
    var p := s.win.pending.value;
    if now > p.next {
      if p.attempts + 1 > Tries(w, p) {
        DropKeeps(w, first, s);
        CoreIgnores(w, first, s.(win := s.win.(pending := None)), RetryPending(w, s, now).0);
      } else {
        RepeatPendingKeeps(w, first, s, now + Wait(w, p, p.attempts + 1));
      }
    }
  }

  lemma BeginKeeps(w: World, first: uint32, s: State, now: int, volume: uint32, lastData: Option<int>)
    requires Sound(w) && Inv(w, first, s) && s.win.pending.None?
    ensures var t := Begin(w, s, now, volume, lastData); Inv(w, first, t) && Quiet(s, t)
  {
    hide Core, InitiateDpd, InitiateChild, InitiateIke;
    var t := Begin(w, s, now, volume, lastData);
    if s.win.fastDue {
      var s0 := s.(win := s.win.(fastDue := false));
      CoreIgnores(w, first, s, s0);
      InitiateDpdKeeps(w, first, s0, now, true);
    } else if s.child.reestablish && Past(s.child.nextReestablish, now) {
      InitiateChildKeeps(w, first, s, now, true);
      CoreIgnores(w, first, InitiateChild(w, s, now, true).0, t);
    } else if !s.child.reestablish && Past(s.timers.nextVolume, now) && volume >= w.maxPackets {
      var s0 := s.(timers := s.timers.(nextVolume := Some(now + RETRY)));
      CoreIgnores(w, first, s, s0);
      InitiateChildKeeps(w, first, s0, now, false);
    } else if w.lifetime > 0 && Due(s.timers.nextIke, now) {
      var s0 := s.(timers := s.timers.(nextIke := Some(now + RETRY)));
      CoreIgnores(w, first, s, s0);
      InitiateIkeKeeps(w, first, s0, now);
    } else if w.lifetime > 0 && !s.child.reestablish && Due(s.timers.nextChild, now) {
      var s0 := s.(timers := s.timers.(nextChild := Some(now + RETRY)));
      CoreIgnores(w, first, s, s0);
      InitiateChildKeeps(w, first, s0, now, false);
    } else {
      InitiateDpdKeeps(w, first, s, now, false);
    }
  }

  lemma HousekeepingKeeps(w: World, first: uint32, s: State, now: int, wall: int, volume: uint32, lastData: Option<int>)
    requires Sound(w) && Inv(w, first, s)
    ensures var r := Housekeeping(w, s, now, wall, volume, lastData);
            && Inv(w, first, r.0) && Stops(s, r)
            && (r.0.log.lost ==> s.log.lost) && r.0.log.handled == s.log.handled
  {
    hide Inv, DetectSuspend, ExpireGrace, RetryOldDelete, RetryPending, Begin;
    DetectSuspendKeeps(w, first, s, now, wall);
    var s1 := DetectSuspend(w, s, now, wall);
    ExpireGraceKeeps(w, first, s1, now);
    RetryOldDeleteKeeps(w, first, ExpireGrace(s1, now), now);
    var s2 := RetryOldDelete(w, ExpireGrace(s1, now), now);
    if s2.win.pending.Some? {
      RetryPendingKeeps(w, first, s2, now);
    } else {
      BeginKeeps(w, first, s2, now, volume, lastData);
    }
  }

  // ----- whole runs -----

  /** The event is the rejected reply of Rejected. */
  ghost predicate Rejects(w: World, s: State, e: Event)
    requires Sound(w)
  {
    e.Inbound? && e.response && e.exchange == EXCHANGE_CREATE_CHILD_SA && e.sa == s.ike.cur.id && Rejected(w, s, e.msgID, e.inner, false)
  }

  lemma StepKeeps(w: World, first: uint32, s: State, e: Event)
    requires Sound(w) && Inv(w, first, s)
    ensures Inv(w, first, Step(w, s, e).0) && Stops(s, Step(w, s, e)) && Noted(w, s, Step(w, s, e).0)
    ensures Step(w, s, e).0.log.lost ==> s.log.lost || Rejects(w, s, e)
  {
    hide Core, HandleInbound, Housekeeping, CompleteChild;
    BumpKeeps(w, first, s);
    match e
    case Inbound(now, sa, exchange, response, msgID, inner) =>
      HandleInboundKeeps(w, first, Bump(s), now, sa, exchange, response, msgID, inner);
    case Tick(now, wall, volume, lastData) =>
      HousekeepingKeeps(w, first, Bump(s), now, wall, volume, lastData);
  }

  lemma StartInv(w: World, s: State)
    requires Start(s)
    ensures Inv(w, if s.child.sa.Some? then s.child.sa.value.inSPI else 0, s)
  {}

  lemma {:induction false} RunKeeps(w: World, first: uint32, s: State, es: seq<Event>)
    requires Sound(w) && Inv(w, first, s)
    ensures Inv(w, first, Run(w, s, es).0) && Stops(s, Run(w, s, es))
    decreases es
  {
    hide Inv, Step;
    if es != [] {
      RunKeeps(w, first, s, es[..|es| - 1]);
      StepKeeps(w, first, Run(w, s, es[..|es| - 1]).0, es[|es| - 1]);
    }
  }
}
