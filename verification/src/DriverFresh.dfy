/** Every IKE SA of a session carries an SPI the session drew itself, and no draw is used
    twice: as long as the draws do not repeat, neither do the keys. */
module DriverFresh {
  import opened Bytes
  import opened IkeMsg
  import opened KeySchedule
  import opened Rekey
  import opened Driver
  import opened DriverFrame
  import opened DriverTrace
  import Backoff
  import BodyCodec
  import Suites

  function OwnSpi(k: IkeKeys): uint64 {
    if k.role == Initiator then k.spii else k.spir
  }

  /** The SPI of the IKE rekey in flight. */
  function Asking(s: State): Option<uint64> {
    if s.win.pending.Some? && s.win.pending.value.kind.IkeRekey? then Some(s.win.pending.value.kind.ike.newSPIi) else None
  }

  ghost predicate DrawnIn(w: World, lo: nat, hi: nat, spi: uint64) {
    exists n: nat :: lo <= n < hi && w.draws(n).Some? && w.draws(n).value.spi8 == spi
  }

  /** The SPIs drawn before position n differ from each other and from the first SA's. */
  ghost predicate Distinct(w: World, root: IkeSa, n: nat) {
    && (forall i: nat, j: nat :: i < j < n && w.draws(i).Some? && w.draws(j).Some? ==> w.draws(i).value.spi8 != w.draws(j).value.spi8)
    && (forall i: nat :: i < n && w.draws(i).Some? ==> w.draws(i).value.spi8 != OwnSpi(root.keys))
  }

  // ----- what a step does with its draws -----

  /** No cutover, and an IKE rekey in flight is the old one or newly drawn. */
  ghost predicate Steady(w: World, s: State, t: State) {
    && s.pos <= t.pos && t.log.root == s.log.root && t.log.swaps == s.log.swaps
    && (Asking(t).Some? ==> Asking(t) == Asking(s) || DrawnIn(w, s.pos, t.pos, Asking(t).value))
  }

  /** A cutover to an SA whose SPI was in flight or is newly drawn. */
  ghost predicate Swapped(w: World, s: State, t: State) {
    && s.pos <= t.pos && t.log.root == s.log.root && t.log.swaps == s.log.swaps + [t.ike.cur] && Asking(t).None?
    && var spi := OwnSpi(t.ike.cur.keys); Asking(s) == Some(spi) || DrawnIn(w, s.pos, t.pos, spi)
  }

  ghost predicate Moves(w: World, s: State, t: State) {
    Steady(w, s, t) || Swapped(w, s, t)
  }

  lemma SteadyThen(w: World, s: State, t: State, u: State)
    requires Steady(w, s, t) && Steady(w, t, u)
    ensures Steady(w, s, u)
  {}

  lemma OriginateDraws(w: World, s: State, now: int, exchange: byte, inner: seq<Payload>, kind: Kind, fast: bool)
    ensures var t := Originate(w, s, now, exchange, inner, kind, fast).0;
            && s.pos < t.pos && t.log.root == s.log.root && t.log.swaps == s.log.swaps
            && (Asking(t) == Asking(s) || Asking(t) == if kind.IkeRekey? then Some(kind.ike.newSPIi) else None)
  {}

  lemma InitiateSteady(w: World, s: State, now: int, flag: bool)
    ensures Steady(w, s, InitiateDpd(w, s, now, flag).0)
    ensures Steady(w, s, InitiateChild(w, s, now, flag).0)
    ensures Steady(w, s, InitiateIke(w, s, now).0)
  {
    hide ChildRequest, IkeRequest, Originate;
    OriginateDraws(w, s, now, EXCHANGE_INFORMATIONAL, [], Dpd, flag);
    forall inner, kind
      ensures var t := Originate(w, Bump(s), now, EXCHANGE_CREATE_CHILD_SA, inner, kind, false).0;
              && s.pos + 1 < t.pos && t.log.root == s.log.root && t.log.swaps == s.log.swaps
              && (Asking(t) == Asking(s) || Asking(t) == if kind.IkeRekey? then Some(kind.ike.newSPIi) else None)
    {
      OriginateDraws(w, Bump(s), now, EXCHANGE_CREATE_CHILD_SA, inner, kind, false);
    }
  }

  lemma BeginSteady(w: World, s: State, now: int, volume: uint32, lastData: Option<int>)
    ensures Steady(w, s, Begin(w, s, now, volume, lastData))
  {
    hide InitiateDpd, InitiateChild, InitiateIke, DrawnIn;
    InitiateSteady(w, s, now, true);
    InitiateSteady(w, s, now, false);
    InitiateSteady(w, s.(win := s.win.(fastDue := false)), now, true);
    InitiateSteady(w, s.(timers := s.timers.(nextVolume := Some(now + RETRY))), now, false);
    InitiateSteady(w, s.(timers := s.timers.(nextIke := Some(now + RETRY))), now, false);
    InitiateSteady(w, s.(timers := s.timers.(nextChild := Some(now + RETRY))), now, false);
  }

  lemma DetectSuspendSteady(w: World, s: State, now: int, wall: int)
    ensures Steady(w, s, DetectSuspend(w, s, now, wall))
  {
    hide InitiateDpd;
    InitiateSteady(w, s.(timers := s.timers.(lastTick := Some(wall))), now, true);
  }

  lemma RetryOldDeleteSteady(w: World, s: State, now: int)
    ensures Steady(w, s, RetryOldDelete(w, s, now))
  {
    hide Backoff.Delay;
  }

  lemma RetryPendingSteady(w: World, s: State, now: int)
    requires s.win.pending.Some?
    ensures Steady(w, s, RetryPending(w, s, now).0)
  {
    hide Wait;
  }

  lemma HousekeepingSteady(w: World, s: State, now: int, wall: int, volume: uint32, lastData: Option<int>)
    ensures Steady(w, s, Housekeeping(w, s, now, wall, volume, lastData).0)
  {
    hide DetectSuspend, RetryOldDelete, RetryPending, Begin, DrawnIn;
    var s1 := DetectSuspend(w, s, now, wall);
    DetectSuspendSteady(w, s, now, wall);
    var s2 := ExpireGrace(s1, now);
    assert Steady(w, s1, s2);
    RetryOldDeleteSteady(w, s2, now);
    var s3 := RetryOldDelete(w, s2, now);
    SteadyThen(w, s, s1, s2);
    SteadyThen(w, s, s2, s3);
    if s3.win.pending.Some? {
      RetryPendingSteady(w, s3, now);
      SteadyThen(w, s, s3, RetryPending(w, s3, now).0);
    } else {
      BeginSteady(w, s3, now, volume, lastData);
      SteadyThen(w, s, s3, Begin(w, s3, now, volume, lastData));
    }
  }

  lemma HandleDeleteSteady(w: World, s: State, now: int, p: Payload)
    ensures Steady(w, s, HandleDelete(w, s, now, p))
  {
    hide InitiateChild, RefsChild, BodyCodec.SpiSize, DrawnIn;
    var s0 := s.(log := s.log.(need := true, lost := false, triggers := s.log.triggers + 1));
    InitiateSteady(w, s0, now, true);
  }

  lemma {:induction false} HandleDeletesSteady(w: World, s: State, now: int, inner: seq<Payload>)
    ensures Steady(w, s, HandleDeletes(w, s, now, inner))
    decreases inner
  {
    hide HandleDelete, DrawnIn;
    if inner != [] {
      var t := HandleDeletes(w, s, now, inner[..|inner| - 1]);
      HandleDeletesSteady(w, s, now, inner[..|inner| - 1]);
      HandleDeleteSteady(w, t, now, inner[|inner| - 1]);
      SteadyThen(w, s, t, HandleDeletes(w, s, now, inner));
    }
  }

  /** The responder's SPI is drawn while it answers. */
  lemma AnswerDraws(w: World, s: State, keys: IkeKeys, req: seq<Payload>)
    requires Sound(w)
    ensures var a := AnswerIke(w.c, keys.skd, w.ike, req, w.privs(s.pos), w.draws(s.pos));
            a.AcceptIke? ==> w.draws(s.pos).Some? && OwnSpi(a.keys) == w.draws(s.pos).value.spi8
  {
    hide Extract, Suites.SelectProposal;
  }

  /** The initiator's SPI is the one it asked with. */
  lemma CompletionDraws(w: World, skd: Bytes, ctx: IkeCtx, resp: seq<Payload>)
    requires Sound(w)
    ensures var done := CompleteIke(w.c, skd, ctx, w.ike, resp); done.Ok? ==> OwnSpi(done.value) == ctx.newSPIi
  {
    hide Extract, Suites.SelectedSuite;
  }

  lemma ReplySteady(w: World, s: State, sa: IkeSa, via: bool, exchange: byte, msgID: uint32, inner: seq<Payload>)
    ensures Steady(w, s, Reply(w, s, sa, via, exchange, msgID, inner))
  {}

  lemma HandleIkeDraws(w: World, s: State, now: int, msgID: uint32, inner: seq<Payload>)
    requires Sound(w)
    ensures Moves(w, s, HandleIke(w, s, now, msgID, inner))
  {
    hide AnswerIke;
    AnswerDraws(w, s, s.ike.cur.keys, inner);
  }

  lemma HandleChildSteady(w: World, s: State, now: int, sa: IkeSa, via: bool, msgID: uint32, inner: seq<Payload>)
    requires Sound(w)
    ensures Steady(w, s, HandleChild(w, s, now, sa, via, msgID, inner))
  {
    hide AnswerChild;
  }

  lemma HandleCreateDraws(w: World, s: State, now: int, sa: IkeSa, via: bool, msgID: uint32, inner: seq<Payload>)
    requires Sound(w)
    ensures Moves(w, s, HandleCreate(w, s, now, sa, via, msgID, inner))
  {
    hide HandleIke, HandleChild, Reply, IsIkeRekey, Steady, Swapped;
    ReplySteady(w, s, sa, via, EXCHANGE_CREATE_CHILD_SA, msgID, [TEMPORARY_FAILURE]);
    HandleIkeDraws(w, s, now, msgID, inner);
    HandleChildSteady(w, s, now, sa, via, msgID, inner);
  }

  lemma HandleInformationalDraws(w: World, s: State, now: int, sa: IkeSa, via: bool, msgID: uint32, inner: seq<Payload>)
    ensures Moves(w, s, HandleInformational(w, s, now, sa, via, msgID, inner))
  {
    hide HandleDeletes, Reply, Steady, Swapped;
    var t := HandleDeletes(w, s, now, inner);
    HandleDeletesSteady(w, s, now, inner);
    ReplySteady(w, t, sa, via, EXCHANGE_INFORMATIONAL, msgID, []);
    SteadyThen(w, s, t, Reply(w, t, sa, via, EXCHANGE_INFORMATIONAL, msgID, []));
  }

  lemma NoteMoves(w: World, s: State, t: State, sa: IkeSa, exchange: byte, msgID: uint32, inner: seq<Payload>)
    requires Moves(w, s, t)
    ensures var u := Note(s, t, sa, exchange, msgID, inner); Moves(w, s, u) && Moves(w, s, Dead(u))
  {
    hide Named, DrawnIn;
  }

  lemma HandleRequestDraws(w: World, s: State, now: int, sa: IkeSa, via: bool, exchange: byte, msgID: uint32, inner: seq<Payload>)
    requires Sound(w)
    ensures Moves(w, s, HandleRequest(w, s, now, sa, via, exchange, msgID, inner).0)
  {
    hide HandleCreate, HandleInformational, Note, Teardown, Moves;
    if Duplicate(Slot(s, via), msgID) {
      ResendMoves(w, s, Slot(s, via), msgID);
    } else if exchange == EXCHANGE_CREATE_CHILD_SA {
      HandleCreateDraws(w, s, now, sa, via, msgID, inner);
      NoteMoves(w, s, HandleCreate(w, s, now, sa, via, msgID, inner), sa, exchange, msgID, inner);
    } else {
      HandleInformationalDraws(w, s, now, sa, via, msgID, inner);
      NoteMoves(w, s, HandleInformational(w, s, now, sa, via, msgID, inner), sa, exchange, msgID, inner);
    }
  }

  lemma ResendMoves(w: World, s: State, dd: Dedup, msgID: uint32)
    ensures Moves(w, s, Resend(s, dd, msgID))
  {}

  lemma FinishChildSteady(w: World, s: State, now: int, ctx: ChildCtx, inner: seq<Payload>)
    requires Sound(w)
    ensures Steady(w, s, FinishChild(w, s, now, ctx, inner).0)
  {
    hide CompleteChild, Originate, DrawnIn;
    forall t: State, payloads | t.pos == s.pos && t.log.root == s.log.root && t.log.swaps == s.log.swaps && t.win == s.win
      ensures Steady(w, s, Originate(w, t, now, EXCHANGE_INFORMATIONAL, payloads, DeleteSa, false).0)
    {
      OriginateDraws(w, t, now, EXCHANGE_INFORMATIONAL, payloads, DeleteSa, false);
    }
  }

  lemma FinishIkeDraws(w: World, s: State, now: int, ctx: IkeCtx, inner: seq<Payload>)
    requires Sound(w) && s.win.pending.None?
    ensures var t := FinishIke(w, s, now, ctx, inner);
            && s.pos <= t.pos && t.log.root == s.log.root && Asking(t).None?
            && (t.log.swaps == s.log.swaps || (t.log.swaps == s.log.swaps + [t.ike.cur] && OwnSpi(t.ike.cur.keys) == ctx.newSPIi))
  {
    hide CompleteIke;
    CompletionDraws(w, s.ike.cur.keys.skd, ctx, inner);
  }

  lemma HandleResponseDraws(w: World, s: State, now: int, via: bool, exchange: byte, msgID: uint32, inner: seq<Payload>)
    requires Sound(w)
    ensures Moves(w, s, HandleResponse(w, s, now, via, exchange, msgID, inner))
  {
    hide FinishChild, FinishIke, DrawnIn;
    if s.win.pending.Some? && s.win.pending.value.kind.Rekeys() {
      var s0 := s.(win := s.win.(pending := None));
      match s.win.pending.value.kind
      case ChildRekey(ctx) => FinishChildSteady(w, s0, now, ctx, inner);
      case IkeRekey(ctx) => FinishIkeDraws(w, s0, now, ctx, inner);
    }
  }

  lemma StepDraws(w: World, s: State, e: Event)
    requires Sound(w)
    ensures Moves(w, s, Step(w, s, e).0)
  {
    hide HandleRequest, HandleResponse, Housekeeping, Moves;
    match e
    case Tick(now, wall, volume, lastData) =>
      HousekeepingSteady(w, Bump(s), now, wall, volume, lastData);
      MovesFrom(w, s, Bump(s), Housekeeping(w, Bump(s), now, wall, volume, lastData).0);
    case Inbound(now, sa, exchange, response, msgID, inner) =>
      var s0, dec := Heard(s, now), Decoder(s, now, sa);
      MovesFrom(w, s, Bump(s), Bump(s));
      MovesFrom(w, s, s0, s0);
      if dec.Some? {
        HandleRequestDraws(w, s0, now, dec.value.0, dec.value.1, exchange, msgID, inner);
        HandleResponseDraws(w, s0, now, dec.value.1, exchange, msgID, inner);
        MovesFrom(w, s, s0, HandleRequest(w, s0, now, dec.value.0, dec.value.1, exchange, msgID, inner).0);
        MovesFrom(w, s, s0, HandleResponse(w, s0, now, dec.value.1, exchange, msgID, inner));
      }
  }

  /** A step begins one position on. */
  lemma MovesFrom(w: World, s: State, s0: State, t: State)
    requires s0.pos == s.pos + 1 && s0.log == s.log && s0.win == s.win && (t == s0 || Steady(w, s0, t) || Moves(w, s0, t))
    ensures Moves(w, s, t)
  {}

  // ----- no SPI twice -----

  ghost predicate Owned(w: World, s: State) {
    Distinct(w, s.log.root, s.pos) ==>
      var sas := Sas(s.log);
      && (forall k :: 1 <= k < |sas| ==> DrawnIn(w, 0, s.pos, OwnSpi(sas[k].keys)))
      && (forall i, j :: 0 <= i < j < |sas| ==> OwnSpi(sas[i].keys) != OwnSpi(sas[j].keys))
      && (Asking(s).Some? ==>
            DrawnIn(w, 0, s.pos, Asking(s).value) && forall k :: 0 <= k < |sas| ==> OwnSpi(sas[k].keys) != Asking(s).value)
  }

  /** What is newly drawn was not drawn before. */
  lemma NewDraw(w: World, s: State, hi: nat, spi: uint64)
    requires Owned(w, s) && s.pos <= hi && Distinct(w, s.log.root, hi) && DrawnIn(w, s.pos, hi, spi)
    ensures forall k :: 0 <= k < |Sas(s.log)| ==> OwnSpi(Sas(s.log)[k].keys) != spi
  {
    var n: nat :| s.pos <= n < hi && w.draws(n).Some? && w.draws(n).value.spi8 == spi;
    forall k | 0 <= k < |Sas(s.log)|
      ensures OwnSpi(Sas(s.log)[k].keys) != spi
    {
      if k > 0 {
        assert DrawnIn(w, 0, s.pos, OwnSpi(Sas(s.log)[k].keys));
      }
    }
  }

  lemma OwnedStep(w: World, s: State, e: Event)
    requires Sound(w) && Owned(w, s)
    ensures Owned(w, Step(w, s, e).0)
  {
    hide Step;
    StepDraws(w, s, e);
    var t := Step(w, s, e).0;
    if Distinct(w, t.log.root, t.pos) {
      if Steady(w, s, t) {
        assert Sas(t.log) == Sas(s.log);
        if Asking(t).Some? && Asking(t) != Asking(s) {
          NewDraw(w, s, t.pos, Asking(t).value);
        }
      } else {
        var spi := OwnSpi(t.ike.cur.keys);
        assert Sas(t.log) == Sas(s.log) + [t.ike.cur];
        if Asking(s) != Some(spi) {
          NewDraw(w, s, t.pos, spi);
        }
      }
    }
  }

  lemma OwnedStart(w: World, s: State)
    requires Start(s)
    ensures Owned(w, s)
  {}

  /** No two IKE SAs of a session have the same keys. */
  ghost predicate Unrepeated(log: Log) {
    forall i, j :: 0 <= i < j < |Sas(log)| ==> Sas(log)[i].keys != Sas(log)[j].keys
  }

  lemma OwnedUnrepeated(w: World, s: State)
    requires Owned(w, s) && Distinct(w, s.log.root, s.pos)
    ensures Unrepeated(s.log)
  {
    forall i, j | 0 <= i < j < |Sas(s.log)|
      ensures Sas(s.log)[i].keys != Sas(s.log)[j].keys
    {
      assert OwnSpi(Sas(s.log)[i].keys) != OwnSpi(Sas(s.log)[j].keys);
    }
  }
}
