/** The registry of inbound Child SAs under all interleavings of the driver's installs,
    the grace timers and the resets of a reconnect. SAs and timers are numbered in the
    order they are made, which stands for pointer identity. */
module Registry {
  import opened Bytes
  import opened Rekey
  import opened Driver
  import opened DriverInv
  import opened DriverTheorems

  /** A grace timer: removes the exact SA sa from under spi when it fires. */
  datatype Timer = Timer(id: nat, spi: uint32, sa: Option<nat>)

  /** Where the driver is inside InstallChildSA after the map was swapped: about to start
      the grace timer, or about to append it to the list. */
  datatype Job = Free | ToArm(t: Timer) | ToList(id: nat)

  /** armed timers will fire; fired ones have a callback about to remove; done ones have
      removed and are about to prune themselves. first and since are the SPI of the last
      reset and the updates installed after it, live whether that generation is still
      on. */
  datatype Reg = Reg(
    inbound: map<uint32, nat>, listed: seq<nat>, armed: set<Timer>, fired: set<Timer>, done: set<nat>, job: Job,
    nextSa: nat, nextTimer: nat, live: bool, latest: nat, first: uint32, since: seq<ChildUpdate>)

  const EMPTY := Reg(map[], [], {}, {}, {}, Free, 0, 0, false, 0, 0, [])

  datatype Move = Reset(spi: uint32) | Add(u: ChildUpdate) | Arm | List | Fire(t: Timer) | Remove(t: Timer) | Prune(id: nat) | Stop

  function Without(inbound: map<uint32, nat>, spi: uint32, want: Option<nat>): map<uint32, nat> {
    if spi in inbound && want == Some(inbound[spi]) then inbound - {spi} else inbound
  }

  function Filtered(listed: seq<nat>, id: nat): seq<nat> {
    if listed == [] then []
    else Filtered(listed[..|listed| - 1], id) + (if listed[|listed| - 1] == id then [] else [listed[|listed| - 1]])
  }

  /** The supervisor resets and stops timers only when no driver is running, so never
      inside an install. */
  predicate Enabled(r: Reg, m: Move) {
    match m
    case Reset(_) => r.job.Free?
    case Add(_) => r.job.Free? && r.live
    case Arm => r.job.ToArm?
    case List => r.job.ToList?
    case Fire(t) => t in r.armed
    case Remove(t) => t in r.fired
    case Prune(id) => id in r.done
    case Stop => r.job.Free?
  }

  function Added(r: Reg, u: ChildUpdate): Reg {
    var superseded := if u.oldInSPI in r.inbound then Some(r.inbound[u.oldInSPI]) else None;
    var job := if u.oldInSPI != 0 && u.oldInSPI != u.newInSPI then ToArm(Timer(r.nextTimer, u.oldInSPI, superseded)) else Free;
    r.(inbound := r.inbound[u.newInSPI := r.nextSa], job := job, nextSa := r.nextSa + 1, nextTimer := r.nextTimer + 1,
       latest := r.nextSa, since := r.since + [u])
  }

  function Apply(r: Reg, m: Move): Reg
    requires Enabled(r, m)
  {
    match m
    case Reset(spi) =>
      r.(inbound := map[spi := r.nextSa], nextSa := r.nextSa + 1, live := true, latest := r.nextSa, first := spi, since := [])
    case Add(u) => Added(r, u)
    case Arm => r.(armed := r.armed + {r.job.t}, job := ToList(r.job.t.id))
    case List => r.(listed := r.listed + [r.job.id], job := Free)
    case Fire(t) => r.(armed := r.armed - {t}, fired := r.fired + {t})
    case Remove(t) => r.(inbound := Without(r.inbound, t.spi, t.sa), fired := r.fired - {t}, done := r.done + {t.id})
    case Prune(id) => r.(listed := Filtered(r.listed, id), done := r.done - {id})
    case Stop => r.(armed := (set t | t in r.armed && t.id !in r.listed), listed := [], live := false)
  }

  /** Where a sequence of moves leads, if each is possible when it is made. */
  function Final(moves: seq<Move>): Option<Reg>
    decreases moves
  {
    if moves == [] then Some(EMPTY) else
    match Final(moves[..|moves| - 1])
    case None => None
    case Some(q) => if Enabled(q, moves[|moves| - 1]) then Some(Apply(q, moves[|moves| - 1])) else None
  }

  ghost predicate Runs(moves: seq<Move>, r: Reg) {
    Final(moves) == Some(r)
  }

  // ----- what every interleaving keeps -----

  /** The SPI of the most recently installed SA. */
  function LatestSpi(r: Reg): uint32 {
    Tip(r.first, r.since)
  }

  ghost predicate Removes(r: Reg, t: Timer) {
    t in r.armed || t in r.fired || r.job == ToArm(t)
  }

  /** Removals aim at SAs older than the latest, which is registered. */
  ghost predicate Safe(r: Reg) {
    && (r.nextSa == 0 ==> r.inbound == map[] && r.latest == 0 && !r.live)
    && (r.nextSa > 0 ==> r.latest == r.nextSa - 1 && LatestSpi(r) in r.inbound && r.inbound[LatestSpi(r)] == r.latest)
    && (forall spi :: spi in r.inbound ==> r.inbound[spi] <= r.latest)
    && (forall x, y :: x in r.inbound && y in r.inbound && r.inbound[x] == r.inbound[y] ==> x == y)
    && (forall t :: Removes(r, t) && t.sa.Some? ==> t.sa.value < r.latest)
  }

  /** Every running timer can be stopped: it is on the list or about to be. */
  ghost predicate Stoppable(r: Reg) {
    && (forall t :: t in r.armed ==> t.id in r.listed || r.job == ToList(t.id))
    && (forall t :: Removes(r, t) ==> t.id < r.nextTimer)
    && (forall id :: id in r.done ==> id < r.nextTimer)
    && (forall t, u :: Removes(r, t) && Removes(r, u) && t.id == u.id ==> t == u)
    && (forall t :: Removes(r, t) ==> t.id !in r.done)
    && (forall t :: t in r.armed ==> t !in r.fired && r.job != ToArm(t))
    && (forall t :: t in r.fired ==> r.job != ToArm(t))
  }

  /** Every registered SA but the latest is about to be removed. */
  ghost predicate Covered(r: Reg) {
    forall spi :: spi in r.inbound && r.inbound[spi] != r.latest ==> Scheduled(r, spi, r.inbound[spi])
  }

  ghost predicate Scheduled(r: Reg, spi: uint32, sa: nat) {
    exists t :: Removes(r, t) && t.spi == spi && t.sa == Some(sa)
  }

  /** A move that schedules nothing new. */
  lemma RemovesStep(r: Reg, m: Move)
    requires Enabled(r, m) && !m.Add?
    ensures forall t :: Removes(Apply(r, m), t) ==> Removes(r, t)
  {}

  lemma SafeAdd(r: Reg, u: ChildUpdate)
    requires Safe(r) && r.live && r.job.Free?
    ensures Safe(Added(r, u))
  {
    var q := Added(r, u);
    forall t | Removes(q, t) && t.sa.Some?
      ensures t.sa.value < q.latest
    {
      assert Removes(r, t) || q.job == ToArm(t);
    }
  }

  lemma SafeStep(r: Reg, m: Move)
    requires Safe(r) && Enabled(r, m)
    ensures Safe(Apply(r, m))
  {
    if m.Add? {
      SafeAdd(r, m.u);
    } else {
      RemovesStep(r, m);
      hide Removes;
      var q := Apply(r, m);
      assert q.latest >= r.latest;
    }
  }

  lemma {:induction false} FilteredMeans(listed: seq<nat>, id: nat)
    ensures forall x :: x in Filtered(listed, id) <==> x in listed && x != id
    decreases listed
  {
    if listed != [] {
      FilteredMeans(listed[..|listed| - 1], id);
      assert listed == listed[..|listed| - 1] + [listed[|listed| - 1]];
    }
  }

  lemma StoppableAdd(r: Reg, u: ChildUpdate)
    requires Stoppable(r) && r.job.Free?
    ensures Stoppable(Added(r, u))
  {
    var q := Added(r, u);
    assert forall t :: Removes(q, t) ==> Removes(r, t) || t.id == r.nextTimer;
  }

  lemma StoppableStep(r: Reg, m: Move)
    requires Stoppable(r) && Enabled(r, m)
    ensures Stoppable(Apply(r, m))
  {
    if m.Add? {
      StoppableAdd(r, m.u);
    } else {
      RemovesStep(r, m);
      if m.Prune? {
        FilteredMeans(r.listed, m.id);
      }
    }
  }

  lemma {:induction false} RunsKeep(moves: seq<Move>, r: Reg)
    requires Runs(moves, r)
    ensures Safe(r) && Stoppable(r)
    decreases moves
  {
    hide Safe, Stoppable, Apply;
    if moves == [] {
      EmptyKeeps();
    } else {
      var q := Final(moves[..|moves| - 1]).value;
      RunsKeep(moves[..|moves| - 1], q);
      SafeStep(q, moves[|moves| - 1]);
      StoppableStep(q, moves[|moves| - 1]);
    }
  }

  lemma EmptyKeeps()
    ensures Safe(EMPTY) && Stoppable(EMPTY)
  {}

  /** In every interleaving the most recently installed SA is registered under its SPI,
      whatever timers fire late and whichever SPIs are reused. */
  lemma LatestNeverEvicted(moves: seq<Move>, r: Reg)
    requires Runs(moves, r) && r.nextSa > 0
    ensures LatestSpi(r) in r.inbound && r.inbound[LatestSpi(r)] == r.nextSa - 1
  {
    RunsKeep(moves, r);
  }

  /** Stopping leaves no timer that could still fire. */
  lemma StopStopsAll(moves: seq<Move>, r: Reg)
    requires Runs(moves, r) && Enabled(r, Stop)
    ensures Apply(r, Stop).armed == {}
  {
    RunsKeep(moves, r);
  }

  // ----- every superseded SA is scheduled -----

  ghost predicate Chain(first: uint32, us: seq<ChildUpdate>) {
    Linked(first, us) && forall i :: 0 <= i < |us| ==> us[i].oldInSPI != 0
  }

  lemma ChainPrefix(first: uint32, us: seq<ChildUpdate>, u: ChildUpdate)
    requires Chain(first, us + [u])
    ensures Chain(first, us) && u.oldInSPI == Tip(first, us) && u.oldInSPI != 0
  {
    var all := us + [u];
    forall i | 0 <= i < |us|
      ensures us[i].oldInSPI == Tip(first, us[..i]) && us[i].oldInSPI != 0
    {
      assert all[i] == us[i] && all[..i] == us[..i];
    }
    assert all[|us|] == u && all[..|us|] == us;
  }

  /** Installing over the live SA keeps every other SA scheduled exactly when the old SPI
      is not 0, unless the new SA takes the same SPI. */
  lemma AddCovers(r: Reg, u: ChildUpdate)
    requires Safe(r) && Covered(r) && r.live && r.job.Free? && u.oldInSPI == LatestSpi(r)
    ensures Covered(Added(r, u)) <==> u.oldInSPI != 0 || u.newInSPI == 0
  {
    var q := Added(r, u);
    if u.oldInSPI != 0 || u.newInSPI == 0 {
      forall spi | spi in q.inbound && q.inbound[spi] != q.latest
        ensures Scheduled(q, spi, q.inbound[spi])
      {
        if r.inbound[spi] == r.latest {
          assert spi == LatestSpi(r) && Removes(q, q.job.t);
        } else {
          var t :| Removes(r, t) && t.spi == spi && t.sa == Some(r.inbound[spi]);
          assert Removes(q, t);
        }
      }
    } else {
      assert 0 in q.inbound && q.inbound[0] == r.latest;
      assert forall t :: Removes(q, t) ==> Removes(r, t);
    }
  }

  /** The other moves never uncover an SA. */
  lemma MoveCovers(r: Reg, m: Move)
    requires Safe(r) && Stoppable(r) && Enabled(r, m) && !m.Add?
    requires r.live ==> Covered(r)
    ensures Apply(r, m).live ==> Covered(Apply(r, m))
  {
    var q := Apply(r, m);
    if r.live && q.live && !m.Reset? {
      forall spi | spi in q.inbound && q.inbound[spi] != q.latest
        ensures Scheduled(q, spi, q.inbound[spi])
      {
        var t :| Removes(r, t) && t.spi == spi && t.sa == Some(r.inbound[spi]);
        assert Removes(q, t);
      }
    }
  }

  /** Within a generation whose updates form a chain over nonzero SPIs, every registered
      SA but the latest has a removal pending for exactly that SA. */
  lemma {:induction false} SupersededScheduled(moves: seq<Move>, r: Reg)
    requires Runs(moves, r) && r.live && Chain(r.first, r.since)
    ensures Covered(r)
    decreases moves
  {
    hide Safe, Stoppable, Apply, Covered, Chain;
    if moves != [] {
      var m := moves[|moves| - 1];
      var q := Final(moves[..|moves| - 1]).value;
      RunsKeep(moves[..|moves| - 1], q);
      if m.Add? {
        AppliedAdd(q, m);
        ChainPrefix(q.first, q.since, m.u);
        SupersededScheduled(moves[..|moves| - 1], q);
        AddCovers(q, m.u);
      } else {
        AppliedOther(q, m);
        if q.live && !m.Reset? {
          SupersededScheduled(moves[..|moves| - 1], q);
          MoveCovers(q, m);
        } else {
          FreshlyReset(q, m);
        }
      }
    }
  }

  lemma AppliedAdd(q: Reg, m: Move)
    requires Enabled(q, m) && m.Add?
    ensures Apply(q, m) == Added(q, m.u) && q.live && q.job.Free? && Apply(q, m).since == q.since + [m.u] && Apply(q, m).first == q.first
  {}

  lemma AppliedOther(q: Reg, m: Move)
    requires Enabled(q, m) && !m.Add?
    ensures m.Reset? || (Apply(q, m).since == q.since && Apply(q, m).first == q.first && (Apply(q, m).live ==> q.live))
  {}

  lemma FreshlyReset(q: Reg, m: Move)
    requires Enabled(q, m) && (m.Reset? || !q.live) && !m.Add?
    ensures Apply(q, m).live ==> Covered(Apply(q, m))
  {}

  /** Without the premise on SPIs it fails: a generation that began under SPI 0 keeps its
      first SA registered with no removal pending after one chained install. */
  lemma ZeroSpiIsNeverRemoved(u: ChildUpdate)
    requires u.oldInSPI == 0 && u.newInSPI != 0
    ensures exists moves, r :: Runs(moves, r) && r.live && Linked(r.first, r.since) && r.since == [u] && !Covered(r)
  {
    var m0, m1 := Reset(0), Add(u);
    var q := Apply(EMPTY, m0);
    EmptyKeeps();
    SafeStep(EMPTY, m0);
    FreshlyReset(EMPTY, m0);
    AddCovers(q, u);
    FinalTwo(m0, m1);
    hide Final, Covered, Apply;
    assert Runs([m0, m1], Apply(q, m1));
  }

  lemma FinalTwo(m0: Move, m1: Move)
    requires Enabled(EMPTY, m0) && Enabled(Apply(EMPTY, m0), m1)
    ensures Final([m0, m1]) == Some(Apply(Apply(EMPTY, m0), m1))
  {
    hide Apply, Enabled;
    assert [m0][..0] == [] && [m0, m1][..1] == [m0];
    assert Final([]) == Some(EMPTY);
    assert Final([m0]) == Some(Apply(EMPTY, m0));
  }

  /** What takes the SA sa from under spi: the firing of a removal scheduled for exactly it,
      an install under the same SPI, or a reset. */
  predicate Takes(m: Move, spi: uint32, sa: nat) {
    || m.Reset? || (m.Add? && m.u.newInSPI == spi)
    || (m.Remove? && m.t.spi == spi && m.t.sa == Some(sa))
  }

  /** Nothing else does: until then a superseded SA keeps receiving, whatever is installed,
      removed or stopped in between. */
  lemma {:induction false} GraceKept(moves: seq<Move>, more: seq<Move>, q: Reg, r: Reg, spi: uint32)
    requires Runs(moves, q) && Runs(moves + more, r) && spi in q.inbound
    requires forall i :: 0 <= i < |more| ==> !Takes(more[i], spi, q.inbound[spi])
    ensures spi in r.inbound && r.inbound[spi] == q.inbound[spi]
    decreases more
  {
    hide Apply, Enabled, Takes;
    if more == [] {
      assert moves + more == moves;
    } else {
      var n := |more| - 1;
      assert (moves + more)[..|moves + more| - 1] == moves + more[..n];
      var p := Final(moves + more[..n]).value;
      GraceKept(moves, more[..n], q, p, spi);
      EntryKept(p, more[n], spi);
    }
  }

  lemma EntryKept(r: Reg, m: Move, spi: uint32)
    requires Enabled(r, m) && spi in r.inbound && !Takes(m, spi, r.inbound[spi])
    ensures spi in Apply(r, m).inbound && Apply(r, m).inbound[spi] == r.inbound[spi]
  {}

  /** The driver provides that chain: a generation that began with its Child SA and
      installed the updates of its run, in order, schedules every superseded SA. */
  lemma DriverKeepsRegistryCovered(w: World, s0: State, es: seq<Event>, s: State, moves: seq<Move>, r: Reg)
    requires Sound(w) && Reached(w, s0, es, s)
    requires Runs(moves, r) && r.live && r.first == FirstSpi(s0) && r.since <= s.log.installs
    requires forall i :: 0 <= i < |r.since| ==> r.since[i].oldInSPI != 0
    ensures Covered(r)
  {
    hide Run, Start, Runs, Covered;
    ChildChain(w, s0, es, s);
    forall i | 0 <= i < |r.since|
      ensures r.since[i].oldInSPI == Tip(r.first, r.since[..i])
    {
      assert r.since[..i] == s.log.installs[..i];
    }
    SupersededScheduled(moves, r);
  }

  // ----- the program's own steps -----

  /** The client's registry fields. */
  class Inbound {
    var inbound: map<uint32, nat>
    var graceTimers: seq<nat>
    var nextSa: nat
    var nextTimer: nat

    /** What runs beside it: the timers in their stages, and the history. */
    ghost var armed: set<Timer>
    ghost var fired: set<Timer>
    ghost var done: set<nat>
    ghost var job: Job
    ghost var live: bool
    ghost var first: uint32
    ghost var since: seq<ChildUpdate>
    ghost var latest: nat

    ghost function Abs(): Reg
      reads this
    {
      Reg(inbound, graceTimers, armed, fired, done, job, nextSa, nextTimer, live, latest, first, since)
    }

    constructor ()
      ensures Abs() == EMPTY
    {
      inbound, graceTimers, nextSa, nextTimer := map[], [], 0, 0;
      armed, fired, done, job, live, first, since, latest := {}, {}, {}, Free, false, 0, [], 0;
    }

    method ResetInbound(spi: uint32)
      requires Enabled(Abs(), Reset(spi))
      modifies this
      ensures Abs() == Apply(old(Abs()), Reset(spi))
    {
      inbound := map[spi := nextSa];
      live, latest, first, since := true, nextSa, spi, [];
      nextSa := nextSa + 1;
    }

    /** removeInbound: copies all but the one entry, only if it still is the SA wanted. */
    method RemoveInbound(ghost t: Timer, spi: uint32, want: Option<nat>)
      requires t.spi == spi && t.sa == want && Enabled(Abs(), Remove(t))
      modifies this
      ensures Abs() == Apply(old(Abs()), Remove(t))
    {
      fired, done := fired - {t}, done + {t.id};
      if spi !in inbound || Some(inbound[spi]) != want {
        return;
      }
      var next: map<uint32, nat> := map[];
      var keys := inbound.Keys;
      while keys != {}
        invariant keys <= inbound.Keys
        invariant next.Keys == inbound.Keys - keys - {spi}
        invariant forall k :: k in next ==> next[k] == inbound[k]
        decreases keys
      {
        var k: uint32 :| k in keys;
        if k != spi {
          next := next[k := inbound[k]];
        }
        keys := keys - {k};
      }
      assert next == inbound - {spi};
      inbound := next;
    }

    /** The part of InstallChildSA under the lock, for an update whose SA builds. */
    method AddInbound(u: ChildUpdate) returns (superseded: Option<nat>)
      requires Enabled(Abs(), Add(u))
      modifies this
      ensures Abs() == Apply(old(Abs()), Add(u))
      ensures superseded == if u.oldInSPI in old(inbound) then Some(old(inbound)[u.oldInSPI]) else None
    {
      superseded := if u.oldInSPI in inbound then Some(inbound[u.oldInSPI]) else None;
      ghost var r := Added(Abs(), u);
      inbound, nextSa, nextTimer := inbound[u.newInSPI := nextSa], nextSa + 1, nextTimer + 1;
      latest, since, job := r.latest, r.since, r.job;
    }

    /** scheduleInboundRemoval: start the timer, then remember it. */
    method ScheduleInboundRemoval(id: nat)
      requires job.ToArm? && job.t.id == id
      modifies this
      ensures Abs() == Apply(Apply(old(Abs()), Arm), List)
    {
      armed, job := armed + {job.t}, ToList(id);
      graceTimers, job := graceTimers + [id], Free;
    }

    /** The pruning at the end of a timer's callback. */
    method PruneTimer(id: nat)
      requires Enabled(Abs(), Prune(id))
      modifies this
      ensures Abs() == Apply(old(Abs()), Prune(id))
    {
      var kept: seq<nat> := [];
      for i := 0 to |graceTimers|
        invariant kept == Filtered(graceTimers[..i], id)
      {
        assert graceTimers[..i + 1][..i] == graceTimers[..i];
        if graceTimers[i] != id {
          kept := kept + [graceTimers[i]];
        }
      }
      assert graceTimers[..|graceTimers|] == graceTimers;
      graceTimers, done := kept, done - {id};
    }

    method StopGraceTimers()
      requires Enabled(Abs(), Stop)
      modifies this
      ensures Abs() == Apply(old(Abs()), Stop)
    {
      ghost var was := armed;
      for i := 0 to |graceTimers|
        invariant armed == set t | t in was && t.id !in graceTimers[..i]
        invariant graceTimers == old(graceTimers) && Abs() == old(Abs()).(armed := armed)
      {
        assert graceTimers[..i + 1] == graceTimers[..i] + [graceTimers[i]];
        armed := set t | t in armed && t.id != graceTimers[i];
      }
      assert graceTimers[..|graceTimers|] == graceTimers;
      graceTimers, live := [], false;
    }
  }
}
