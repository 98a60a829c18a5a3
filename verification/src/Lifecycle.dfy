/** Dial, the reconnect supervisor, the workers and Close as one interleaved state
    machine: each move is one step of one goroutine between its synchronisation points. */
module Lifecycle {
  import opened Bytes

  datatype Starter = Dialing | Building | Launching | Publishing | Starting(left: nat) | Ready | Failed

  /** Waiting is the supervisor's select; the rest are the steps of reconnect. */
  datatype Super =
    | Absent | Waiting | Checking | Stopping | Joining | Dropping | Redialing | Attempting
    | Rebuilding(sess: nat) | Republishing | Restarting(more: nat) | Exited
  {
    /** The old generation is over and the new one not yet begun. */
    predicate Between() { Dropping? || Redialing? || Attempting? || Rebuilding? || Republishing? }
    predicate Gone() { Absent? || Exited? }
  }

  datatype Closer = NotCalled | Cancelled | Joined | Taken(mgr: nat) | Down(mgr: nat) | Quiet | Done

  datatype Worker = Worker(gen: nat, id: nat)

  /** A panicking worker reports the death, then shuts its manager down, and only then
      counts as finished. */
  datatype Stage = Running | Reported | Leaving

  /** Managers and sessions are numbered in order of creation; the last manager is the
      published one. workers holds every worker not yet finished. */
  datatype Life = Life(
    auto: bool, starter: Starter, super: Super, closer: Closer, cancelled: bool, death: bool,
    mgrs: nat, shut: set<nat>, workers: map<Worker, Stage>, nextWorker: nat,
    dialled: nat, closed: set<nat>, cur: Option<nat>)
  {
    predicate Idle(gen: nat) { forall w :: w in workers ==> w.gen != gen }
    predicate At(w: Worker, stage: Stage) { w in workers && workers[w] == stage }
  }

  function Initial(auto: bool): Life {
    Life(auto, Dialing, Absent, NotCalled, false, false, 0, {}, map[], 0, 0, {}, None)
  }

  /** ok is how a dial or a key set-up turns out; n how many workers a generation has. A
      driver that finds the peer dead signals it and ends in a later move. */
  datatype Move =
    | StarterMoves(ok: bool, n: nat)
    | SuperMoves(ok: bool, n: nat)
    | CloseCalled
    | CloseMoves
    | Signals(w: Worker)
    | Ends(w: Worker)
    | Panics(w: Worker)
    | ShutsDown(w: Worker)
    | Leaves(w: Worker)

  /** Manager.Go: refused once the manager is shut down. */
  function Go(l: Life, gen: nat): Life {
    if gen in l.shut then l
    else l.(workers := l.workers[Worker(gen, l.nextWorker) := Running], nextWorker := l.nextWorker + 1)
  }

  /** A user can call Close once Dial returned; without auto-reconnect a dying worker
      calls it too. */
  predicate Callable(l: Life) {
    l.closer.NotCalled? && (l.starter.Ready? || (!l.auto && l.starter.Starting? && l.nextWorker > 0))
  }

  predicate SuperCan(l: Life) {
    match l.super
    case Absent => false
    case Exited => false
    case Waiting => l.cancelled || l.death
    case Joining => l.mgrs > 0 && l.Idle(l.mgrs - 1)
    case _ => true
  }

  predicate CloserCan(l: Life) {
    match l.closer
    case NotCalled => false
    case Cancelled => l.super.Gone()
    case Down(m) => l.Idle(m)
    case Done => false
    case _ => true
  }

  predicate Enabled(l: Life, m: Move) {
    match m
    case StarterMoves(_, _) => !l.starter.Ready? && !l.starter.Failed?
    case SuperMoves(_, _) => SuperCan(l)
    case CloseCalled => Callable(l)
    case CloseMoves => CloserCan(l)
    case Signals(w) => l.At(w, Running)
    case Ends(w) => l.At(w, Running)
    case Panics(w) => l.At(w, Running)
    case ShutsDown(w) => l.At(w, Reported)
    case Leaves(w) => l.At(w, Leaving)
  }

  function Start(l: Life, ok: bool, n: nat): Life {
    match l.starter
    case Dialing => if ok then l.(dialled := 1, cur := Some(0), starter := Building) else l.(cancelled := true, starter := Failed)
    case Building => if ok then l.(starter := Launching) else l.(closed := l.closed + {0}, cancelled := true, starter := Failed)
    case Launching => l.(super := if l.auto then Waiting else Absent, starter := Publishing)
    case Publishing => l.(mgrs := 1, starter := Starting(n))
    case Starting(left) => if left == 0 then l.(starter := Ready) else Go(l, 0).(starter := Starting(left - 1))
    case _ => l
  }

  /** The supervisor; in Waiting with both a cancellation and a death pending, ok picks. */
  function Supervise(l: Life, ok: bool, n: nat): Life {
    match l.super
    case Waiting =>
      if l.cancelled && (ok || !l.death) then l.(super := Exited) else l.(death := false, super := Checking)
    case Checking => if l.cancelled then l.(super := Waiting) else l.(super := Stopping)
    case Stopping => if l.mgrs > 0 then l.(shut := l.shut + {l.mgrs - 1}, super := Joining) else l
    case Joining => l.(super := Dropping)
    case Dropping => if l.cur.Some? then l.(closed := l.closed + {l.cur.value}, super := Redialing) else l.(super := Redialing)
    case Redialing => if l.cancelled then l.(super := Waiting) else l.(super := Attempting)
    case Attempting => if ok then l.(dialled := l.dialled + 1, super := Rebuilding(l.dialled)) else l.(super := Redialing)
    case Rebuilding(s) =>
      if ok then l.(cur := Some(s), super := Republishing) else l.(closed := l.closed + {s}, death := true, super := Waiting)
    case Republishing => l.(mgrs := l.mgrs + 1, super := Restarting(n))
    case Restarting(more) =>
      if more == 0 then l.(super := Waiting)
      else if l.mgrs > 0 then Go(l, l.mgrs - 1).(super := Restarting(more - 1)) else l
    case _ => l
  }

  function Close(l: Life): Life {
    match l.closer
    case Cancelled => l.(closer := Joined)
    case Joined => if l.mgrs > 0 then l.(closer := Taken(l.mgrs - 1)) else l.(closer := Quiet)
    case Taken(m) => l.(shut := l.shut + {m}, closer := Down(m))
    case Down(_) => l.(closer := Quiet)
    case Quiet => if l.cur.Some? then l.(closed := l.closed + {l.cur.value}, closer := Done) else l.(closer := Done)
    case _ => l
  }

  function Apply(l: Life, m: Move): Life
    requires Enabled(l, m)
  {
    match m
    case StarterMoves(ok, n) => Start(l, ok, n)
    case SuperMoves(ok, n) => Supervise(l, ok, n)
    case CloseCalled => l.(cancelled := true, closer := Cancelled)
    case CloseMoves => Close(l)
    case Signals(w) => l.(death := l.death || l.auto)
    case Ends(w) => l.(workers := l.workers - {w})
    case Panics(w) => l.(workers := l.workers[w := Reported], death := l.death || l.auto)
    case ShutsDown(w) => l.(workers := l.workers[w := Leaving], shut := l.shut + {w.gen})
    case Leaves(w) => l.(workers := l.workers - {w})
  }

  /** Where an interleaving leads, if each move is possible when it is made. */
  function Final(auto: bool, moves: seq<Move>): Option<Life>
    decreases moves
  {
    if moves == [] then Some(Initial(auto)) else
    match Final(auto, moves[..|moves| - 1])
    case None => None
    case Some(l) => if Enabled(l, moves[|moves| - 1]) then Some(Apply(l, moves[|moves| - 1])) else None
  }

  // ----- what every interleaving keeps -----

  /** Only the published manager has workers, and all earlier ones are shut. */
  ghost predicate Populated(workers: map<Worker, Stage>, mgrs: nat, shut: set<nat>) {
    (forall w :: w in workers ==> w.gen + 1 == mgrs) && (forall g: nat :: g + 1 < mgrs ==> g in shut)
  }

  ghost predicate Generations(l: Life) {
    && Populated(l.workers, l.mgrs, l.shut)
    && (l.super.Joining? || l.super.Between() ==> l.mgrs > 0 && l.mgrs - 1 in l.shut)
    && (l.super.Between() ==> l.workers == map[])
  }

  /** Every open session is the current one or in the supervisor's hands. */
  ghost predicate Sessions(l: Life) {
    && (forall s: nat :: s < l.dialled ==> s in l.closed || l.cur == Some(s) || l.super == Rebuilding(s))
    && (l.cur.Some? ==> l.cur.value < l.dialled)
    && (l.super.Redialing? || l.super.Attempting? || l.super.Rebuilding? ==> l.cur.Some? && l.cur.value in l.closed)
    && (l.super.Rebuilding? ==> l.super.sess < l.dialled)
  }

  /** How far Dial is says what can have happened. */
  ghost predicate Early(l: Life) {
    && (l.starter.Dialing? ==> l.dialled == 0 && l.cur.None?)
    && (l.starter.Building? || l.starter.Launching? || l.starter.Publishing? ==> l.dialled == 1 && l.cur == Some(0))
    && (l.starter.Starting? || l.starter.Ready? <==> l.mgrs > 0)
    && (l.mgrs == 0 ==> l.super in {Absent, Waiting} && l.workers == map[] && !l.death && l.closer.NotCalled? && l.nextWorker == 0)
    && (l.mgrs > 0 ==> l.cur.Some?)
    && (l.starter.Dialing? || l.starter.Building? || l.starter.Launching? || l.starter.Failed? ==> l.super.Absent?)
    && (l.starter.Publishing? ==> !l.cancelled)
    && (l.starter.Dialing? || l.starter.Building? || l.starter.Launching? ==> !l.cancelled)
    && (l.starter.Failed? ==> forall s: nat :: s < l.dialled ==> s in l.closed)
  }

  /** How far Close is says what has stopped. */
  ghost predicate Closes(l: Life) {
    && (!l.closer.NotCalled? ==> l.cancelled && l.mgrs > 0)
    && (l.closer.Joined? || l.closer.Taken? || l.closer.Down? || l.closer.Quiet? || l.closer.Done? ==> l.super.Gone())
    && (l.closer.Taken? || l.closer.Down? ==> l.closer.mgr + 1 == l.mgrs)
    && (l.closer.Down? || l.closer.Quiet? || l.closer.Done? ==> l.mgrs - 1 in l.shut)
    && (l.closer.Quiet? || l.closer.Done? ==> l.workers == map[])
    && (l.closer.Done? ==> l.cur.Some? && l.cur.value in l.closed)
  }

  ghost predicate Inv(l: Life) {
    Generations(l) && Sessions(l) && Early(l) && Closes(l)
  }

  lemma StartGenerations(l: Life, ok: bool, n: nat)
    requires Inv(l) && !l.starter.Ready? && !l.starter.Failed?
    ensures Generations(Start(l, ok, n))
  {}

  lemma StartSessions(l: Life, ok: bool, n: nat)
    requires Inv(l) && !l.starter.Ready? && !l.starter.Failed?
    ensures Sessions(Start(l, ok, n))
  {}

  lemma StartEarly(l: Life, ok: bool, n: nat)
    requires Inv(l) && !l.starter.Ready? && !l.starter.Failed?
    ensures Early(Start(l, ok, n))
  {}

  lemma StartCloses(l: Life, ok: bool, n: nat)
    requires Inv(l) && !l.starter.Ready? && !l.starter.Failed?
    ensures Closes(Start(l, ok, n))
  {}

  lemma StartKeeps(l: Life, ok: bool, n: nat)
    requires Inv(l) && !l.starter.Ready? && !l.starter.Failed?
    ensures Inv(Start(l, ok, n))
  {
    hide Generations, Sessions, Early, Closes, Start;
    StartGenerations(l, ok, n);
    StartSessions(l, ok, n);
    StartEarly(l, ok, n);
    StartCloses(l, ok, n);
  }

  lemma RestartGenerations(l: Life, ok: bool, n: nat)
    requires Inv(l) && (l.super.Restarting? || l.super.Republishing?)
    ensures Generations(Supervise(l, ok, n))
  {
    hide Sessions, Closes;
  }

  lemma PopulatedMore(l: Life)
    requires Populated(l.workers, l.mgrs, l.shut)
    ensures l.mgrs > 0 ==> Populated(l.workers, l.mgrs, l.shut + {l.mgrs - 1})
  {}

  lemma JoinedIdle(l: Life)
    requires Populated(l.workers, l.mgrs, l.shut) && l.mgrs > 0 && l.Idle(l.mgrs - 1)
    ensures l.workers == map[]
  {}

  lemma ReconnectGenerations(l: Life, ok: bool, n: nat)
    requires Inv(l) && SuperCan(l) && !l.super.Restarting? && !l.super.Republishing?
    ensures Generations(Supervise(l, ok, n))
  {
    PopulatedMore(l);
    hide Populated, Sessions, Closes;
    if l.super.Joining? {
      JoinedIdle(l);
    }
  }

  lemma SuperviseGenerations(l: Life, ok: bool, n: nat)
    requires Inv(l) && SuperCan(l)
    ensures Generations(Supervise(l, ok, n))
  {
    hide Inv, Supervise, Generations;
    if l.super.Restarting? || l.super.Republishing? {
      RestartGenerations(l, ok, n);
    } else {
      ReconnectGenerations(l, ok, n);
    }
  }

  lemma SuperviseSessions(l: Life, ok: bool, n: nat)
    requires Inv(l) && SuperCan(l)
    ensures Sessions(Supervise(l, ok, n))
  {}

  lemma SuperviseEarly(l: Life, ok: bool, n: nat)
    requires Inv(l) && SuperCan(l)
    ensures Early(Supervise(l, ok, n))
  {}

  lemma SuperviseCloses(l: Life, ok: bool, n: nat)
    requires Inv(l) && SuperCan(l)
    ensures Closes(Supervise(l, ok, n))
  {}

  lemma SuperviseKeeps(l: Life, ok: bool, n: nat)
    requires Inv(l) && SuperCan(l)
    ensures Inv(Supervise(l, ok, n))
  {
    hide Generations, Sessions, Early, Closes, Supervise;
    SuperviseGenerations(l, ok, n);
    SuperviseSessions(l, ok, n);
    SuperviseEarly(l, ok, n);
    SuperviseCloses(l, ok, n);
  }

  lemma CloseKeeps(l: Life)
    requires Inv(l) && CloserCan(l)
    ensures Inv(Close(l))
  {}

  lemma ApplyKeeps(l: Life, m: Move)
    requires Inv(l) && Enabled(l, m)
    ensures Inv(Apply(l, m))
  {
    match m
    case StarterMoves(ok, n) => StartKeeps(l, ok, n);
    case SuperMoves(ok, n) => SuperviseKeeps(l, ok, n);
    case CloseMoves => CloseKeeps(l);
    case _ => assert Apply(l, m).workers.Keys <= l.workers.Keys;
  }

  lemma {:induction false} FinalKeeps(auto: bool, moves: seq<Move>)
    ensures Final(auto, moves).Some? ==> Inv(Final(auto, moves).value)
    decreases moves
  {
    hide Inv, Apply, Enabled;
    if moves == [] {
      InitialKeeps(auto);
    } else if Final(auto, moves).Some? {
      FinalKeeps(auto, moves[..|moves| - 1]);
      ApplyKeeps(Final(auto, moves[..|moves| - 1]).value, moves[|moves| - 1]);
    }
  }

  lemma InitialKeeps(auto: bool)
    ensures Inv(Initial(auto))
  {}

  /** When Close has returned, in every interleaving: no worker of any generation runs,
      and every session a dial returned is closed. */
  lemma CloseEndsEverything(auto: bool, moves: seq<Move>, l: Life)
    requires Final(auto, moves) == Some(l) && l.closer.Done?
    ensures l.workers == map[]
    ensures forall s: nat :: s < l.dialled ==> s in l.closed
  {
    FinalKeeps(auto, moves);
  }

  /** And nothing can start afterwards: whatever moves follow, it stays that way. */
  lemma {:induction false} NothingAfterClose(auto: bool, moves: seq<Move>, more: seq<Move>, l: Life)
    requires Final(auto, moves).Some? && Final(auto, moves).value.closer.Done? && Final(auto, moves + more) == Some(l)
    ensures l.closer.Done? && l.workers == map[] && l.dialled == Final(auto, moves).value.dialled
    decreases more
  {
    hide Apply, Enabled, Inv;
    if more == [] {
      assert moves + more == moves;
      CloseEndsEverything(auto, moves, l);
    } else {
      var rest := more[..|more| - 1];
      assert (moves + more)[..|moves + more| - 1] == moves + rest;
      var q := Final(auto, moves + rest).value;
      NothingAfterClose(auto, moves, rest, q);
      FinalKeeps(auto, moves + rest);
      DoneStays(q, more[|more| - 1]);
      CloseEndsEverything(auto, moves + more, l);
    }
  }

  lemma DoneStays(l: Life, m: Move)
    requires Inv(l) && l.closer.Done? && Enabled(l, m)
    ensures Apply(l, m).closer.Done? && Apply(l, m).dialled == l.dialled
  {}

  /** A Dial that fails leaves no session open and no goroutine behind. */
  lemma FailedDialLeavesNothing(auto: bool, moves: seq<Move>, l: Life)
    requires Final(auto, moves) == Some(l) && l.starter.Failed?
    ensures l.workers == map[] && l.super.Absent? && forall s: nat :: s < l.dialled ==> s in l.closed
  {
    FinalKeeps(auto, moves);
  }
}
