/** After a death the supervisor gets on: what it always does next, and that a new
    generation can always be reached. */
module LifecycleProgress {
  import opened Bytes
  import opened Lifecycle

  // ----- continuing from a state -----

  /** Where further moves lead. */
  function From(l: Life, moves: seq<Move>): Option<Life>
    decreases moves
  {
    if moves == [] then Some(l) else
    match From(l, moves[..|moves| - 1])
    case None => None
    case Some(q) => if Enabled(q, moves[|moves| - 1]) then Some(Apply(q, moves[|moves| - 1])) else None
  }

  lemma {:induction false} FinalFrom(auto: bool, moves: seq<Move>, more: seq<Move>)
    requires Final(auto, moves).Some?
    ensures Final(auto, moves + more) == From(Final(auto, moves).value, more)
    decreases more
  {
    hide Apply, Enabled;
    if more == [] {
      assert moves + more == moves;
    } else {
      var rest := more[..|more| - 1];
      FinalFrom(auto, moves, rest);
      assert (moves + more)[..|moves + more| - 1] == moves + rest;
    }
  }

  lemma {:induction false} FromTwice(l: Life, a: seq<Move>, b: seq<Move>)
    requires From(l, a).Some?
    ensures From(l, a + b) == From(From(l, a).value, b)
    decreases b
  {
    hide Apply, Enabled;
    if b == [] {
      assert a + b == a;
    } else {
      FromTwice(l, a, b[..|b| - 1]);
      assert (a + b)[..|a + b| - 1] == a + b[..|b| - 1];
    }
  }

  lemma FromOne(l: Life, m: Move)
    ensures From(l, [m]) == if Enabled(l, m) then Some(Apply(l, m)) else None
  {
    hide Apply, Enabled;
    assert [m][..0] == [];
    assert From(l, []) == Some(l);
  }

  // ----- what the supervisor always does next -----

  /** How often the supervisor moved. */
  function Turns(moves: seq<Move>): nat {
    if moves == [] then 0 else Turns(moves[..|moves| - 1]) + if moves[|moves| - 1].SuperMoves? then 1 else 0
  }

  /** Where a reported and uncancelled death has brought the supervisor after k moves. */
  predicate Underway(l: Life, k: nat) {
    && (k == 0 ==> l.super.Waiting? && l.death) && (k == 1 ==> l.super.Checking?) && (k == 2 ==> l.super.Stopping?)
    && (k == 3 ==> l.super.Joining? && l.mgrs > 0 && l.mgrs - 1 in l.shut)
  }

  /** Whatever else happens in between, short of Close: a death leads the supervisor, in two
      moves it can always make, to stopping the old generation, and its third shuts it. */
  lemma {:induction false} DeathLeadsOn(l: Life, moves: seq<Move>)
    requires Inv(l) && l.super.Waiting? && l.death && !l.cancelled
    requires From(l, moves).Some? && !From(l, moves).value.cancelled && Turns(moves) <= 3
    ensures var r := From(l, moves).value; Inv(r) && Underway(r, Turns(moves)) && (Turns(moves) < 3 ==> SuperCan(r))
    decreases moves
  {
    hide Inv, Apply, Enabled, Underway;
    if moves == [] {
      CanMove(l);
    } else {
      var n := |moves| - 1;
      var q := From(l, moves[..n]).value;
      StaysCancelled(q, moves[n]);
      DeathLeadsOn(l, moves[..n]);
      ApplyKeeps(q, moves[n]);
      Onward(q, moves[n], Turns(moves[..n]));
      CanMove(Apply(q, moves[n]));
    }
  }

  lemma CanMove(l: Life)
    requires Inv(l)
    ensures l.super.Waiting? && l.death ==> Underway(l, 0)
    ensures forall k :: 0 <= k < 3 && Underway(l, k) ==> SuperCan(l)
  {}

  lemma StaysCancelled(l: Life, m: Move)
    requires Enabled(l, m)
    ensures l.cancelled ==> Apply(l, m).cancelled
  {}

  lemma Onward(l: Life, m: Move, k: nat)
    requires Inv(l) && Enabled(l, m) && k <= 3 && Underway(l, k) && !Apply(l, m).cancelled
    ensures !l.cancelled ==> Underway(Apply(l, m), if m.SuperMoves? then k + 1 else k)
  {
    hide Sessions;
  }

  // ----- and never without a death -----

  /** The deaths the workers reported, cleanly or by a panic. */
  function Deaths(moves: seq<Move>): nat {
    if moves == [] then 0
    else Deaths(moves[..|moves| - 1]) + if moves[|moves| - 1].Signals? || moves[|moves| - 1].Panics? then 1 else 0
  }

  /** A reported death not yet answered by a new generation. */
  function Owed(l: Life): nat {
    (if l.death then 1 else 0)
    + if l.super.Checking? || l.super.Stopping? || l.super.Joining? || l.super.Between() then 1 else 0
  }

  /** In every interleaving a generation after the first answers a death of its own: there
      are never more of them than the workers reported deaths. */
  lemma {:induction false} GenerationsAnswerDeaths(auto: bool, moves: seq<Move>, l: Life)
    requires Final(auto, moves) == Some(l)
    ensures l.mgrs + Owed(l) <= 1 + Deaths(moves)
    decreases moves
  {
    hide Inv, Apply, Enabled;
    if moves != [] {
      var n := |moves| - 1;
      var q := Final(auto, moves[..n]).value;
      GenerationsAnswerDeaths(auto, moves[..n], q);
      FinalKeeps(auto, moves[..n]);
      OwedGrows(q, moves[n]);
    }
  }

  lemma OwedGrows(l: Life, m: Move)
    requires Inv(l) && Enabled(l, m)
    ensures var r := Apply(l, m);
            r.mgrs + Owed(r) <= (if l.mgrs == 0 then 1 else l.mgrs + Owed(l)) + if m.Signals? || m.Panics? then 1 else 0
  {
    hide Generations, Sessions, Closes, Start, Supervise, Close;
    match m
    case StarterMoves(ok, n) => StartOwes(l, ok, n);
    case SuperMoves(ok, n) => SuperviseOwes(l, ok, n);
    case CloseMoves => CloseOwes(l);
    case _ =>
  }

  lemma StartOwes(l: Life, ok: bool, n: nat)
    requires Early(l)
    ensures var r := Start(l, ok, n); r.mgrs + Owed(r) <= if l.mgrs == 0 then 1 else l.mgrs + Owed(l)
  {}

  lemma SuperviseOwes(l: Life, ok: bool, n: nat)
    requires Early(l) && SuperCan(l)
    ensures var r := Supervise(l, ok, n); r.mgrs + Owed(r) <= if l.mgrs == 0 then 1 else l.mgrs + Owed(l)
  {}

  lemma CloseOwes(l: Life)
    requires Early(l)
    ensures var r := Close(l); r.mgrs + Owed(r) <= if l.mgrs == 0 then 1 else l.mgrs + Owed(l)
  {}

  // ----- only what exists is shut or closed -----

  ghost predicate Known(l: Life) {
    (forall g :: g in l.shut ==> g < l.mgrs) && (forall s :: s in l.closed ==> s < l.dialled)
  }

  lemma {:induction false} FinalKnown(auto: bool, moves: seq<Move>)
    ensures Final(auto, moves).Some? ==> Known(Final(auto, moves).value)
    decreases moves
  {
    hide Inv, Apply, Enabled, Known;
    if moves == [] {
      InitialKnown(auto);
    } else if Final(auto, moves).Some? {
      FinalKnown(auto, moves[..|moves| - 1]);
      FinalKeeps(auto, moves[..|moves| - 1]);
      ApplyKnown(Final(auto, moves[..|moves| - 1]).value, moves[|moves| - 1]);
    }
  }

  lemma InitialKnown(auto: bool)
    ensures Known(Initial(auto))
  {}

  lemma ApplyKnown(l: Life, m: Move)
    requires Inv(l) && Known(l) && Enabled(l, m)
    ensures Known(Apply(l, m))
  {
    hide Early, Sessions, Closes, Start, Supervise, Close;
    match m
    case StarterMoves(ok, n) => StartKnown(l, ok, n);
    case SuperMoves(ok, n) => SuperviseKnown(l, ok, n);
    case CloseMoves => CloseKnown(l);
    case _ =>
  }

  lemma StartKnown(l: Life, ok: bool, n: nat)
    requires Early(l) && Known(l)
    ensures Known(Start(l, ok, n))
  {}

  lemma SuperviseKnown(l: Life, ok: bool, n: nat)
    requires Sessions(l) && Known(l)
    ensures Known(Supervise(l, ok, n))
  {}

  lemma CloseKnown(l: Life)
    requires Sessions(l) && Closes(l) && Known(l)
    ensures Known(Close(l))
  {}

  // ----- a new generation can be reached -----

  /** The workers of a generation that was told to stop can all finish. */
  lemma {:induction false} Drains(l: Life) returns (moves: seq<Move>)
    requires forall w :: w in l.workers ==> w.gen in l.shut
    ensures From(l, moves) == Some(l.(workers := map[]))
    decreases |l.workers|
  {
    if l.workers == map[] {
      moves := [];
    } else {
      var w :| w in l.workers;
      var first := Finishes(l, w);
      var q := l.(workers := l.workers - {w});
      assert |q.workers| < |l.workers| by {
        assert q.workers.Keys == l.workers.Keys - {w};
        assert |q.workers.Keys| < |l.workers.Keys|;
      }
      var rest := Drains(q);
      FromTwice(l, first, rest);
      moves := first + rest;
    }
  }

  lemma Finishes(l: Life, w: Worker) returns (moves: seq<Move>)
    requires w in l.workers && w.gen in l.shut
    ensures From(l, moves) == Some(l.(workers := l.workers - {w}))
  {
    match l.workers[w]
    case Running =>
      moves := [Ends(w)];
      FromOne(l, Ends(w));
    case Leaving =>
      moves := [Leaves(w)];
      FromOne(l, Leaves(w));
    case Reported =>
      var q := l.(workers := l.workers[w := Leaving]);
      assert l.shut + {w.gen} == l.shut;
      FromOne(l, ShutsDown(w));
      FromOne(q, Leaves(w));
      FromTwice(l, [ShutsDown(w)], [Leaves(w)]);
      moves := [ShutsDown(w)] + [Leaves(w)];
      assert q.workers - {w} == l.workers - {w};
  }

  /** One move of the supervisor in front of others. */
  lemma Then(l: Life, ok: bool, n: nat, rest: seq<Move>)
    requires SuperCan(l)
    ensures From(l, [SuperMoves(ok, n)] + rest) == From(Supervise(l, ok, n), rest)
  {
    hide Supervise;
    FromOne(l, SuperMoves(ok, n));
    FromTwice(l, [SuperMoves(ok, n)], rest);
  }

  /** b has all of a and n running workers of this generation more. */
  ghost predicate Grown(a: map<Worker, Stage>, b: map<Worker, Stage>, gen: nat, n: nat) {
    && |b| == |a| + n && (forall w :: w in a ==> w in b && b[w] == a[w])
    && forall w :: w in b && w !in a ==> w.gen == gen && b[w] == Running
  }

  lemma GrownMore(a: map<Worker, Stage>, b: map<Worker, Stage>, c: map<Worker, Stage>, gen: nat, m: nat, n: nat)
    requires Grown(a, b, gen, m) && Grown(b, c, gen, n)
    ensures Grown(a, c, gen, m + n)
  {}

  /** All workers of the new generation start. */
  lemma {:induction false} Restarts(l: Life, n: nat) returns (moves: seq<Move>)
    requires l.super == Restarting(n) && l.mgrs > 0 && l.mgrs - 1 !in l.shut
    requires forall w :: w in l.workers ==> w.id < l.nextWorker
    ensures var r := From(l, moves);
            && r.Some? && r.value == l.(super := Waiting, workers := r.value.workers, nextWorker := l.nextWorker + n)
            && Grown(l.workers, r.value.workers, l.mgrs - 1, n)
    decreases n
  {
    if n == 0 {
      moves := [SuperMoves(true, 0)];
      FromOne(l, SuperMoves(true, 0));
    } else {
      hide From, Supervise, Grown;
      OneStarts(l, n);
      var q := l.(super := Restarting(n - 1), workers := l.workers[Worker(l.mgrs - 1, l.nextWorker) := Running], nextWorker := l.nextWorker + 1);
      var rest := Restarts(q, n - 1);
      Then(l, true, 0, rest);
      moves := [SuperMoves(true, 0)] + rest;
      GrownMore(l.workers, q.workers, From(q, rest).value.workers, l.mgrs - 1, 1, n - 1);
    }
  }

  lemma OneStarts(l: Life, n: nat)
    requires l.super == Restarting(n) && n > 0 && l.mgrs > 0 && l.mgrs - 1 !in l.shut
    requires forall w :: w in l.workers ==> w.id < l.nextWorker
    ensures var w := Worker(l.mgrs - 1, l.nextWorker);
            && SuperCan(l) && Grown(l.workers, l.workers[w := Running], l.mgrs - 1, 1)
            && Supervise(l, true, 0) == l.(super := Restarting(n - 1), workers := l.workers[w := Running], nextWorker := l.nextWorker + 1)
  {
    var w := Worker(l.mgrs - 1, l.nextWorker);
    var more := l.workers[w := Running];
    assert more.Keys == l.workers.Keys + {w};
    assert |more.Keys| == |l.workers.Keys| + 1;
  }

  /** A new manager is published with n workers running on a newly dialled session, and
      every session before it is closed. */
  ghost predicate Renewed(l: Life, r: Life, n: nat) {
    && r.mgrs == l.mgrs + 1 && l.mgrs !in r.shut && r.super.Waiting? && !r.cancelled
    && |r.workers| == n && (forall w :: w in r.workers ==> w.gen == l.mgrs && r.workers[w] == Running)
    && r.dialled == l.dialled + 1 && r.cur == Some(l.dialled) && l.dialled !in r.closed
    && forall s: nat :: s < l.dialled ==> s in r.closed
  }

  /** The old generation told to stop. */
  function Stopped(l: Life): Life
    requires l.mgrs > 0
  {
    l.(death := false, super := Joining, shut := l.shut + {l.mgrs - 1})
  }

  lemma Stops(l: Life, rest: seq<Move>)
    requires l.super.Waiting? && l.death && !l.cancelled && l.mgrs > 0
    ensures From(l, [SuperMoves(true, 0)] + ([SuperMoves(true, 0)] + ([SuperMoves(true, 0)] + rest))) == From(Stopped(l), rest)
  {
    var a := Supervise(l, true, 0);
    var b := Supervise(a, true, 0);
    Then(b, true, 0, rest);
    Then(a, true, 0, [SuperMoves(true, 0)] + rest);
    Then(l, true, 0, [SuperMoves(true, 0)] + ([SuperMoves(true, 0)] + rest));
  }

  /** The next one published, on a new session. */
  function Published(l: Life, n: nat): Life
    requires l.cur.Some?
  {
    l.(closed := l.closed + {l.cur.value}, dialled := l.dialled + 1, cur := Some(l.dialled), mgrs := l.mgrs + 1, super := Restarting(n))
  }

  function Redial(n: nat, rest: seq<Move>): seq<Move> {
    var m := [SuperMoves(true, n)];
    m + (m + (m + (m + (m + (m + rest)))))
  }

  lemma Redials(l: Life, n: nat, rest: seq<Move>)
    requires l.super.Joining? && l.workers == map[] && l.mgrs > 0 && l.cur.Some? && !l.cancelled
    ensures From(l, Redial(n, rest)) == From(Published(l, n), rest)
  {
    hide From;
    var m := [SuperMoves(true, n)];
    var a := l.(super := Dropping);
    var b := l.(closed := l.closed + {l.cur.value}, super := Redialing);
    var c := b.(super := Attempting);
    var d := b.(dialled := l.dialled + 1, super := Rebuilding(l.dialled));
    var e := d.(cur := Some(l.dialled), super := Republishing);
    Then(e, true, n, rest);
    Then(d, true, n, m + rest);
    Then(c, true, n, m + (m + rest));
    Then(b, true, n, m + (m + (m + rest)));
    Then(a, true, n, m + (m + (m + (m + rest))));
    Then(l, true, n, m + (m + (m + (m + (m + rest)))));
  }

  lemma RenewedBy(l: Life, workers: map<Worker, Stage>, next: nat, n: nat)
    requires Inv(l) && Known(l) && l.super.Waiting? && l.mgrs > 0 && l.cur.Some? && !l.cancelled
    requires |workers| == n && forall w :: w in workers ==> w.gen == l.mgrs && workers[w] == Running
    ensures Renewed(l, Published(Stopped(l).(workers := map[]), n).(super := Waiting, workers := workers, nextWorker := next), n)
  {}

  lemma DeathHasCause(l: Life)
    requires Inv(l) && l.death
    ensures l.mgrs > 0 && l.cur.Some? && forall w :: w in l.workers ==> w.gen == l.mgrs - 1
  {}

  lemma NotYetShut(l: Life)
    requires Known(l) && l.mgrs > 0
    ensures l.mgrs !in Stopped(l).shut
  {}

  /** From every state an interleaving can be in with a death reported and Close not called,
      a new generation of any size can be reached. */
  lemma Reconnects(auto: bool, moves: seq<Move>, l: Life, n: nat) returns (more: seq<Move>)
    requires Final(auto, moves) == Some(l) && l.super.Waiting? && l.death && !l.cancelled
    ensures Final(auto, moves + more).Some? && Renewed(l, Final(auto, moves + more).value, n)
  {
    hide Inv, Known, Renewed, From, Final;
    FinalKeeps(auto, moves);
    FinalKnown(auto, moves);
    DeathHasCause(l);
    NotYetShut(l);
    var q := Stopped(l);
    var drain := Drains(q);
    var idle := q.(workers := map[]);
    var start := Restarts(Published(idle, n), n);
    var r := From(Published(idle, n), start).value;
    Redials(idle, n, start);
    FromTwice(q, drain, Redial(n, start));
    Stops(l, drain + Redial(n, start));
    var m := [SuperMoves(true, 0)];
    more := m + (m + (m + (drain + Redial(n, start))));
    FinalFrom(auto, moves, more);
    RenewedBy(l, r.workers, r.nextWorker, n);
  }
}
