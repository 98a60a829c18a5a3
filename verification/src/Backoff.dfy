/** Retransmission delays: the closed form the driver recomputes for each attempt and
    the doubling variable the handshake carries along. Durations are unbounded. */
module Backoff {

  function Min(a: int, b: int): int {
    if a < b then a else b
  }

  /** The wait after the nth transmission when each wait doubles the last up to cap. */
  function Delay(base: int, cap: int, n: nat): int
    requires n >= 1
  {
    if n == 1 then base else Min(2 * Delay(base, cap, n - 1), cap)
  }

  lemma {:induction false} DelayBounds(base: int, cap: int, n: nat)
    requires base > 0 && cap > 0 && n >= 1
    ensures 0 < Delay(base, cap, n) <= if base < cap then cap else base
    ensures n >= 2 ==> Delay(base, cap, n) <= cap
  {
    if n > 1 {
      DelayBounds(base, cap, n - 1);
    }
  }

  function Pow2(n: nat): nat {
    if n == 0 then 1 else 2 * Pow2(n - 1)
  }

  /** The closed form: base, then base * 2^(n-1) up to the cap. */
  lemma {:induction false} DelayIs(base: int, cap: int, n: nat)
    requires base > 0 && cap > 0 && n >= 1
    ensures Delay(base, cap, n) == if n == 1 || base * Pow2(n - 1) < cap then base * Pow2(n - 1) else cap
  {
    if n > 1 {
      DelayIs(base, cap, n - 1);
      Doubled(base, Pow2(n - 2));
    }
  }

  lemma Doubled(base: int, p: int)
    ensures base * (2 * p) == 2 * (base * p)
  {}

  /** Once at the cap, at the cap for ever. */
  lemma {:induction false} DelayStays(base: int, cap: int, k: nat, n: nat)
    requires base > 0 && cap > 0 && 1 <= k <= n && Delay(base, cap, k) == cap
    ensures Delay(base, cap, n) == cap
  {
    if k < n {
      DelayStays(base, cap, k, n - 1);
    }
  }

  /** retransBackoff, whose loop leaves early at the cap, computes the same delay. */
  method RetransBackoff(base: int, cap: int, attempt: int) returns (d: int)
    requires base > 0 && cap > 0
    ensures d == Delay(base, cap, if attempt < 1 then 1 else attempt)
    ensures 0 < d <= if base < cap then cap else base
  {
    DelayBounds(base, cap, if attempt < 1 then 1 else attempt);
    d := base;
    if attempt < 1 {
      return;
    }
    for i := 1 to attempt
      invariant d == Delay(base, cap, i)
    {
      d := d * 2;
      if d >= cap {
        assert Delay(base, cap, i + 1) == cap;
        DelayStays(base, cap, i + 1, attempt);
        return cap;
      }
    }
  }

  /** What exchange saw: how often it sent, how long it waited each time, whether an
      answer came. */
  datatype Outcome = Outcome(sends: nat, waits: seq<int>, answered: bool)

  /** exchange: sends until sending fails, an answer arrives in the wait after a
      transmission, the caller's context is found cancelled after a wait, or the tries are
      used up. */
  method Exchange(base: int, cap: int, tries: nat, sendOk: nat -> bool, answered: nat -> bool, cancelled: nat -> bool)
    returns (r: Outcome)
    requires base > 0 && cap > 0
    ensures r.sends <= tries
    ensures |r.waits| <= r.sends <= |r.waits| + 1
    ensures forall i :: 0 <= i < |r.waits| ==> r.waits[i] == Delay(base, cap, i + 1)
    ensures r.answered <==> r.waits != [] && r.sends == |r.waits| && sendOk(r.sends - 1) && answered(r.sends - 1)
    ensures forall i :: 0 <= i < |r.waits| - 1 ==> sendOk(i) && !answered(i) && !cancelled(i)
    ensures !r.answered ==> r.sends == tries || (r.sends > 0 && (!sendOk(r.sends - 1) || cancelled(r.sends - 1)))
  {
    var backoff := base;
    r := Outcome(0, [], false);
    while r.sends < tries
      invariant r.sends <= tries && !r.answered && |r.waits| == r.sends
      invariant backoff == Delay(base, cap, r.sends + 1)
      invariant forall i :: 0 <= i < |r.waits| ==>
                  r.waits[i] == Delay(base, cap, i + 1) && sendOk(i) && !answered(i) && !cancelled(i)
    {
      var attempt := r.sends;
      r := r.(sends := attempt + 1);
      if !sendOk(attempt) {
        return;
      }
      r := r.(waits := r.waits + [backoff]);
      if answered(attempt) {
        r := r.(answered := true);
        return;
      }
      if cancelled(attempt) {
        return;
      }
      backoff := Min(backoff * 2, cap);
    }
  }
}
