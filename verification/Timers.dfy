/** Timer values of lib/oversip/sip/timers.rb, in milliseconds, and armed timers. */
module Timers {
  import opened Wrappers

  const T1: nat := 500
  const T2: nat := 4000
  const T4: nat := 5000
  const TIMER_A: nat := T1
  const TIMER_B: nat := 64 * T1
  const TIMER_C: nat := 180000
  const TIMER_C2: nat := TIMER_C + 2000
  const TIMER_D_UDP: nat := 32000
  const TIMER_E: nat := T1
  const TIMER_F: nat := 64 * T1
  const TIMER_G: nat := T1
  const TIMER_H: nat := 64 * T1
  const TIMER_I_UDP: nat := T4
  const TIMER_J_UDP: nat := 64 * T1
  const TIMER_K_UDP: nat := T4
  const TIMER_L: nat := 64 * T1
  const TIMER_M: nat := 64 * T1
  const INT1: nat := T2 + 1000
  const INT2: nat := TIMER_F - INT1

  /** A periodic timer: when it fires next, and its current interval. */
  datatype Periodic = Periodic(due: nat, interval: nat)

  function Min(a: nat, b: nat): nat { if a <= b then a else b }

  function Doubled(p: Periodic): Periodic {
    var n := Min(2 * p.interval, T2);
    Periodic(p.due + n, n)
  }

  /** The reactor never lets an armed timer wait: the clock cannot pass its due time before it fires. */
  predicate NotLate(timer: Option<nat>, now: nat) { timer.Some? ==> now <= timer.value }

  predicate NotLateP(timer: Option<Periodic>, now: nat) { timer.Some? ==> now <= timer.value.due }

  predicate ArmedBy(timer: Option<nat>, bound: nat) { timer.Some? && timer.value <= bound }

  // ---- Retransmissions ----

  /** T1, doubled up to T2. */
  function Interval(n: nat): (i: nat)
    ensures T1 <= i <= T2
  {
    if n == 0 then T1 else Min(2 * Interval(n - 1), T2)
  }

  /** When the retransmission after n others is due, counted from the start of the timer. */
  function Offset(n: nat): nat {
    if n == 0 then T1 else Offset(n - 1) + Interval(n)
  }

  lemma OffsetsGrow(n: nat, m: nat)
    requires n <= m
    ensures Offset(n) <= Offset(m)
    decreases m
  {
    if n < m { OffsetsGrow(n, m - 1); }
  }

  lemma Offsets()
    ensures Offset(0) == 500 && Offset(1) == 1500 && Offset(2) == 3500 && Offset(3) == 7500 && Offset(4) == 11500
    ensures Offset(10) == 35500
  {
    assert Interval(0) == 500 && Interval(1) == 1000 && Interval(2) == 2000 && Interval(3) == 4000;
    forall n: nat | 3 <= n <= 10 ensures Interval(n) == 4000 { IntervalCapped(n); }
    assert Offset(3) == 7500;
    assert Offset(4) == 11500 && Offset(5) == 15500 && Offset(6) == 19500;
    assert Offset(7) == 23500 && Offset(8) == 27500 && Offset(9) == 31500;
  }

  lemma {:induction false} IntervalCapped(n: nat)
    requires n >= 3
    ensures Interval(n) == T2
    decreases n
  {
    if n == 3 {
      assert Interval(0) == 500 && Interval(1) == 1000 && Interval(2) == 2000;
    } else {
      IntervalCapped(n - 1);
    }
  }
}
