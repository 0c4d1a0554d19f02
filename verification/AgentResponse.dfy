/**
  How the agent's parameters respond to its signals over any sequence of epochs, read off
  the signals alone and not off the counters the agent keeps.
 */
module AgentResponse {
  import opened Agent

  function Abs(x: int): int {
    if x < 0 then -x else x
  }

  /** Clamp gives the nearest value in the range. */
  lemma ClampNearest(v: int, lo: int, hi: int, x: int)
    requires lo <= x <= hi
    ensures lo <= Clamp(v, lo, hi) <= hi && Abs(Clamp(v, lo, hi) - v) <= Abs(x - v)
  {
  }

  // ---------------------------------------------------------------------------
  // When each rule fires

  predicate Overloaded(s: Signals) {
    s.pressure > 40
  }

  predicate Starving(s: Signals) {
    s.avgWait > 10
  }

  predicate IoBound(s: Signals) {
    s.workload > 70
  }

  predicate CpuBound(s: Signals) {
    s.workload < 30
  }

  predicate Abused(s: Signals) {
    s.abuse
  }

  /** The signal was there in epoch `n` and in the one before. */
  predicate Twice(p: Signals -> bool, sig: nat -> Signals, n: nat) {
    n > 0 && p(sig(n)) && p(sig(n - 1))
  }

  /** Two epochs in a row are what the counters of rules 2, 3 and 6 wait for; rules 1 and 4 do not wait. */
  lemma {:induction false} CountersTell(sig: nat -> Signals, n: nat)
    ensures var k := At(sig, n + 1);
            && (k.c1 >= 1 <==> Overloaded(sig(n))) && (k.c4 >= 1 <==> Starving(sig(n)))
            && (k.c2 >= 2 <==> Twice(IoBound, sig, n)) && (k.c2 >= 1 <==> IoBound(sig(n)))
            && (k.c3 >= 2 <==> Twice(CpuBound, sig, n)) && (k.c3 >= 1 <==> CpuBound(sig(n)))
            && (k.c6 >= 2 <==> Twice(Abused, sig, n)) && (k.c6 >= 1 <==> Abused(sig(n)))
  {
    assert At(sig, n + 1) == Decide(At(sig, n), sig(n));
    if n > 0 {
      CountersTell(sig, n - 1);
    } else {
      assert At(sig, 0) == START;
    }
  }

  /** In how many of the first `n` epochs each rule that only lowers a parameter fired. */
  ghost function Fires(p: Signals -> bool, sig: nat -> Signals, n: nat): nat {
    if n == 0 then 0 else Fires(p, sig, n - 1) + if p(sig(n - 1)) then 1 else 0
  }

  ghost function FiresTwice(p: Signals -> bool, sig: nat -> Signals, n: nat): nat {
    if n == 0 then 0 else FiresTwice(p, sig, n - 1) + if Twice(p, sig, n - 1) then 1 else 0
  }

  function AtLeast(x: int, lo: int): int {
    if x < lo then lo else x
  }

  function AtMost(x: int, hi: int): int {
    if x > hi then hi else x
  }

  lemma BoostStep(k: Knobs, s: Signals)
    requires KnobsOk(k)
    ensures Decide(k, s).boost ==
            AtLeast(k.boost - (if Overloaded(s) then 20 else 0) - (if Starving(s) then 10 else 0), 10)
  {
  }

  /**
    After any epochs the boost interval is 500, less 20 for each with queue pressure above 40
    and less 10 for each with an average wait above 10, but at least 10.
   */
  lemma {:induction false} BoostIs(sig: nat -> Signals, n: nat)
    ensures At(sig, n).boost == AtLeast(500 - 20 * Fires(Overloaded, sig, n) - 10 * Fires(Starving, sig, n), 10)
  {
    hide Decide;
    if n > 0 {
      BoostIs(sig, n - 1);
      BoostStep(At(sig, n - 1), sig(n - 1));
    }
  }

  lemma AgingStep(sig: nat -> Signals, n: nat)
    ensures At(sig, n + 1).aging == if Twice(Abused, sig, n) then AtLeast(At(sig, n).aging - 3, 1) else At(sig, n).aging
  {
    CountersTell(sig, n);
    assert At(sig, n + 1) == Decide(At(sig, n), sig(n));
  }

  /** The aging factor is 50, less 3 for each epoch with abuse in it and in the one before, but at least 1. */
  lemma {:induction false} AgingIs(sig: nat -> Signals, n: nat)
    ensures At(sig, n).aging == AtLeast(50 - 3 * FiresTwice(Abused, sig, n), 1)
  {
    hide Decide, Twice;
    if n > 0 {
      AgingIs(sig, n - 1);
      AgingStep(sig, n - 1);
      hide At;
    }
  }

  /** The fast alpha goes up by 10 to at most 90 in an epoch with a phase change, else down by 5 to at least 11. */
  lemma AlphaStep(sig: nat -> Signals, n: nat)
    ensures At(sig, n + 1).af ==
            if sig(n).phaseChange then AtMost(At(sig, n).af + 10, 90) else AtLeast(At(sig, n).af - 5, 11)
    ensures At(sig, n).as_ == 10
  {
    assert At(sig, n + 1) == Decide(At(sig, n), sig(n));
  }

  /** Phase changes for `n` epochs bring it up. */
  lemma {:induction false} AlphaRises(sig: nat -> Signals, m: nat, n: nat)
    requires forall i :: m <= i < m + n ==> sig(i).phaseChange
    ensures At(sig, m + n).af == AtMost(At(sig, m).af + 10 * n, 90)
  {
    hide Decide, At;
    if n > 0 {
      AlphaRises(sig, m, n - 1);
      AlphaStep(sig, m + n - 1);
    }
  }

  /** And `n` epochs without bring it down. */
  lemma {:induction false} AlphaDecays(sig: nat -> Signals, m: nat, n: nat)
    requires forall i :: m <= i < m + n ==> !sig(i).phaseChange
    ensures At(sig, m + n).af == AtLeast(At(sig, m).af - 5 * n, 11)
  {
    hide Decide, At;
    if n > 0 {
      AlphaDecays(sig, m, n - 1);
      AlphaStep(sig, m + n - 1);
    }
  }

  /** The quantum of queue 0 after one epoch: rules 1, 2 and 3 in turn, each one tick, and never out of 1 to 10. */
  lemma QuantumStep(sig: nat -> Signals, n: nat)
    ensures var q := At(sig, n).q0;
            var a := if Overloaded(sig(n)) then AtLeast(q - 1, 1) else q;
            var b := if Twice(IoBound, sig, n) then AtMost(a + 1, 10) else a;
            At(sig, n + 1).q0 == if Twice(CpuBound, sig, n) then AtLeast(b - 1, 1) else b
  {
    CountersTell(sig, n);
    assert At(sig, n + 1) == Decide(At(sig, n), sig(n));
  }

  /** Without queue pressure, `n` epochs of processes that compute bring it down by one each, but for the first. */
  lemma {:induction false} QuantumShrinks(sig: nat -> Signals, m: nat, n: nat)
    requires n > 0 && forall i :: m <= i < m + n ==> !Overloaded(sig(i)) && CpuBound(sig(i))
    ensures At(sig, m + n).q0 == AtLeast(At(sig, m).q0 - n + (if m > 0 && CpuBound(sig(m - 1)) then 0 else 1), 1)
  {
    hide Decide, At;
    assert !Overloaded(sig(m + n - 1)) && CpuBound(sig(m + n - 1));
    QuantumStep(sig, m + n - 1);
    if n > 1 {
      assert CpuBound(sig(m + n - 2));
      QuantumShrinks(sig, m, n - 1);
    }
  }

  /** And `n` epochs of processes that wait for input bring it up in the same way, to at most 10. */
  lemma {:induction false} QuantumGrows(sig: nat -> Signals, m: nat, n: nat)
    requires n > 0 && forall i :: m <= i < m + n ==> !Overloaded(sig(i)) && IoBound(sig(i))
    ensures At(sig, m + n).q0 == AtMost(At(sig, m).q0 + n - (if m > 0 && IoBound(sig(m - 1)) then 0 else 1), 10)
  {
    hide Decide, At;
    assert !Overloaded(sig(m + n - 1)) && IoBound(sig(m + n - 1));
    QuantumStep(sig, m + n - 1);
    if n > 1 {
      assert IoBound(sig(m + n - 2));
      QuantumGrows(sig, m, n - 1);
    }
  }

  /** The other two quanta rise with it, and no further. */
  lemma LowerQuanta(sig: nat -> Signals, n: nat)
    ensures At(sig, n + 1).q1 == AtLeast(At(sig, n).q1, At(sig, n + 1).q0)
    ensures At(sig, n + 1).q2 == AtLeast(At(sig, n).q2, At(sig, n + 1).q1)
  {
    assert At(sig, n + 1) == Decide(At(sig, n), sig(n));
  }

  /** The mask tells which rules fired. */
  lemma FiredTells(sig: nat -> Signals, n: nat)
    ensures FiredMask(At(sig, n + 1), sig(n)) ==
            Bit(Overloaded(sig(n)), 1) + Bit(Twice(IoBound, sig, n), 2) + Bit(Twice(CpuBound, sig, n), 4)
            + Bit(Starving(sig(n)), 8) + Bit(sig(n).phaseChange, 16) + Bit(Twice(Abused, sig, n), 32)
  {
    hide At, Decide;
    CountersTell(sig, n);
  }

  /** The workload signal is the whole percentage of yields among the switches, and 50 without any. */
  lemma WorkloadIs(st: seq<Stat>)
    requires CountsOk(st)
    ensures var y, t, w := SumYields(st), SumYields(st) + SumPreempts(st), WorkloadType(st);
            if t == 0 then w == 50 else w * t <= 100 * y < (w + 1) * t
  {
    SumsNonNegative(st);
    var y, t := SumYields(st), SumYields(st) + SumPreempts(st);
    if t > 0 {
      var w := y * 100 / t;
      assert y * 100 == t * w + y * 100 % t;
    }
  }
}
