/** The integer burst estimate of trap.c under a constant burst length. */
module EmaProof {
  import opened Sched

  function Gap(e: int, b: int): nat {
    if e <= 100 * b then 100 * b - e else e - 100 * b
  }

  lemma TruncDivBounds(x: int, alpha: int)
    requires 1 <= alpha <= 90 && x >= 0
    ensures 0 <= alpha * x / 100 <= x
    ensures alpha * x >= 100 ==> alpha * x / 100 >= 1
    ensures alpha * x < 100 ==> alpha * x / 100 == 0
  {
    assert 0 <= alpha * x <= 90 * x by {
      assert (90 - alpha) * x >= 0;
    }
  }

  /** One update moves the estimate toward the burst, never past it, and stops when it is close. */
  lemma EmaStep(e: int, alpha: int, b: int)
    requires 1 <= alpha <= 90
    ensures var e' := Ema(e, alpha, b);
            && (e <= 100 * b ==> e <= e' <= 100 * b)
            && (e >= 100 * b ==> 100 * b <= e' <= e)
            && (alpha * Gap(e, b) >= 100 ==> Gap(e', b) < Gap(e, b))
            && (alpha * Gap(e, b) < 100 ==> e' == e)
  {
    var d := Gap(e, b);
    TruncDivBounds(d, alpha);
    if e > 100 * b {
      assert alpha * (b * 100 - e) == -(alpha * d);
    } else {
      assert alpha * (b * 100 - e) == alpha * d;
    }
  }

  /** The estimate after `n` quanta that all took `b` ticks. */
  function EmaRun(e: int, alpha: int, b: int, n: nat): int {
    if n == 0 then e else CapEma(Ema(EmaRun(e, alpha, b, n - 1), alpha, b))
  }

  /** The caps never bind, the gap never grows, and it shrinks by at least one while it is wide. */
  lemma {:induction false} EmaRunSteps(e: int, alpha: int, b: int, n: nat)
    requires 1 <= alpha <= 90 && 0 <= b <= 50 && 0 <= e <= MAX_EMA
    ensures 0 <= EmaRun(e, alpha, b, n) <= MAX_EMA
    ensures EmaRun(e, alpha, b, n + 1) == Ema(EmaRun(e, alpha, b, n), alpha, b)
    ensures Gap(EmaRun(e, alpha, b, n), b) <= Gap(e, b)
    ensures alpha * Gap(EmaRun(e, alpha, b, n), b) < 100 || n + Gap(EmaRun(e, alpha, b, n), b) <= Gap(e, b)
  {
    if n > 0 {
      EmaRunSteps(e, alpha, b, n - 1);
      EmaStep(EmaRun(e, alpha, b, n - 1), alpha, b);
    }
    EmaStep(EmaRun(e, alpha, b, n), alpha, b);
  }

  /**
    Under a constant burst the estimate approaches it from one side, without the caps ever
    taking part, and from update number Gap(e, b) on it stands still less than 100 / alpha away.
   */
  lemma EmaSettles(e: int, alpha: int, b: int, n: nat)
    requires 1 <= alpha <= 90 && 0 <= b <= 50 && 0 <= e <= MAX_EMA
    requires n >= Gap(e, b)
    ensures alpha * Gap(EmaRun(e, alpha, b, n), b) < 100
    ensures EmaRun(e, alpha, b, n + 1) == EmaRun(e, alpha, b, n)
  {
    EmaRunSteps(e, alpha, b, n);
    EmaStep(EmaRun(e, alpha, b, n), alpha, b);
  }
}
