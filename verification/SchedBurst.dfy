/** How long a dispatched process runs, and what the end of its quantum does to it. */
module SchedBurst {
  import opened Sched
  import opened SchedProof

  /** How many of the first `n` steps are timer ticks of slot `k`. */
  ghost function TicksOf(ls: seq<Label>, n: nat, k: int): nat
    requires n <= |ls|
  {
    if n == 0 then 0 else TicksOf(ls, n - 1, k) + if ls[n - 1] == LTick(k) then 1 else 0
  }

  /** A step that gives slot `k` a new quantum: its dispatch, a boost while it runs, or its pinning. */
  ghost predicate Renews(s: State, l: Label, k: int) {
    l == LPass(k) || l == LPin(k) || (l.LPass? && BoostDue(s) && IsSlot(s, k) && s.procs[k].state.Running?)
  }

  /** Slot `k` does not leave the CPU of its own accord, and no step gives it another quantum. */
  ghost predicate LeftAlone(s: State, l: Label, k: int) {
    l != LSleep(k) && l != LExit(k) && l != LTrapExit(k) && l != LPin(k) && (l.LPass? ==> !BoostDue(s))
  }

  /** A run that starts with a new quantum for slot `k` and leaves it alone from then on. */
  ghost predicate Burst(ss: seq<State>, ls: seq<Label>, k: int) {
    && IsRun(ss, ls) && Inv(ss[0]) && |ls| > 0 && Renews(ss[0], ls[0], k) && 0 <= k < NPROC
    && forall i :: 1 <= i < |ls| ==> LeftAlone(ss[i], ls[i], k)
  }

  /** The quantum: that of the queue slot `k` is dispatched from, which a boost or pinning makes queue 0. */
  ghost function Due(s: State, l: Label, k: int): int
    requires IsSlot(s, k)
  {
    if !l.LPass? || BoostDue(s) || s.procs[k].queue == 0 then s.par.q0
    else if s.procs[k].queue == 1 then s.par.q1
    else s.par.q2
  }

  /** In one of the first `n` steps the trap ends in which `q` ticks have been used. */
  ghost predicate Over(ls: seq<Label>, n: nat, k: int, q: int)
    requires n <= |ls|
  {
    exists i :: 0 <= i < n && ls[i] == LTrapEnd(k) && TicksOf(ls, i, k) >= q
  }

  lemma AloneStep(s: State, l: Label, k: int)
    requires Inv(s) && Enabled(s, l) && LeftAlone(s, l, k) && IsSlot(s, k) && s.procs[k].state.Running?
    ensures IsSlot(Apply(s, l), k)
    ensures Apply(s, l).procs[k] == if l == LTick(k) then Ticked(s.procs[k], s.par, s.ticks)
                                    else if l == LTrapEnd(k) then TrapEnded(s.procs[k])
                                    else s.procs[k]
    ensures Apply(s, l).ticks >= s.ticks
  {
  }

  /** The step gives slot `k` that quantum. */
  lemma RenewGives(s: State, l: Label, k: int)
    requires Inv(s) && Enabled(s, l) && Renews(s, l, k) && IsSlot(s, k)
    ensures IsSlot(Apply(s, l), k)
    ensures var p, r := s.procs[k], Apply(s, l).procs[k];
            && r.state.Running? && r.remaining == Due(s, l, k) && (l == LPass(k) ==> r.burstStart == s.ticks)
            && r.queue == (if !l.LPass? || BoostDue(s) then 0 else p.queue)
            && r.emaFast == p.emaFast && r.emaSlow == p.emaSlow && r.pid == p.pid && r.preemptCount == p.preemptCount
    ensures Apply(s, l).ticks == s.ticks
  {
    assert ProcOk(s.procs[k]);
  }

  /** Process `p` is process `r` as dispatched, after `t` ticks on the CPU. */
  ghost predicate OnCpu(p: Proc, r: Proc, t: nat) {
    && p.state.Running? && p.remaining == r.remaining - t && t <= r.remaining
    && (t < r.remaining ==> p == r.(remaining := r.remaining - t, inTrap := p.inTrap))
    && (t == r.remaining ==> p.inTrap)
  }

  lemma OnCpuStep(s: State, l: Label, k: int, r: Proc, t: nat)
    requires Inv(s) && Enabled(s, l) && LeftAlone(s, l, k) && IsSlot(s, k) && OnCpu(s.procs[k], r, t)
    requires !(l == LTrapEnd(k) && t >= r.remaining)
    ensures IsSlot(Apply(s, l), k)
    ensures OnCpu(Apply(s, l).procs[k], r, if l == LTick(k) then t + 1 else t)
  {
    AloneStep(s, l, k);
    hide Apply, Inv;
  }

  lemma {:induction false} StaysOnCpu(ss: seq<State>, ls: seq<Label>, k: int, n: nat)
    requires Burst(ss, ls, k) && 1 <= n <= |ls| && !Over(ls, n, k, Due(ss[0], ls[0], k))
    ensures Inv(ss[n]) && IsSlot(ss[n], k) && IsSlot(ss[1], k) && ss[n].ticks >= ss[0].ticks
    ensures ss[1].procs[k].remaining == Due(ss[0], ls[0], k)
    ensures OnCpu(ss[n].procs[k], ss[1].procs[k], TicksOf(ls, n, k))
  {
    RunInv(ss, ls, n);
    assert Step(ss[n - 1], ls[n - 1], ss[n - 1 + 1]);
    if n == 1 {
      RenewGives(ss[0], ls[0], k);
      assert ParamsOk(ss[0].par);
      assert TicksOf(ls, 0, k) == 0;
    } else {
      StaysOnCpu(ss, ls, k, n - 1);
      hide Inv, Apply, Enabled;
      assert LeftAlone(ss[n - 1], ls[n - 1], k);
      OnCpuStep(ss[n - 1], ls[n - 1], k, ss[1].procs[k], TicksOf(ls, n - 1, k));
      AloneStep(ss[n - 1], ls[n - 1], k);
    }
  }

  /**
    A process dispatched from queue 0, 1 or 2 that does not give up the CPU runs for exactly
    q0, q1 or q2 of its timer ticks, and for q0 more from a boost or its pinning on: until the
    trap of the last of them ends it is RUNNING, and of all traps that end on the way exactly
    that one makes it RUNNABLE.
   */
  lemma RunsItsQuantum(ss: seq<State>, ls: seq<Label>, k: int, n: nat)
    requires Burst(ss, ls, k) && 1 <= n <= |ls| && !Over(ls, n, k, Due(ss[0], ls[0], k))
    ensures IsSlot(ss[n], k) && ss[n].procs[k].state.Running? && TicksOf(ls, n, k) <= Due(ss[0], ls[0], k)
    ensures n < |ls| && ls[n] == LTick(k) ==> TicksOf(ls, n, k) < Due(ss[0], ls[0], k)
    ensures n < |ls| && ls[n] == LTrapEnd(k) ==>
              && IsSlot(ss[n + 1], k)
              && (ss[n + 1].procs[k].state.Runnable? <==> TicksOf(ls, n, k) == Due(ss[0], ls[0], k))
  {
    StaysOnCpu(ss, ls, k, n);
    if n < |ls| {
      assert Step(ss[n], ls[n], ss[n + 1]);
      AloneStep(ss[n], ls[n], k);
    }
  }

  // ---------------------------------------------------------------------------
  // What the last tick does

  /**
    The estimate moves toward the length `b` of the burst, in hundredths of a tick, by alpha
    per cent of the way, rounded toward where it was, and not above the cap.
   */
  ghost predicate Moved(e: int, e': int, alpha: int, b: int) {
    if e <= 100 * b then
      && e <= e' <= 100 * b && e' <= MAX_EMA && 100 * (e' - e) <= alpha * (100 * b - e)
      && (e' < MAX_EMA ==> alpha * (100 * b - e) < 100 * (e' - e) + 100)
    else
      && 100 * b <= e' <= e && 100 * (e - e') <= alpha * (e - 100 * b) < 100 * (e - e') + 100
  }

  lemma PartOf(d: nat, alpha: int)
    requires 1 <= alpha <= 90
    ensures 0 <= alpha * d <= 90 * d
  {
    assert (90 - alpha) * d >= 0;
  }

  lemma EmaUp(e: int, alpha: int, b: int)
    requires 1 <= alpha <= 90 && e <= 100 * b
    ensures Ema(e, alpha, b) == e + alpha * (100 * b - e) / 100
  {
    PartOf(100 * b - e, alpha);
    assert b * 100 - e == 100 * b - e;
  }

  lemma EmaDown(e: int, alpha: int, b: int)
    requires 1 <= alpha <= 90 && e > 100 * b
    ensures Ema(e, alpha, b) == e - alpha * (e - 100 * b) / 100
  {
    PartOf(e - 100 * b, alpha);
    assert alpha * (b * 100 - e) == -(alpha * (e - 100 * b));
  }

  lemma MovedIs(e: int, alpha: int, b: int)
    requires 1 <= alpha <= 90 && b >= 0 && 0 <= e <= MAX_EMA
    ensures Moved(e, CapEma(Ema(e, alpha, b)), alpha, b)
  {
    hide Ema;
    if e <= 100 * b {
      EmaUp(e, alpha, b);
      PartOf(100 * b - e, alpha);
      var x := alpha * (100 * b - e);
      assert 100 * (x / 100) <= x < 100 * (x / 100) + 100;
    } else {
      EmaDown(e, alpha, b);
      PartOf(e - 100 * b, alpha);
      var x := alpha * (e - 100 * b);
      assert 100 * (x / 100) <= x < 100 * (x / 100) + 100;
    }
  }

  /** These bounds leave one value only. */
  lemma MovedOnce(e: int, x: int, y: int, alpha: int, b: int)
    requires 0 <= e <= MAX_EMA && Moved(e, x, alpha, b) && Moved(e, y, alpha, b)
    ensures x == y
  {
  }

  /** What the last tick of a burst of `b` ticks makes of process `p`, dispatched from queue `q`. */
  ghost predicate Preempted(p: Proc, q: int, r: Proc, par: Params, b: int) {
    && Moved(p.emaFast, r.emaFast, par.alphaFast, b) && Moved(p.emaSlow, r.emaSlow, par.alphaSlow, b)
    && r.variance >= 0 && (r.variance == r.emaFast - r.emaSlow || r.variance == r.emaSlow - r.emaFast)
    && r.preemptCount == p.preemptCount + 1
    && r.queue == if q == 2 || (par.agentPid != 0 && p.pid == par.agentPid) then q else q + 1
  }

  lemma LastTick(p: Proc, par: Params, ticks: int)
    requires ProcOk(p) && ParamsOk(par) && p.remaining == 1 && ticks >= p.burstStart
    ensures Preempted(p, p.queue, Ticked(p, par, ticks), par, ticks - p.burstStart)
  {
    hide Ema, CapEma, Moved;
    MovedIs(p.emaFast, par.alphaFast, ticks - p.burstStart);
    MovedIs(p.emaSlow, par.alphaSlow, ticks - p.burstStart);
  }

  lemma SlotOk(s: State, k: int)
    requires Inv(s) && 0 <= k < NPROC
    ensures IsSlot(s, k) && ProcOk(s.procs[k]) && ParamsOk(s.par)
  {
  }

  /**
    The last tick of the quantum moves the fast estimate by the fast alpha and the slow one by
    the slow alpha toward the time since the dispatch, takes the distance of the two for the
    variance, and puts the process one queue down, unless it is in the last or the agent.
   */
  lemma QuantumEnds(ss: seq<State>, ls: seq<Label>, k: int, n: nat)
    requires Burst(ss, ls, k) && 1 <= n < |ls| && !Over(ls, n, k, Due(ss[0], ls[0], k))
    requires ls[0] == LPass(k) && ls[n] == LTick(k) && TicksOf(ls, n, k) == Due(ss[0], ls[0], k) - 1
    ensures IsSlot(ss[0], k) && IsSlot(ss[n + 1], k)
    ensures var p, r := ss[0].procs[k], ss[n + 1].procs[k];
            Preempted(p, if BoostDue(ss[0]) then 0 else p.queue, r, ss[n].par, ss[n].ticks - ss[0].ticks)
  {
    hide Inv, Apply, Enabled, Moved, Ticked, ProcOk, ParamsOk, BoostDue;
    StaysOnCpu(ss, ls, k, n);
    assert Step(ss[0], ls[0], ss[0 + 1]) && Step(ss[n], ls[n], ss[n + 1]);
    SlotOk(ss[0], k);
    RenewGives(ss[0], ls[0], k);
    AloneStep(ss[n], ls[n], k);
    SlotOk(ss[n], k);
    LastTick(ss[n].procs[k], ss[n].par, ss[n].ticks);
  }

  /** The ticks before it leave the process as dispatched, but for the rest of its quantum. */
  lemma UntilThen(ss: seq<State>, ls: seq<Label>, k: int, n: nat)
    requires Burst(ss, ls, k) && 1 <= n <= |ls| && TicksOf(ls, n, k) < Due(ss[0], ls[0], k)
    ensures IsSlot(ss[n], k) && IsSlot(ss[1], k)
    ensures ss[n].procs[k] == ss[1].procs[k].(remaining := ss[n].procs[k].remaining, inTrap := ss[n].procs[k].inTrap)
  {
    forall i | 0 <= i < n
      ensures TicksOf(ls, i, k) <= TicksOf(ls, n, k)
    {
      TicksGrow(ls, i, n, k);
    }
    StaysOnCpu(ss, ls, k, n);
  }

  lemma {:induction false} TicksGrow(ls: seq<Label>, i: nat, n: nat, k: int)
    requires i <= n <= |ls|
    ensures TicksOf(ls, i, k) <= TicksOf(ls, n, k)
  {
    if i < n {
      TicksGrow(ls, i, n - 1, k);
    }
  }
}
