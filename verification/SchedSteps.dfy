/** What each step can do to a process, to the starvation alert and to the parameters. */
module SchedSteps {
  import opened Sched
  import opened SchedProof

  /** The step uses up the quantum of slot `k`. */
  ghost predicate LastTick(s: State, l: Label, k: int)
    requires IsSlot(s, k)
  {
    l == LTick(k) && s.procs[k].remaining <= 1
  }

  ghost predicate Boosts(s: State, l: Label) {
    l.LPass? && BoostDue(s)
  }

  /**
    A process changes its queue only when it has used up a quantum, one down; by a boost,
    by pinning and at its birth, to queue 0. Sleeping and waking leave it where it was.
   */
  lemma QueueMoves(s: State, l: Label, k: int)
    requires Inv(s) && Enabled(s, l) && IsSlot(s, k)
    ensures IsSlot(Apply(s, l), k)
    ensures var q, q' := s.procs[k].queue, Apply(s, l).procs[k].queue;
            || q' == q
            || (q' == q + 1 && LastTick(s, l, k))
            || (q' == 0 && (Boosts(s, l) || l == LPin(k) || l == LAlloc(k)))
    ensures Boosts(s, l) && !s.procs[k].state.Unused? ==> Apply(s, l).procs[k].queue == 0
  {
  }

  /** The burst estimates change only then and at its birth, when they are one tick. */
  lemma EstimatesMove(s: State, l: Label, k: int)
    requires Inv(s) && Enabled(s, l) && IsSlot(s, k)
    ensures IsSlot(Apply(s, l), k)
    ensures var p, r := s.procs[k], Apply(s, l).procs[k];
            && (r.emaFast != p.emaFast || r.emaSlow != p.emaSlow ==> LastTick(s, l, k) || l == LAlloc(k))
            && (l == LAlloc(k) ==> r.emaFast == r.emaSlow == 100)
  {
  }

  /** A process leaves the CPU only by sleeping, exiting or the end of a trap with its quantum used up. */
  lemma StateMoves(s: State, l: Label, k: int)
    requires Inv(s) && Enabled(s, l) && IsSlot(s, k)
    ensures IsSlot(Apply(s, l), k)
    ensures var p, r := s.procs[k], Apply(s, l).procs[k];
            && (r.state.Running? && !p.state.Running? ==> l == LPass(k) && p.state.Runnable?)
            && (p.state.Running? && r.state.Runnable? ==> l == LTrapEnd(k) && p.remaining <= 0)
            && (p.state.Running? && !r.state.Running? && !r.state.Runnable? ==> l == LSleep(k) || l == LExit(k))
            && (r.state.Runnable? && !p.state.Runnable? && !p.state.Running? ==> l == LWake(k) || l == LStart(k))
            && (p.state.Runnable? && !r.state.Runnable? ==> r.state.Running?)
  {
  }

  /** Preemptions are quanta used up, yields are the times it then left the CPU; both begin at 0. */
  lemma CountersMove(s: State, l: Label, k: int)
    requires Inv(s) && Enabled(s, l) && IsSlot(s, k)
    ensures IsSlot(Apply(s, l), k)
    ensures var p, r := s.procs[k], Apply(s, l).procs[k];
            if l == LAlloc(k) then r.yieldCount == r.preemptCount == 0
            else
              && r.preemptCount == p.preemptCount + (if LastTick(s, l, k) then 1 else 0)
              && r.yieldCount == p.yieldCount + if p.state.Running? && r.state.Runnable? then 1 else 0
  {
  }

  /** A pid is given at birth, is one no process ever had, and stays until the process is reaped. */
  lemma PidsMove(s: State, l: Label, k: int)
    requires Inv(s) && Enabled(s, l) && IsSlot(s, k)
    ensures IsSlot(Apply(s, l), k) && Apply(s, l).nextPid == s.nextPid + if l.LAlloc? then 1 else 0
    ensures Apply(s, l).procs[k].pid ==
            if l == LAlloc(k) then s.nextPid else if l == LReap(k) then 0 else s.procs[k].pid
  {
  }

  /** The agent's place is taken by registering, given up by its exit, and by nothing else; only pinning pins. */
  lemma AgentMoves(s: State, l: Label)
    requires Inv(s) && Enabled(s, l)
    ensures Apply(s, l).par.agentPid ==
            (match l
             case LRegister(i) => s.procs[i].pid
             case LExit(i) => if s.procs[i].pid == s.par.agentPid then 0 else s.par.agentPid
             case _ => s.par.agentPid)
    ensures Apply(s, l).pinned == (l.LPin? || (s.pinned && Apply(s, l).par.agentPid == s.par.agentPid))
  {
  }

  // ---------------------------------------------------------------------------
  // Waiting times and the alert

  lemma WaitStep(s: State, l: Label, p: int)
    requires Inv(s) && Enabled(s, l) && IsSlot(s, p) && s.procs[p].state.Runnable?
    requires l.LPass? ==> l.k != p && !BoostDue(s)
    ensures IsSlot(Apply(s, l), p) && Apply(s, l).procs[p].state.Runnable?
    ensures Apply(s, l).procs[p].wait == s.procs[p].wait + if l.LPass? then 1 else 0
  {
  }

  /** In every mode, a RUNNABLE process that is not dispatched has waited as many passes as there were since a boost. */
  lemma {:induction false} WaitCounts(ss: seq<State>, ls: seq<Label>, p: int, n: nat)
    requires IsRun(ss, ls) && Inv(ss[0]) && n <= |ls| && IsSlot(ss[0], p) && ss[0].procs[p].state.Runnable?
    requires forall i :: 0 <= i < n && ls[i].LPass? ==> ls[i].k != p && !BoostDue(ss[i])
    ensures IsSlot(ss[n], p) && ss[n].procs[p].state.Runnable?
    ensures ss[n].procs[p].wait == ss[0].procs[p].wait + Passes(ls, n)
  {
    if n > 0 {
      WaitCounts(ss, ls, p, n - 1);
      RunInv(ss, ls, n - 1);
      assert Step(ss[n - 1], ls[n - 1], ss[n - 1 + 1]);
      hide Inv, Apply, Enabled;
      WaitStep(ss[n - 1], ls[n - 1], p);
    }
  }

  ghost predicate WaitedHundred(s: State, p: int) {
    IsSlot(s, p) && s.procs[p].state.Runnable? && s.procs[p].wait >= 100
  }

  /** A pass raises the alert exactly if some process has then waited for more than a hundred passes. */
  lemma AlertIff(s: State, k: int)
    requires Inv(s) && Enabled(s, LPass(k)) && s.par.alert == 0
    ensures Pass(s, k).par.alert == if !BoostDue(s) && exists p :: WaitedHundred(s, p) then 1 else 0
  {
    var ps := Prepared(s);
    assert forall p :: 0 <= p < |ps| ==> (ps[p].state.Runnable? <==> s.procs[p].state.Runnable?);
    if !BoostDue(s) {
      forall p | WaitedHundred(s, p)
        ensures Starving(ps)
      {
        assert ps[p].state.Runnable? && ps[p].wait > 100;
      }
      if Starving(ps) {
        var p :| 0 <= p < |ps| && ps[p].state.Runnable? && ps[p].wait > 100;
        assert WaitedHundred(s, p);
      }
    }
  }

  /** So a process that waits through a hundred passes and one more without a boost raises it. */
  lemma WaitingAlerts(ss: seq<State>, ls: seq<Label>, p: int, n: nat)
    requires IsRun(ss, ls) && Inv(ss[0]) && n < |ls| && IsSlot(ss[0], p) && ss[0].procs[p].state.Runnable?
    requires forall i :: 0 <= i <= n && ls[i].LPass? ==> ls[i].k != p && !BoostDue(ss[i])
    requires Passes(ls, n) >= 100 && ls[n].LPass?
    ensures ss[n + 1].par.alert != 0
  {
    WaitCounts(ss, ls, p, n);
    RunInv(ss, ls, n);
    assert Step(ss[n], ls[n], ss[n + 1]) && ProcOk(ss[0].procs[p]);
    assert WaitedHundred(ss[n], p);
    if ss[n].par.alert == 0 {
      AlertIff(ss[n], ls[n].k);
    }
  }

  // ---------------------------------------------------------------------------
  // Parameters

  /** What the agent sends is in force, field by field, and the alert is taken back. */
  lemma ParamsReadBack(s: State, i: int, u: Update)
    requires Inv(s) && Enabled(s, LSetParams(i, u))
    ensures var par := Apply(s, LSetParams(i, u)).par;
            && Update(par.q0, par.q1, par.q2, par.boost, par.alphaFast, par.alphaSlow, par.aging, par.rr) == u
            && par.agentPid == s.par.agentPid && par.alert == 0
  {
  }

  /** No other step changes them, but for the alert and the agent's place. */
  lemma ParamsStay(s: State, l: Label)
    requires Inv(s) && Enabled(s, l) && !l.LSetParams?
    ensures Apply(s, l).par == s.par.(agentPid := Apply(s, l).par.agentPid, alert := Apply(s, l).par.alert)
    ensures !l.LPass? ==> Apply(s, l).par.alert == s.par.alert
    ensures !l.LRegister? && !l.LExit? ==> Apply(s, l).par.agentPid == s.par.agentPid
  {
  }
}
