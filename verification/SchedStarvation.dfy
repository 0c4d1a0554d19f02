/**
  Without the boost-free hypothesis there is no bound on waiting: a boost zeroes every wait
  counter, so if boosts come before aging makes up for a difference in burst estimates,
  they let one process win every pass. With the parameters of pinit they do.
 */
module SchedStarvation {
  import opened Sched
  import opened SchedProof

  // ---------------------------------------------------------------------------
  // Building runs

  /** A run can be extended by an enabled step. */
  lemma Snoc(ss: seq<State>, ls: seq<Label>, l: Label) returns (ss': seq<State>, ls': seq<Label>)
    requires IsRun(ss, ls) && ss[|ls|].par.aging > 0 && Enabled(ss[|ls|], l)
    ensures IsRun(ss', ls') && ss' == ss + [Apply(ss[|ls|], l)] && ls' == ls + [l]
  {
    hide Picks, Pass, Ticked, TrapEnded;
    ss', ls' := ss + [Apply(ss[|ls|], l)], ls + [l];
    forall i | 0 <= i < |ls'|
      ensures Step(ss'[i], ls'[i], ss'[i + 1])
    {
      if i < |ls| {
        assert Step(ss[i], ls[i], ss[i + 1]);
      }
    }
  }

  /** Runs that meet can be joined. */
  lemma RunConcat(xs: seq<State>, ls: seq<Label>, ys: seq<State>, ms: seq<Label>)
    requires IsRun(xs, ls) && IsRun(ys, ms) && xs[|ls|] == ys[0]
    ensures IsRun(xs[..|ls|] + ys, ls + ms)
  {
    hide Step;
    var zs, ns := xs[..|ls|] + ys, ls + ms;
    forall i | 0 <= i < |ns|
      ensures Step(zs[i], ns[i], zs[i + 1])
    {
      if i < |ls| {
        assert ns[i] == ls[i] && zs[i] == xs[i] && zs[i + 1] == xs[i + 1];
      } else {
        assert ns[i] == ms[i - |ls|] && zs[i] == ys[i - |ls|] && zs[i + 1] == ys[i - |ls| + 1];
      }
    }
  }

  lemma {:induction false} PassesPrefix(xs: seq<Label>, ys: seq<Label>, n: nat)
    requires n <= |xs|
    ensures Passes(xs + ys, n) == Passes(xs, n)
  {
    if n > 0 {
      PassesPrefix(xs, ys, n - 1);
    }
  }

  lemma {:induction false} PassesConcat(xs: seq<Label>, ys: seq<Label>, n: nat)
    requires n <= |ys|
    ensures Passes(xs + ys, |xs| + n) == Passes(xs, |xs|) + Passes(ys, n)
  {
    if n > 0 {
      PassesConcat(xs, ys, n - 1);
    } else {
      PassesPrefix(xs, ys, |xs|);
    }
  }

  predicate SamePar(x: Params, y: Params) {
    x.(alert := y.alert) == y
  }

  /** In all of an MLFQ run with `n` passes slot `p` is RUNNABLE, and every pass dispatches slot `r`. */
  ghost predicate Starves(ss: seq<State>, ls: seq<Label>, r: int, p: int, n: nat) {
    && IsRun(ss, ls) && Passes(ls, |ls|) == n
    && (forall i :: 0 <= i < |ss| ==> Waits(ss[i], p) && SamePar(ss[0].par, ss[i].par))
    && (forall i :: 0 <= i < |ls| && ls[i].LPass? ==> ls[i].k == r)
  }

  ghost predicate Waits(s: State, p: int) {
    IsSlot(s, p) && s.procs[p].state.Runnable? && s.par.rr == 0 && s.par.aging > 0
  }

  lemma StarveOn(ss: seq<State>, ls: seq<Label>, r: int, p: int, n: nat, l: Label)
    returns (ss': seq<State>, ls': seq<Label>)
    requires Starves(ss, ls, r, p, n) && Enabled(ss[|ls|], l) && (l.LPass? ==> l.k == r)
    requires Waits(Apply(ss[|ls|], l), p) && SamePar(ss[|ls|].par, Apply(ss[|ls|], l).par)
    ensures Starves(ss', ls', r, p, if l.LPass? then n + 1 else n)
    ensures ss'[0] == ss[0] && ss'[|ls'|] == Apply(ss[|ls|], l)
  {
    assert ss[|ls|].par.aging > 0;
    hide Picks, Pass, Ticked, TrapEnded, Waits, Step;
    ss', ls' := Snoc(ss, ls, l);
    PassesPrefix(ls, [l], |ls|);
  }

  // ---------------------------------------------------------------------------
  // Two processes

  /** Slots `r` and `p` are RUNNABLE, `r` in queue 0, and no other slot is. */
  ghost predicate Duel(s: State, r: int, p: int) {
    && |s.procs| == NPROC && IsSlot(s, r) && Waits(s, p) && r != p
    && s.procs[r].state.Runnable? && s.procs[r].queue == 0 && !s.procs[r].inTrap
    && 0 <= s.procs[p].queue <= 2
    && forall i :: 0 <= i < NPROC && i != r && i != p ==> !s.procs[i].state.Runnable?
  }

  /** In one queue, and with these waits, slot `r` goes before slot `p`. */
  ghost predicate Leads(s: State, r: int, p: int, wr: int, wp: int)
    requires IsSlot(s, r) && IsSlot(s, p) && s.par.aging > 0
  {
    var x := s.procs[r].emaFast / 100 - wr / s.par.aging;
    var y := s.procs[p].emaFast / 100 - wp / s.par.aging;
    x < y || (x == y && r < p)
  }

  lemma PassIff(s: State, r: int, p: int)
    requires Duel(s, r, p)
    ensures BoostDue(s) ==> (Enabled(s, LPass(r)) <==> Leads(s, r, p, 1, 1))
    ensures !BoostDue(s) ==>
              (Enabled(s, LPass(r)) <==>
               s.procs[p].queue > 0 || Leads(s, r, p, s.procs[r].wait + 1, s.procs[p].wait + 1))
  {
    var ps := Prepared(s);
    assert Candidate(ps[r]) && Candidate(ps[p]);
    assert forall i :: 0 <= i < NPROC && i != r && i != p ==> !Candidate(ps[i]);
    assert MlfqPick(ps, s.par.aging, r) <==> Before(ps, s.par.aging, r, p);
  }

  /** One tick on the CPU where slot `r` runs. */
  function TickOnce(s: State, r: int): State
    requires IsSlot(s, r)
  {
    var t := s.(ticks := s.ticks + 1);
    var u := SetProc(t, r, Ticked(t.procs[r], t.par, t.ticks));
    SetProc(u, r, TrapEnded(u.procs[r]))
  }

  function Ticks(s: State, r: int, t: nat): (u: State)
    requires IsSlot(s, r)
    ensures |u.procs| == |s.procs| && u.par == s.par
  {
    if t == 0 then s else TickOnce(Ticks(s, r, t - 1), r)
  }

  /** Fewer ticks than the quantum change only the clock and what is left of the quantum. */
  lemma {:induction false} TicksIs(s: State, r: int, t: nat)
    requires IsSlot(s, r) && s.procs[r].state.Running? && !s.procs[r].inTrap && t < s.procs[r].remaining
    ensures var x := s.procs[r];
            Ticks(s, r, t) == SetProc(s, r, x.(remaining := x.remaining - t)).(ticks := s.ticks + t)
  {
    if t > 0 {
      TicksIs(s, r, t - 1);
    } else {
      assert s.procs[r := s.procs[r]] == s.procs;
    }
  }

  /** Slot `r` is dispatched, computes for `t` ticks, sleeps, and is woken. */
  function Burst(s: State, r: int, t: nat): (u: State)
    requires IsSlot(s, r) && s.par.aging > 0
    ensures |u.procs| == |s.procs| && u.par.aging == s.par.aging
  {
    var v := Ticks(Pass(s, r), r, t);
    var w := SetProc(v, r, v.procs[r].(state := Sleeping));
    SetProc(w, r, w.procs[r].(state := Runnable))
  }

  /** What a burst that is shorter than the quantum changes. */
  ghost predicate Bursted(s: State, u: State, r: int, p: int, t: nat)
    requires Duel(s, r, p)
  {
    && Duel(u, r, p) && SamePar(s.par, u.par) && u.ticks == s.ticks + t
    && u.procs[r].emaFast == s.procs[r].emaFast && u.procs[p].emaFast == s.procs[p].emaFast
    && u.procs[r].wait == 0
    && u.lastBoost == (if BoostDue(s) then s.ticks else s.lastBoost)
    && u.procs[p].wait == 1 + (if BoostDue(s) then 0 else s.procs[p].wait)
    && u.procs[p].queue == if BoostDue(s) then 0 else s.procs[p].queue
  }

  lemma BurstIs(s: State, r: int, p: int, t: nat)
    requires Duel(s, r, p) && t < s.par.q0
    ensures Bursted(s, Burst(s, r, t), r, p, t)
  {
    TicksIs(Pass(s, r), r, t);
  }

  lemma TickSteps(s: State, r: int)
    requires IsSlot(s, r) && s.par.aging > 0 && s.procs[r].state.Running? && !s.procs[r].inTrap
    ensures var t := Apply(s, LClock);
            && IsSlot(t, r) && Enabled(t, LTick(r)) && t.par == s.par
            && var u := Apply(t, LTick(r));
            && IsSlot(u, r) && Enabled(u, LTrapEnd(r)) && u.par == s.par
            && Apply(u, LTrapEnd(r)) == TickOnce(s, r) && TickOnce(s, r).par == s.par
    ensures forall i :: 0 <= i < |s.procs| && i != r ==>
              Apply(Apply(s, LClock), LTick(r)).procs[i] == s.procs[i] == TickOnce(s, r).procs[i]
  {
  }

  /** A starving run goes on while `r` computes. */
  lemma {:induction false} TickRun(ss: seq<State>, ls: seq<Label>, r: int, p: int, n: nat, t: nat)
    returns (ss': seq<State>, ls': seq<Label>)
    requires Starves(ss, ls, r, p, n) && IsSlot(ss[|ls|], r) && r != p
    requires var x := ss[|ls|].procs[r]; x.state.Running? && !x.inTrap && t < x.remaining
    ensures Starves(ss', ls', r, p, n) && ss'[0] == ss[0] && ss'[|ls'|] == Ticks(ss[|ls|], r, t)
    decreases t
  {
    hide Starves;
    StarvesLast(ss, ls, r, p, n);
    if t == 0 {
      ss', ls' := ss, ls;
    } else {
      ss', ls' := TickRun(ss, ls, r, p, n, t - 1);
      StarvesLast(ss', ls', r, p, n);
      var s := ss'[|ls'|];
      TicksIs(ss[|ls|], r, t - 1);
      TickSteps(s, r);
      hide Enabled, Apply, TickOnce;
      ss', ls' := StarveOn(ss', ls', r, p, n, LClock);
      ss', ls' := StarveOn(ss', ls', r, p, n, LTick(r));
      ss', ls' := StarveOn(ss', ls', r, p, n, LTrapEnd(r));
    }
  }

  lemma StarvesLast(ss: seq<State>, ls: seq<Label>, r: int, p: int, n: nat)
    requires Starves(ss, ls, r, p, n)
    ensures |ss| == |ls| + 1 && Waits(ss[|ls|], p)
  {
  }

  lemma NapRun(ss: seq<State>, ls: seq<Label>, r: int, p: int, n: nat)
    returns (ss': seq<State>, ls': seq<Label>)
    requires Starves(ss, ls, r, p, n) && IsSlot(ss[|ls|], r) && r != p
    requires var x := ss[|ls|].procs[r]; x.state.Running? && !x.inTrap
    ensures Starves(ss', ls', r, p, n) && ss'[0] == ss[0]
    ensures ss'[|ls'|] == Apply(Apply(ss[|ls|], LSleep(r)), LWake(r))
  {
    StarvesLast(ss, ls, r, p, n);
    hide Starves;
    ss', ls' := StarveOn(ss, ls, r, p, n, LSleep(r));
    StarvesLast(ss', ls', r, p, n);
    ss', ls' := StarveOn(ss', ls', r, p, n, LWake(r));
  }

  /** A starving run goes on with a burst of `r`. */
  lemma BurstRun(ss: seq<State>, ls: seq<Label>, r: int, p: int, n: nat, t: nat)
    returns (ss': seq<State>, ls': seq<Label>)
    requires Starves(ss, ls, r, p, n) && Duel(ss[|ls|], r, p) && Enabled(ss[|ls|], LPass(r)) && t < ss[|ls|].par.q0
    ensures Starves(ss', ls', r, p, n + 1) && ss'[0] == ss[0] && ss'[|ls'|] == Burst(ss[|ls|], r, t)
  {
    hide Starves;
    StarvesLast(ss, ls, r, p, n);
    var s := ss[|ls|];
    TicksIs(Pass(s, r), r, t);
    ss', ls' := StarveOn(ss, ls, r, p, n, LPass(r));
    StarvesLast(ss', ls', r, p, n + 1);
    ss', ls' := TickRun(ss', ls', r, p, n + 1, t);
    StarvesLast(ss', ls', r, p, n + 1);
    ss', ls' := NapRun(ss', ls', r, p, n + 1);
  }

  // ---------------------------------------------------------------------------
  // One boost after the other

  /** Bursts of `t` ticks make a boost due every `m` passes. */
  predicate Period(par: Params, t: nat, m: nat) {
    0 < t < par.q0 && 0 < m && (m - 1) * t < par.boost <= m * t
  }

  function Bursts(s: State, r: int, t: nat, n: nat): (u: State)
    requires IsSlot(s, r) && s.par.aging > 0
    ensures |u.procs| == |s.procs| && u.par.aging == s.par.aging
  {
    if n == 0 then s else Burst(Bursts(s, r, t, n - 1), r, t)
  }

  /** Bursts since the last boost, of which the `m`-th makes the next one due. */
  function Place(m: nat, n: nat): (j: nat)
    requires m > 0
    ensures 0 < j <= m && (n < m ==> j == if n == 0 then m else n)
  {
    if n == 0 then m else After(m, Place(m, n - 1))
  }

  function After(m: nat, j: nat): nat {
    if j >= m then 1 else j + 1
  }

  ghost predicate OnTurn(s: State, r: int, p: int, t: nat, m: nat, j: nat) {
    && Duel(s, r, p) && Period(s.par, t, m) && 0 < j <= m
    && (j == m ==> BoostDue(s))
    && (j < m ==>
          s.procs[r].wait == 0 && s.procs[p].wait == j && s.procs[p].queue == 0 && s.ticks - s.lastBoost == j * t)
  }

  lemma Within(t: nat, m: nat, j: nat)
    requires j < m
    ensures j * t <= (m - 1) * t
  {
    if t > 0 {
      MulMono(t, j, m - 1);
    }
  }

  /** The `j`-th pass goes to `r` exactly if `r` leads `p` with that wait. */
  lemma TurnNext(s: State, r: int, p: int, t: nat, m: nat, j: nat, w: nat)
    requires OnTurn(s, r, p, t, m, j)
    ensures IsSlot(s, r) && IsSlot(s, p) && s.par.aging > 0 && m > 0
    ensures Enabled(s, LPass(r)) <==> Leads(s, r, p, 1, After(m, j))
    ensures OnTurn(Burst(s, r, t), r, p, t, m, After(m, j))
    ensures Leads(Burst(s, r, t), r, p, 1, w) <==> Leads(s, r, p, 1, w)
  {
    if j < m {
      Within(t, m, j);
      assert (j + 1) * t == j * t + t;
    }
    PassIff(s, r, p);
    BurstIs(s, r, p, t);
    hide Enabled, Burst;
  }

  lemma {:induction false} NthTurn(s: State, r: int, p: int, t: nat, m: nat, n: nat, w: nat)
    requires OnTurn(s, r, p, t, m, m)
    ensures OnTurn(Bursts(s, r, t, n), r, p, t, m, Place(m, n))
    ensures Leads(Bursts(s, r, t, n), r, p, 1, w) <==> Leads(s, r, p, 1, w)
  {
    hide Burst, OnTurn, Leads, After;
    TurnNext(s, r, p, t, m, m, w);
    if n > 0 {
      NthTurn(s, r, p, t, m, n - 1, w);
      TurnNext(Bursts(s, r, t, n - 1), r, p, t, m, Place(m, n - 1), w);
    }
  }

  lemma LeadsEarlier(s: State, r: int, p: int, w: int, m: int)
    requires IsSlot(s, r) && IsSlot(s, p) && s.par.aging > 0 && w <= m && Leads(s, r, p, 1, m)
    ensures Leads(s, r, p, 1, w)
  {
    var a := s.par.aging;
    assert w == a * (w / a) + w % a;
    DivAtLeast(m, a, w / a);
  }

  lemma NthPass(s: State, r: int, p: int, t: nat, m: nat, n: nat)
    requires OnTurn(s, r, p, t, m, m)
    ensures IsSlot(s, r) && IsSlot(s, p)
    ensures Enabled(Bursts(s, r, t, n), LPass(r)) <==> Leads(s, r, p, 1, After(m, Place(m, n)))
  {
    hide Burst, OnTurn, Leads, After;
    TurnNext(s, r, p, t, m, m, m);
    var w := After(m, Place(m, n));
    NthTurn(s, r, p, t, m, n, w);
    TurnNext(Bursts(s, r, t, n), r, p, t, m, Place(m, n), w);
  }

  /**
    A process that always computes for `t` ticks, less than its quantum, against one that
    waits, from a boost on, with the next due every `m` passes. Every pass, for ever,
    dispatches the first exactly if it still leads when the other has waited for `m`
    passes, that is, if the next boost comes before aging has closed the gap.
   */
  lemma EndlessIff(s: State, r: int, p: int, t: nat, m: nat)
    requires Duel(s, r, p) && BoostDue(s) && Period(s.par, t, m)
    ensures (forall n: nat :: Enabled(Bursts(s, r, t, n), LPass(r))) <==> Leads(s, r, p, 1, m)
  {
    hide Enabled, Burst, Bursts, Leads;
    NthPass(s, r, p, t, m, m - 1);
    if Leads(s, r, p, 1, m) {
      forall n: nat
        ensures Enabled(Bursts(s, r, t, n), LPass(r))
      {
        NthPass(s, r, p, t, m, n);
        LeadsEarlier(s, r, p, After(m, Place(m, n)), m);
      }
    } else {
      var n: nat := m - 1;
      assert After(m, Place(m, n)) == m;
      assert !Enabled(Bursts(s, r, t, n), LPass(r));
    }
  }

  /** Then a starving run can go on for `n` more passes. */
  lemma {:induction false} StarveFor(xs: seq<State>, ms: seq<Label>, r: int, p: int, c: nat, t: nat, m: nat, n: nat)
    returns (ss: seq<State>, ls: seq<Label>)
    requires Starves(xs, ms, r, p, c) && Duel(xs[|ms|], r, p) && BoostDue(xs[|ms|])
    requires Period(xs[|ms|].par, t, m) && Leads(xs[|ms|], r, p, 1, m)
    ensures Starves(ss, ls, r, p, c + n) && ss[0] == xs[0] && ss[|ls|] == Bursts(xs[|ms|], r, t, n)
    decreases n
  {
    hide Starves, Enabled, Burst, Leads;
    StarvesLast(xs, ms, r, p, c);
    if n == 0 {
      ss, ls := xs, ms;
    } else {
      var s := xs[|ms|];
      ss, ls := StarveFor(xs, ms, r, p, c, t, m, n - 1);
      StarvesLast(ss, ls, r, p, c + n - 1);
      EndlessIff(s, r, p, t, m);
      NthTurn(s, r, p, t, m, n - 1, m);
      assert Enabled(Bursts(s, r, t, n - 1), LPass(r));
      ss, ls := BurstRun(ss, ls, r, p, c + n - 1, t);
    }
  }

  lemma StarvesNow(s: State, r: int, p: int)
    requires Waits(s, p)
    ensures Starves([s], [], r, p, 0)
  {
  }

  /** So for every `n` there is an MLFQ run of `n` passes in which slot `p` only waits. */
  lemma BoostsStarve(s: State, r: int, p: int, t: nat, m: nat, n: nat) returns (ss: seq<State>, ls: seq<Label>)
    requires Duel(s, r, p) && BoostDue(s) && Period(s.par, t, m) && Leads(s, r, p, 1, m)
    ensures Starves(ss, ls, r, p, n) && ss[0] == s
  {
    StarvesNow(s, r, p);
    ss, ls := StarveFor([s], [], r, p, 0, t, m, n);
  }

  // ---------------------------------------------------------------------------
  // From boot

  const IDLE := Proc(Unused, 0, 0, 0, 0, 0, 0, 0, 0, 0, 0, 0, false)

  ghost function Boot(): (s: State)
    ensures Init(s)
  {
    State(seq(NPROC, _ => IDLE), InitialParams(), 0, 0, 0, 1, false)
  }

  /** Slot 0 in state `x` with the estimate of a fresh process, slot 1 RUNNABLE, no other in use, and no boost yet. */
  ghost predicate OnlyTwo(s: State, x: ProcState, queue: int, ema: int) {
    && |s.procs| == NPROC && s.par == InitialParams() && s.lastBoost == 0
    && s.procs[0].state == x && s.procs[0].queue == 0 && s.procs[0].emaFast == 100
    && !s.procs[0].inTrap && s.procs[0].wait == 0
    && s.procs[1].state.Runnable? && s.procs[1].queue == queue && s.procs[1].emaFast == ema
    && s.procs[1].wait == 0 && s.procs[1].pid == 2 && !s.procs[1].inTrap
    && forall i :: 2 <= i < NPROC ==> s.procs[i].state.Unused?
  }

  /** A run from boot to state `e` under the parameters of pinit. */
  ghost predicate BootRun(ss: seq<State>, ls: seq<Label>, e: State) {
    && IsRun(ss, ls) && ss[0] == Boot() && ss[|ls|] == e
    && forall s <- ss :: s.par == InitialParams()
  }

  lemma BootOn(ss: seq<State>, ls: seq<Label>, s: State, l: Label) returns (ss': seq<State>, ls': seq<Label>)
    requires BootRun(ss, ls, s) && s.par == InitialParams() && Enabled(s, l) && Apply(s, l).par == InitialParams()
    ensures BootRun(ss', ls', Apply(s, l))
  {
    hide Picks, Pass, Ticked, TrapEnded, Step;
    ss', ls' := Snoc(ss, ls, l);
  }

  /** Slot 0 in state `x`, and nothing else. */
  ghost predicate OnlyOne(s: State, x: ProcState) {
    && |s.procs| == NPROC && s.par == InitialParams() && s.lastBoost == s.ticks == 0 && s.nextPid == 2
    && s.procs[0].state == x && s.procs[0].queue == 0 && s.procs[0].emaFast == 100
    && !s.procs[0].inTrap && s.procs[0].wait == 0
    && forall i :: 1 <= i < NPROC ==> s.procs[i] == IDLE
  }

  lemma FirstPass(s: State)
    requires OnlyOne(s, Runnable)
    ensures Enabled(s, LPass(0)) && OnlyOne(Apply(s, LPass(0)), Running)
  {
    assert Prepared(s)[0].state.Runnable?;
    assert forall i :: 1 <= i < NPROC ==> Prepared(s)[i].state.Unused?;
  }

  lemma Booted() returns (ss: seq<State>, ls: seq<Label>, s: State)
    ensures BootRun(ss, ls, s) && OnlyOne(s, Running)
  {
    s := Boot();
    ss, ls := [s], [];
    assert BootRun(ss, ls, s);
    hide BootRun;
    ss, ls := BootOn(ss, ls, s, LAlloc(0));
    s := Apply(s, LAlloc(0));
    ss, ls := BootOn(ss, ls, s, LStart(0));
    s := Apply(s, LStart(0));
    FirstPass(s);
    ss, ls := BootOn(ss, ls, s, LPass(0));
    s := Apply(s, LPass(0));
  }

  /** The first process forks the second, and sleeps. */
  lemma Forked() returns (ss: seq<State>, ls: seq<Label>, s: State)
    ensures BootRun(ss, ls, s) && OnlyTwo(s, Sleeping, 0, 100) && s.ticks == 0
  {
    hide BootRun;
    ss, ls, s := Booted();
    ss, ls := BootOn(ss, ls, s, LAlloc(1));
    s := Apply(s, LAlloc(1));
    ss, ls := BootOn(ss, ls, s, LStart(1));
    s := Apply(s, LStart(1));
    ss, ls := BootOn(ss, ls, s, LSleep(0));
    s := Apply(s, LSleep(0));
  }

  // Now the second uses up two quanta.

  lemma OnlyPick(s: State, queue: int, ema: int)
    requires OnlyTwo(s, Sleeping, queue, ema) && 0 <= queue < 2 && s.ticks < 500
    ensures Enabled(s, LPass(1))
    ensures var u := Apply(s, LPass(1));
            && u.par == InitialParams() && u.ticks == s.ticks && u.lastBoost == 0 && |u.procs| == NPROC
            && u.procs[0] == s.procs[0] && (forall i :: 2 <= i < NPROC ==> u.procs[i] == s.procs[i])
            && u.procs[1] == Dispatched(s.procs[1], s.par, s.ticks).(score := u.procs[1].score)
  {
    assert Prepared(s)[1].state.Runnable?;
    assert forall i :: 0 <= i < NPROC && i != 1 ==> !Prepared(s)[i].state.Runnable?;
  }

  lemma {:induction false} BootTicks(ss: seq<State>, ls: seq<Label>, s: State, t: nat)
    returns (ss': seq<State>, ls': seq<Label>)
    requires BootRun(ss, ls, s) && |s.procs| == NPROC && s.par == InitialParams()
    requires s.procs[1].state.Running? && !s.procs[1].inTrap && t <= s.procs[1].remaining
    ensures BootRun(ss', ls', Ticks(s, 1, t))
  {
    hide BootRun;
    if t == 0 {
      ss', ls' := ss, ls;
    } else {
      ss', ls' := BootTicks(ss, ls, s, t - 1);
      TicksIs(s, 1, t - 1);
      var u := Ticks(s, 1, t - 1);
      TickSteps(u, 1);
      hide Enabled, Apply, TickOnce;
      ss', ls' := BootOn(ss', ls', u, LClock);
      ss', ls' := BootOn(ss', ls', Apply(u, LClock), LTick(1));
      ss', ls' := BootOn(ss', ls', Apply(Apply(u, LClock), LTick(1)), LTrapEnd(1));
    }
  }

  /** A whole quantum in queue `queue`. */
  lemma WholeQuantum(ss: seq<State>, ls: seq<Label>, s: State, queue: int, ema: int)
    returns (ss': seq<State>, ls': seq<Label>, u: State)
    requires BootRun(ss, ls, s) && OnlyTwo(s, Sleeping, queue, ema) && 0 <= queue < 2 && s.ticks < 500
    ensures var q := Quantum(InitialParams(), queue);
            && BootRun(ss', ls', u) && OnlyTwo(u, Sleeping, queue + 1, CapEma(Ema(ema, 50, q)))
            && u.ticks == s.ticks + q
  {
    hide BootRun;
    OnlyPick(s, queue, ema);
    ss', ls' := BootOn(ss, ls, s, LPass(1));
    u := Apply(s, LPass(1));
    var q := Quantum(InitialParams(), queue);
    ss', ls' := BootTicks(ss', ls', u, q);
    TicksIs(u, 1, q - 1);
    u := Ticks(u, 1, q);
  }

  /** After ten ticks the second process has an estimate of 425 and is in queue 2; the first wakes. */
  lemma Unequal() returns (ss: seq<State>, ls: seq<Label>, s: State)
    ensures BootRun(ss, ls, s) && OnlyTwo(s, Runnable, 2, 425) && s.ticks == 10
  {
    hide BootRun;
    ss, ls, s := Forked();
    ss, ls, s := WholeQuantum(ss, ls, s, 0, 100);
    ss, ls, s := WholeQuantum(ss, ls, s, 1, 250);
    ss, ls := BootOn(ss, ls, s, LWake(0));
    s := Apply(s, LWake(0));
  }

  /** Until the boost the first process wins with short bursts, for its queue is lower. */
  lemma {:induction false} UntilBoost(ss: seq<State>, ls: seq<Label>, n: nat)
    returns (ss': seq<State>, ls': seq<Label>, n': nat)
    requires Starves(ss, ls, 0, 1, n) && Duel(ss[|ls|], 0, 1) && SamePar(InitialParams(), ss[|ls|].par)
    requires BoostDue(ss[|ls|]) || ss[|ls|].procs[1].queue == 2
    ensures Starves(ss', ls', 0, 1, n') && ss'[0] == ss[0] && n' >= n
    ensures var u := ss'[|ls'|];
            && Duel(u, 0, 1) && SamePar(InitialParams(), u.par) && BoostDue(u)
            && u.procs[0].emaFast == ss[|ls|].procs[0].emaFast && u.procs[1].emaFast == ss[|ls|].procs[1].emaFast
    decreases var s := ss[|ls|]; if BoostDue(s) then 0 else 500 - (s.ticks - s.lastBoost)
  {
    StarvesLast(ss, ls, 0, 1, n);
    var s := ss[|ls|];
    if BoostDue(s) {
      ss', ls', n' := ss, ls, n;
    } else {
      PassIff(s, 0, 1);
      BurstIs(s, 0, 1, 3);
      hide Starves, Enabled, Burst;
      ss', ls' := BurstRun(ss, ls, 0, 1, n, 3);
      ss', ls', n' := UntilBoost(ss', ls', n + 1);
    }
  }

  lemma StarvesAfter(s: State, n: nat) returns (ss: seq<State>, ls: seq<Label>, c: nat)
    requires OnlyTwo(s, Runnable, 2, 425)
    ensures Starves(ss, ls, 0, 1, c) && c >= n && ss[0] == s
  {
    hide Starves;
    StarvesNow(s, 0, 1);
    ss, ls, c := UntilBoost([s], [], 0);
    StarvesLast(ss, ls, 0, 1, c);
    var u := ss[|ls|];
    assert Period(u.par, 3, 167) && Leads(u, 0, 1, 1, 167);
    ss, ls := StarveFor(ss, ls, 0, 1, c, 3, 167, n);
    c := c + n;
  }

  /** Slot 1 stays RUNNABLE from state `k` on, for `n` passes or more, and slot 0 gets them all. */
  ghost predicate StarvesFrom(ss: seq<State>, ls: seq<Label>, k: nat, n: nat)
    requires IsRun(ss, ls)
  {
    && k <= |ls| && Passes(ls, |ls|) >= Passes(ls, k) + n
    && (forall i :: k <= i <= |ls| ==> Waits(ss[i], 1))
    && (forall i :: k <= i < |ls| && ls[i].LPass? ==> ls[i].k == 0)
  }

  lemma BootJoin(xs: seq<State>, ms: seq<Label>, s: State, ys: seq<State>, ns: seq<Label>, c: nat)
    requires BootRun(xs, ms, s) && Starves(ys, ns, 0, 1, c) && ys[0] == s
    ensures var ss, ls := xs[..|ms|] + ys, ms + ns;
            && IsRun(ss, ls) && ss[0] == Boot() && (forall s <- ss :: SamePar(InitialParams(), s.par))
            && StarvesFrom(ss, ls, |ms|, c)
  {
    hide Step, Waits;
    RunConcat(xs, ms, ys, ns);
    PassesConcat(ms, ns, |ns|);
    PassesPrefix(ms, ns, |ms|);
  }

  /**
    With the parameters of pinit and two processes, there is for every `n` a run from boot
    in which a process stays RUNNABLE for `n` passes, or more, that never dispatch it.
   */
  lemma StarvesFromBoot(n: nat) returns (ss: seq<State>, ls: seq<Label>, k: nat)
    ensures IsRun(ss, ls) && Init(ss[0]) && StarvesFrom(ss, ls, k, n)
    ensures forall s <- ss :: SamePar(InitialParams(), s.par)
  {
    var xs, ms, s := Unequal();
    var ys, ns, c := StarvesAfter(s, n);
    hide Starves;
    BootJoin(xs, ms, s, ys, ns, c);
    ss, ls, k := xs[..|ms|] + ys, ms + ns, |ms|;
  }
}
