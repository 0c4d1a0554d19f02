/**
  The MLFQ+SJF scheduler of proc.c, the timer branch of trap.c and the two agent system
  calls of sysproc.c, as a state machine. Each step is one critical section of the source:
  a scheduler pass, a timer tick on the CPU of a running process, the end of that trap,
  or one process changing state.
 */
module Sched {

  const NPROC := 64
  const MAX_EMA := 5000

  datatype ProcState = Unused | Embryo | Sleeping | Runnable | Running | Zombie

  /**
    The scheduling fields of struct proc. `inTrap` says that the timer branch of trap has
    run for this process and the preemption test at the end of trap is still to come.
   */
  datatype Proc = Proc(
    state: ProcState,
    pid: nat,
    queue: int,
    remaining: int,
    wait: int,
    emaFast: int,
    emaSlow: int,
    burstStart: int,
    yieldCount: int,
    preemptCount: int,
    variance: int,
    score: int,
    inTrap: bool)

  datatype Params = Params(
    q0: int, q1: int, q2: int,
    boost: int,
    alphaFast: int, alphaSlow: int,
    aging: int,
    agentPid: nat,
    alert: int,
    rr: int)

  /** What setschedparam receives from user space. */
  datatype Update = Update(q0: int, q1: int, q2: int, boost: int, alphaFast: int, alphaSlow: int, aging: int, rr: int)

  /** `pinned` says that the registered agent has been through kern_pin_agent. */
  datatype State = State(
    procs: seq<Proc>,
    par: Params,
    ticks: int,
    lastBoost: int,
    rrNext: int,
    nextPid: nat,
    pinned: bool)

  // ---------------------------------------------------------------------------
  // One scheduler pass

  function Boosted(p: Proc, q0: int): Proc {
    if p.state.Unused? then p else p.(queue := 0, remaining := q0, wait := 0)
  }

  function BoostAll(ps: seq<Proc>, q0: int): (r: seq<Proc>)
    ensures |r| == |ps| && forall i :: 0 <= i < |ps| ==> r[i] == Boosted(ps[i], q0)
  {
    seq(|ps|, i requires 0 <= i < |ps| => Boosted(ps[i], q0))
  }

  function Aged(p: Proc): Proc {
    if p.state.Runnable? then p.(wait := p.wait + 1) else p
  }

  function AgeAll(ps: seq<Proc>): (r: seq<Proc>)
    ensures |r| == |ps| && forall i :: 0 <= i < |ps| ==> r[i] == Aged(ps[i])
  {
    seq(|ps|, i requires 0 <= i < |ps| => Aged(ps[i]))
  }

  predicate Starving(ps: seq<Proc>) {
    exists i :: 0 <= i < |ps| && ps[i].state.Runnable? && ps[i].wait > 100
  }

  function Score(p: Proc, aging: int): int
    requires aging > 0
  {
    p.emaFast / 100 - p.wait / aging
  }

  /** Writes the scores of the queue the scan stops at. */
  function ScoreQueue(ps: seq<Proc>, q: int, aging: int): (r: seq<Proc>)
    requires aging > 0
    ensures |r| == |ps|
    ensures forall i :: 0 <= i < |ps| ==>
              r[i] == if ps[i].state.Runnable? && ps[i].queue == q then ps[i].(score := Score(ps[i], aging)) else ps[i]
  {
    seq(|ps|, i requires 0 <= i < |ps| =>
      if ps[i].state.Runnable? && ps[i].queue == q then ps[i].(score := Score(ps[i], aging)) else ps[i])
  }

  /** Process `a` goes before process `b`: lower queue, then lower score, then lower index. */
  ghost predicate Before(ps: seq<Proc>, aging: int, a: int, b: int)
    requires 0 <= a < |ps| && 0 <= b < |ps| && aging > 0
  {
    var p, r := ps[a], ps[b];
    || p.queue < r.queue
    || (p.queue == r.queue && Score(p, aging) < Score(r, aging))
    || (p.queue == r.queue && Score(p, aging) == Score(r, aging) && a <= b)
  }

  ghost predicate Candidate(p: Proc) {
    p.state.Runnable? && 0 <= p.queue <= 2
  }

  /** The MLFQ choice: the least candidate, or -1 if there is none. */
  ghost predicate MlfqPick(ps: seq<Proc>, aging: int, k: int)
    requires aging > 0
  {
    if k == -1 then
      forall i :: 0 <= i < |ps| ==> !Candidate(ps[i])
    else
      && 0 <= k < |ps| && Candidate(ps[k])
      && forall i :: 0 <= i < |ps| && Candidate(ps[i]) ==> Before(ps, aging, k, i)
  }

  /** How far slot `i` lies after `from` in the rotation. */
  function Distance(from: int, i: int): int {
    if i >= from then i - from else i - from + NPROC
  }

  /** The round-robin choice: the first RUNNABLE slot from `next` on, or -1 if there is none. */
  ghost predicate RrPick(ps: seq<Proc>, next: int, k: int) {
    if k == -1 then
      forall i :: 0 <= i < |ps| ==> !ps[i].state.Runnable?
    else
      && 0 <= k < |ps| && ps[k].state.Runnable?
      && forall i :: 0 <= i < |ps| && ps[i].state.Runnable? ==> Distance(next, k) <= Distance(next, i)
  }

  function Quantum(par: Params, queue: int): int {
    if queue == 0 then par.q0 else if queue == 1 then par.q1 else par.q2
  }

  function Dispatched(p: Proc, par: Params, ticks: int): Proc {
    p.(state := Running, wait := 0, burstStart := ticks, remaining := Quantum(par, p.queue))
  }

  function BoostDue(s: State): bool {
    s.ticks - s.lastBoost >= s.par.boost
  }

  /** The table after boost and aging, when the choice is made. */
  function Prepared(s: State): seq<Proc> {
    AgeAll(if BoostDue(s) then BoostAll(s.procs, s.par.q0) else s.procs)
  }

  ghost predicate Picks(s: State, k: int)
    requires s.par.aging > 0
  {
    if s.par.rr != 0 then RrPick(Prepared(s), s.rrNext, k) else MlfqPick(Prepared(s), s.par.aging, k)
  }

  /** The pass that dispatches slot `k`, or nothing when `k` is -1. */
  function Pass(s: State, k: int): State
    requires s.par.aging > 0 && -1 <= k < |s.procs|
  {
    var ps := Prepared(s);
    var scored := if k >= 0 && s.par.rr == 0 then ScoreQueue(ps, ps[k].queue, s.par.aging) else ps;
    s.(procs := if k >= 0 then scored[k := Dispatched(scored[k], s.par, s.ticks)] else scored,
       par := if Starving(ps) && s.par.alert == 0 then s.par.(alert := 1) else s.par,
       lastBoost := if BoostDue(s) then s.ticks else s.lastBoost,
       rrNext := if k >= 0 && s.par.rr != 0 then (if k + 1 == NPROC then 0 else k + 1) else s.rrNext)
  }

  // ---------------------------------------------------------------------------
  // The timer

  /** C division by a positive number: truncation toward zero. */
  function TruncDiv(a: int, b: int): int
    requires b > 0
  {
    if a >= 0 then a / b else -((-a) / b)
  }

  function Ema(ema: int, alpha: int, burst: int): int {
    ema + TruncDiv(alpha * (burst * 100 - ema), 100)
  }

  function CapEma(e: int): int {
    if e > MAX_EMA then MAX_EMA else if e < 0 then 0 else e
  }

  /** The timer branch of trap for the process running on the CPU. */
  function Ticked(p: Proc, par: Params, ticks: int): Proc {
    var r := p.remaining - 1;
    if r > 0 then p.(remaining := r, inTrap := true)
    else
      var burst := ticks - p.burstStart;
      var fast := CapEma(Ema(p.emaFast, par.alphaFast, burst));
      var slow := CapEma(Ema(p.emaSlow, par.alphaSlow, burst));
      p.(remaining := r,
         inTrap := true,
         emaFast := fast,
         emaSlow := slow,
         variance := if fast >= slow then fast - slow else slow - fast,
         preemptCount := p.preemptCount + 1,
         queue := if p.queue < 2 && (par.agentPid == 0 || p.pid != par.agentPid) then p.queue + 1 else p.queue)
  }

  /** The preemption test at the end of trap: yield when the quantum is used up. */
  function TrapEnded(p: Proc): Proc {
    if p.remaining <= 0 then p.(inTrap := false, yieldCount := p.yieldCount + 1, state := Runnable)
    else p.(inTrap := false)
  }

  // ---------------------------------------------------------------------------
  // Process life and the agent's system calls

  /** allocproc: a fresh process starts in queue 0 with an estimate of one tick. */
  function Fresh(p: Proc, pid: nat): Proc {
    p.(state := Embryo, pid := pid, queue := 0, remaining := 1, wait := 0,
       emaFast := 100, emaSlow := 100, burstStart := 0, yieldCount := 0, preemptCount := 0,
       variance := 0, score := 0, inTrap := false)
  }

  /** The checks of sys_setschedparam. */
  predicate Accepts(u: Update) {
    && 1 <= u.q0 <= 10 && 1 <= u.q1 <= 20 && 1 <= u.q2 <= 40
    && 10 <= u.boost <= 500
    && 1 <= u.alphaFast <= 90 && 1 <= u.alphaSlow <= 50
    && 1 <= u.aging <= 100
    && u.alphaSlow < u.alphaFast
    && u.q0 <= u.q1 <= u.q2
    && (u.rr == 0 || u.rr == 1)
  }

  function Updated(par: Params, u: Update): Params {
    Params(u.q0, u.q1, u.q2, u.boost, u.alphaFast, u.alphaSlow, u.aging, par.agentPid, 0, u.rr)
  }

  /** pinit. */
  function InitialParams(): Params {
    Params(4, 6, 8, 500, 50, 10, 50, 0, 0, 0)
  }

  // ---------------------------------------------------------------------------
  // Steps

  datatype Label =
    | LPass(k: int)
    | LClock
    | LTick(i: int)
    | LTrapEnd(i: int)
    | LTrapExit(i: int)
    | LAlloc(i: int)
    | LStart(i: int)
    | LAbort(i: int)
    | LSleep(i: int)
    | LWake(i: int)
    | LExit(i: int)
    | LReap(i: int)
    | LRegister(i: int)
    | LPin(i: int)
    | LSetParams(i: int, u: Update)

  predicate IsSlot(s: State, i: int) {
    0 <= i < |s.procs|
  }

  ghost predicate Enabled(s: State, l: Label)
    requires s.par.aging > 0
  {
    match l
    case LPass(k) => -1 <= k < |s.procs| && Picks(s, k)
    case LClock => true
    case LTick(i) => IsSlot(s, i) && s.procs[i].state.Running? && !s.procs[i].inTrap
    case LTrapEnd(i) => IsSlot(s, i) && s.procs[i].state.Running? && s.procs[i].inTrap
    case LTrapExit(i) => IsSlot(s, i) && s.procs[i].state.Running? && s.procs[i].inTrap
    case LAlloc(i) =>
      && IsSlot(s, i) && s.procs[i].state.Unused?
      && forall j :: 0 <= j < i ==> !s.procs[j].state.Unused?
    case LStart(i) => IsSlot(s, i) && s.procs[i].state.Embryo?
    case LAbort(i) => IsSlot(s, i) && s.procs[i].state.Embryo?
    case LSleep(i) => IsSlot(s, i) && s.procs[i].state.Running? && !s.procs[i].inTrap
    case LWake(i) => IsSlot(s, i) && s.procs[i].state.Sleeping?
    case LExit(i) => IsSlot(s, i) && s.procs[i].state.Running? && !s.procs[i].inTrap
    case LReap(i) => IsSlot(s, i) && s.procs[i].state.Zombie?
    case LRegister(i) => IsSlot(s, i) && s.procs[i].state.Running? && !s.procs[i].inTrap && s.par.agentPid == 0
    case LPin(i) => IsSlot(s, i) && s.procs[i].state.Running? && !s.procs[i].inTrap && s.procs[i].pid == s.par.agentPid
    case LSetParams(i, u) =>
      && IsSlot(s, i) && s.procs[i].state.Running? && !s.procs[i].inTrap
      && s.par.agentPid != 0 && s.procs[i].pid == s.par.agentPid && Accepts(u)
  }

  function SetProc(s: State, i: int, p: Proc): State
    requires IsSlot(s, i)
  {
    s.(procs := s.procs[i := p])
  }

  function Apply(s: State, l: Label): State
    requires s.par.aging > 0
    requires l.LPass? ==> -1 <= l.k < |s.procs|
    requires !l.LPass? && !l.LClock? ==> IsSlot(s, l.i)
  {
    match l
    case LPass(k) => Pass(s, k)
    case LClock => s.(ticks := s.ticks + 1)
    case LTick(i) => SetProc(s, i, Ticked(s.procs[i], s.par, s.ticks))
    case LTrapEnd(i) => SetProc(s, i, TrapEnded(s.procs[i]))
    case LTrapExit(i) => SetProc(s, i, s.procs[i].(inTrap := false))
    case LAlloc(i) => SetProc(s, i, Fresh(s.procs[i], s.nextPid)).(nextPid := s.nextPid + 1)
    case LStart(i) => SetProc(s, i, s.procs[i].(state := Runnable))
    case LAbort(i) => SetProc(s, i, s.procs[i].(state := Unused))
    case LSleep(i) => SetProc(s, i, s.procs[i].(state := Sleeping))
    case LWake(i) => SetProc(s, i, s.procs[i].(state := Runnable))
    case LExit(i) =>
      var t := SetProc(s, i, s.procs[i].(state := Zombie));
      if s.par.agentPid == s.procs[i].pid then t.(par := s.par.(agentPid := 0), pinned := false) else t
    case LReap(i) => SetProc(s, i, s.procs[i].(state := Unused, pid := 0))
    case LRegister(i) => s.(par := s.par.(agentPid := s.procs[i].pid), pinned := false)
    case LPin(i) => SetProc(s, i, s.procs[i].(queue := 0, remaining := s.par.q0)).(pinned := true)
    case LSetParams(i, u) => s.(par := Updated(s.par, u))
  }
}
