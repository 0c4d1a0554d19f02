/** What every run of the scheduler keeps, and how long a RUNNABLE process can wait. */
module SchedProof {
  import opened Sched

  // ---------------------------------------------------------------------------
  // The invariant

  ghost predicate ProcOk(p: Proc) {
    && 0 <= p.queue <= 2
    && 0 <= p.wait && (!p.state.Runnable? ==> p.wait == 0)
    && 0 <= p.emaFast <= MAX_EMA && 0 <= p.emaSlow <= MAX_EMA
    && 0 <= p.yieldCount <= p.preemptCount
    && (p.inTrap ==> p.state.Running? && (p.remaining <= 0 ==> p.yieldCount < p.preemptCount))
  }

  predicate InUse(p: Proc) {
    !p.state.Unused?
  }

  predicate Alive(p: Proc) {
    p.state.Sleeping? || p.state.Runnable? || p.state.Running?
  }

  /** The parameters are ones setschedparam would accept. */
  predicate ParamsOk(par: Params) {
    Accepts(Update(par.q0, par.q1, par.q2, par.boost, par.alphaFast, par.alphaSlow, par.aging, par.rr))
  }

  ghost predicate PidsOk(ps: seq<Proc>, nextPid: nat) {
    && (forall i :: 0 <= i < |ps| && InUse(ps[i]) ==> 1 <= ps[i].pid < nextPid)
    && (forall i, j :: 0 <= i < j < |ps| && InUse(ps[i]) && InUse(ps[j]) ==> ps[i].pid != ps[j].pid)
  }

  ghost predicate IsAgent(p: Proc, agentPid: nat) {
    Alive(p) && p.pid == agentPid
  }

  /** The agent, if any, is one live process, and once pinned it sits in queue 0. */
  ghost predicate AgentOk(ps: seq<Proc>, agentPid: nat, pinned: bool) {
    && (agentPid == 0 ==> !pinned)
    && (agentPid != 0 ==> exists i :: 0 <= i < |ps| && IsAgent(ps[i], agentPid))
    && (pinned ==> forall i :: 0 <= i < |ps| && IsAgent(ps[i], agentPid) ==> ps[i].queue == 0)
  }

  ghost predicate Inv(s: State) {
    && |s.procs| == NPROC
    && 0 <= s.rrNext < NPROC
    && s.nextPid >= 1
    && ParamsOk(s.par)
    && (forall i :: 0 <= i < |s.procs| ==> ProcOk(s.procs[i]))
    && PidsOk(s.procs, s.nextPid)
    && AgentOk(s.procs, s.par.agentPid, s.pinned)
  }

  /** Boot: an empty table and the parameters pinit sets. */
  ghost predicate Init(s: State) {
    && |s.procs| == NPROC && s.rrNext == 0 && s.nextPid == 1 && !s.pinned
    && s.par == InitialParams()
    && forall i :: 0 <= i < |s.procs| ==>
         s.procs[i] == Proc(Unused, 0, 0, 0, 0, 0, 0, 0, 0, 0, 0, 0, false)
  }

  lemma InitInv(s: State)
    requires Init(s)
    ensures Inv(s)
  {
  }

  // ---------------------------------------------------------------------------
  // Preservation

  lemma TickedOk(p: Proc, par: Params, ticks: int)
    requires ProcOk(p) && p.state.Running?
    ensures ProcOk(Ticked(p, par, ticks))
  {
  }

  /** Replacing one process by another with the same pid keeps pids and agent in order. */
  lemma SetProcOk(s: State, i: int, p: Proc)
    requires Inv(s) && IsSlot(s, i) && ProcOk(p)
    requires InUse(p) ==> InUse(s.procs[i]) && p.pid == s.procs[i].pid
    requires s.procs[i].pid == s.par.agentPid && Alive(s.procs[i]) ==> Alive(p)
    requires s.pinned && s.procs[i].pid == s.par.agentPid && Alive(s.procs[i]) ==> p.queue == 0
    requires Alive(p) && !Alive(s.procs[i]) ==> p.pid != s.par.agentPid
    ensures Inv(SetProc(s, i, p))
  {
    var ps' := s.procs[i := p];
    if s.par.agentPid != 0 {
      var a :| 0 <= a < |s.procs| && IsAgent(s.procs[a], s.par.agentPid);
      assert IsAgent(ps'[a], s.par.agentPid);
    }
  }

  /** What a pass may change about a process. */
  ghost predicate PassRel(p: Proc, r: Proc) {
    && r.pid == p.pid
    && (r.state == p.state || (p.state.Runnable? && r.state.Running?))
    && (r.queue == p.queue || r.queue == 0)
    && ProcOk(r)
  }

  lemma PassProcs(s: State, k: int)
    requires Inv(s) && Enabled(s, LPass(k))
    ensures |Pass(s, k).procs| == NPROC
    ensures forall i :: 0 <= i < NPROC ==> PassRel(s.procs[i], Pass(s, k).procs[i])
  {
  }

  lemma PassRelKeeps(s: State, s': State)
    requires Inv(s) && |s'.procs| == NPROC && 0 <= s'.rrNext < NPROC
    requires forall i :: 0 <= i < NPROC ==> PassRel(s.procs[i], s'.procs[i])
    requires ParamsOk(s'.par) && s'.par.agentPid == s.par.agentPid
    requires s'.nextPid == s.nextPid && s'.pinned == s.pinned
    ensures Inv(s')
  {
    if s.par.agentPid != 0 {
      var a :| 0 <= a < |s.procs| && IsAgent(s.procs[a], s.par.agentPid);
      assert PassRel(s.procs[a], s'.procs[a]);
      assert IsAgent(s'.procs[a], s.par.agentPid);
    }
    forall i | 0 <= i < NPROC
      ensures InUse(s'.procs[i]) <==> InUse(s.procs[i])
      ensures IsAgent(s'.procs[i], s.par.agentPid) <==> IsAgent(s.procs[i], s.par.agentPid)
      ensures ProcOk(s'.procs[i]) && s'.procs[i].pid == s.procs[i].pid
    {
      assert PassRel(s.procs[i], s'.procs[i]);
    }
  }

  lemma PassInv(s: State, k: int)
    requires Inv(s) && Enabled(s, LPass(k))
    ensures Inv(Pass(s, k))
  {
    PassProcs(s, k);
    PassRelKeeps(s, Pass(s, k));
  }

  lemma AllocInv(s: State, i: int)
    requires Inv(s) && Enabled(s, LAlloc(i))
    ensures Inv(Apply(s, LAlloc(i)))
  {
    var s' := Apply(s, LAlloc(i));
    if s.par.agentPid != 0 {
      var a :| 0 <= a < |s.procs| && IsAgent(s.procs[a], s.par.agentPid);
      assert IsAgent(s'.procs[a], s.par.agentPid);
    }
  }

  lemma ExitInv(s: State, i: int)
    requires Inv(s) && Enabled(s, LExit(i))
    ensures Inv(Apply(s, LExit(i)))
  {
    var p := s.procs[i].(state := Zombie);
    if s.par.agentPid != s.procs[i].pid {
      SetProcOk(s, i, p);
    }
  }

  lemma RegisterInv(s: State, i: int)
    requires Inv(s) && Enabled(s, LRegister(i))
    ensures Inv(Apply(s, LRegister(i)))
  {
    assert IsAgent(s.procs[i], s.procs[i].pid);
  }

  lemma PinInv(s: State, i: int)
    requires Inv(s) && Enabled(s, LPin(i))
    ensures Inv(Apply(s, LPin(i)))
  {
    SetProcOk(s, i, s.procs[i].(queue := 0, remaining := s.par.q0));
  }

  /** Every step keeps the invariant. */
  lemma StepInv(s: State, l: Label)
    requires Inv(s) && Enabled(s, l)
    ensures Inv(Apply(s, l))
  {
    match l
    case LPass(k) => PassInv(s, k);
    case LClock =>
    case LTick(i) =>
      TickedOk(s.procs[i], s.par, s.ticks);
      SetProcOk(s, i, Ticked(s.procs[i], s.par, s.ticks));
    case LTrapEnd(i) => SetProcOk(s, i, TrapEnded(s.procs[i]));
    case LTrapExit(i) => SetProcOk(s, i, s.procs[i].(inTrap := false));
    case LAlloc(i) => AllocInv(s, i);
    case LStart(i) => SetProcOk(s, i, s.procs[i].(state := Runnable));
    case LAbort(i) => SetProcOk(s, i, s.procs[i].(state := Unused));
    case LSleep(i) => SetProcOk(s, i, s.procs[i].(state := Sleeping));
    case LWake(i) => SetProcOk(s, i, s.procs[i].(state := Runnable));
    case LExit(i) => ExitInv(s, i);
    case LReap(i) => SetProcOk(s, i, s.procs[i].(state := Unused, pid := 0));
    case LRegister(i) => RegisterInv(s, i);
    case LPin(i) => PinInv(s, i);
    case LSetParams(i, u) =>
  }

  // ---------------------------------------------------------------------------
  // Runs

  ghost predicate Step(s: State, l: Label, s': State) {
    s.par.aging > 0 && Enabled(s, l) && s' == Apply(s, l)
  }

  /** `ss[i+1]` follows from `ss[i]` by step `ls[i]`. */
  ghost predicate IsRun(ss: seq<State>, ls: seq<Label>) {
    |ss| == |ls| + 1 && forall i :: 0 <= i < |ls| ==> Step(ss[i], ls[i], ss[i + 1])
  }

  /** Every state of every run that starts in order is in order. */
  lemma {:induction false} RunInv(ss: seq<State>, ls: seq<Label>, n: nat)
    requires IsRun(ss, ls) && Inv(ss[0]) && n <= |ls|
    ensures Inv(ss[n])
  {
    if n > 0 {
      RunInv(ss, ls, n - 1);
      assert Step(ss[n - 1], ls[n - 1], ss[n - 1 + 1]);
      StepInv(ss[n - 1], ls[n - 1]);
    }
  }

  /** How many of the first `n` steps are scheduler passes. */
  ghost function Passes(ls: seq<Label>, n: nat): nat
    requires n <= |ls|
  {
    if n == 0 then 0 else Passes(ls, n - 1) + if ls[n - 1].LPass? then 1 else 0
  }

  /** An MLFQ pass with a RUNNABLE process always dispatches one, and none goes before it. */
  lemma PassDispatches(s: State, k: int, p: int)
    requires Inv(s) && s.par.rr == 0 && Enabled(s, LPass(k))
    requires IsSlot(s, p) && s.procs[p].state.Runnable?
    ensures 0 <= k < NPROC && Pass(s, k).procs[k].state.Running? && s.procs[k].state.Runnable?
    ensures Before(Prepared(s), s.par.aging, k, p)
  {
    assert Candidate(Prepared(s)[p]);
  }

  // ---------------------------------------------------------------------------
  // Waiting in MLFQ mode

  /** Slot `p` waits in queue `q`, and nothing below queue `q` is RUNNABLE. */
  ghost predicate WaitsAt(s: State, p: int, q: int) {
    && IsSlot(s, p) && s.procs[p].state.Runnable? && s.procs[p].queue == q
    && forall j :: 0 <= j < |s.procs| && s.procs[j].state.Runnable? ==> q <= s.procs[j].queue
  }

  /** The aging term puts `p` ahead of slot `j` for as long as both keep waiting. */
  ghost predicate Overtaken(s: State, p: int, a: int, j: int)
    requires IsSlot(s, p) && IsSlot(s, j)
  {
    s.procs[p].wait - s.procs[j].wait >= 51 * a
  }

  lemma MulMono(a: int, m: int, n: int)
    requires a > 0 && m <= n
    ensures a * m <= a * n
  {
    assert a * (n - m) >= 0;
  }

  lemma MulOrder(a: int, m: int, n: int)
    requires a > 0
    ensures a * m <= a * n <==> m <= n
  {
    if m <= n {
      MulMono(a, m, n);
    } else {
      MulMono(a, n + 1, m);
    }
  }

  lemma DivAtLeast(y: int, a: int, n: int)
    requires a > 0 && y >= a * n
    ensures y / a >= n
  {
    MulOrder(a, y / a + 1, n);
  }

  lemma AgingGap(x: int, y: int, a: int)
    requires a > 0 && y - x >= 51 * a
    ensures y / a >= x / a + 51
  {
    assert x == a * (x / a) + x % a;
    assert a * (x / a + 51) == a * (x / a) + 51 * a;
    DivAtLeast(y, a, x / a + 51);
  }

  /** A pass never dispatches a slot that `p` has overtaken. */
  lemma OvertakenNotPicked(s: State, k: int, p: int, q: int)
    requires Inv(s) && s.par.rr == 0 && !BoostDue(s) && Enabled(s, LPass(k)) && WaitsAt(s, p, q)
    ensures 0 <= k < NPROC && s.procs[k].queue == q
    ensures !Overtaken(s, p, s.par.aging, k)
  {
    var a := s.par.aging;
    PassDispatches(s, k, p);
    if Overtaken(s, p, a, k) {
      AgingGap(s.procs[k].wait + 1, s.procs[p].wait + 1, a);
    }
  }

  ghost function OvertakenSet(s: State, p: int, a: int): set<nat>
    requires IsSlot(s, p)
  {
    set j: nat | j < |s.procs| && Overtaken(s, p, a, j)
  }

  /** Between passes nobody's wait grows, and a waiting process keeps its own. */
  lemma QuietStep(s: State, l: Label, p: int)
    requires Inv(s) && Enabled(s, l) && !l.LPass?
    requires IsSlot(s, p) && s.procs[p].state.Runnable? && Apply(s, l).procs[p].state.Runnable?
    ensures |Apply(s, l).procs| == |s.procs| && Apply(s, l).procs[p] == s.procs[p]
    ensures forall j :: 0 <= j < |s.procs| ==> Apply(s, l).procs[j].wait <= s.procs[j].wait
  {
  }

  /** A pass ages the waiting process, ages others no faster, and zeroes the one it picks. */
  lemma PassWaits(s: State, k: int, p: int)
    requires Inv(s) && Enabled(s, LPass(k)) && !BoostDue(s) && s.par.rr == 0
    requires IsSlot(s, p) && s.procs[p].state.Runnable? && 0 <= k < NPROC && k != p
    ensures var s' := Pass(s, k);
            && |s'.procs| == |s.procs|
            && s'.procs[p].wait == s.procs[p].wait + 1
            && s'.procs[k].wait == 0
            && forall j :: 0 <= j < |s.procs| ==> s'.procs[j].wait <= s.procs[j].wait + 1
  {
  }

  ghost predicate Waiting(s: State, p: int, q: int) {
    IsSlot(s, p) && s.procs[p].state.Runnable? && s.procs[p].queue == q
  }

  /**
    A boost-free MLFQ stretch with aging factor `a` in which slot `p` stays RUNNABLE in
    queue `q`, no pass sees a RUNNABLE process in a lower queue, and none dispatches `p`.
   */
  ghost predicate MlfqStretch(ss: seq<State>, ls: seq<Label>, p: int, q: int, a: int) {
    && IsRun(ss, ls) && Inv(ss[0])
    && (forall i :: 0 <= i < |ss| ==> Waiting(ss[i], p, q))
    && forall i :: 0 <= i < |ls| && ls[i].LPass? ==>
         ls[i].k != p && WaitsAt(ss[i], p, q) && !BoostDue(ss[i]) && ss[i].par.rr == 0 && ss[i].par.aging == a
  }

  lemma OvertakenGrows(s: State, s': State, p: int, a: int)
    requires IsSlot(s, p) && |s'.procs| == |s.procs|
    requires forall j :: 0 <= j < |s.procs| ==> s'.procs[j].wait - s.procs[j].wait <= s'.procs[p].wait - s.procs[p].wait
    ensures OvertakenSet(s, p, a) <= OvertakenSet(s', p, a)
  {
  }

  lemma SubsetSize(x: set<nat>, y: set<nat>)
    requires x <= y
    ensures |x| <= |y|
  {
    assert y == x + (y - x);
  }

  /** A late pass overtakes one slot more. */
  lemma LatePass(s: State, k: int, p: int, q: int)
    requires Inv(s) && Enabled(s, LPass(k)) && WaitsAt(s, p, q) && k != p && !BoostDue(s) && s.par.rr == 0
    requires s.procs[p].wait + 1 >= 51 * s.par.aging
    ensures IsSlot(Pass(s, k), p)
    ensures |OvertakenSet(Pass(s, k), p, s.par.aging)| > |OvertakenSet(s, p, s.par.aging)|
  {
    var a := s.par.aging;
    OvertakenNotPicked(s, k, p, q);
    PassWaits(s, k, p);
    var s' := Pass(s, k);
    OvertakenGrows(s, s', p, a);
    var j: nat := k;
    assert j in OvertakenSet(s', p, a) && j !in OvertakenSet(s, p, a);
    SubsetSize(OvertakenSet(s, p, a) + {j}, OvertakenSet(s', p, a));
  }

  /** What the count of passes so far amounts to in a state of the stretch. */
  ghost predicate Counted(s: State, p: int, a: int, passes: nat) {
    && IsSlot(s, p)
    && passes <= s.procs[p].wait
    && (s.procs[p].wait >= 51 * a ==> passes <= 51 * a + |OvertakenSet(s, p, a)|)
  }

  lemma CountPass(s: State, k: int, p: int, q: int, passes: nat)
    requires Inv(s) && Enabled(s, LPass(k)) && WaitsAt(s, p, q) && k != p && !BoostDue(s) && s.par.rr == 0
    requires Counted(s, p, s.par.aging, passes)
    ensures Counted(Pass(s, k), p, s.par.aging, passes + 1)
  {
    OvertakenNotPicked(s, k, p, q);
    PassWaits(s, k, p);
    if s.procs[p].wait + 1 >= 51 * s.par.aging {
      LatePass(s, k, p, q);
    }
  }

  lemma CountQuiet(s: State, l: Label, p: int, a: int, passes: nat)
    requires Inv(s) && Enabled(s, l) && !l.LPass?
    requires IsSlot(s, p) && s.procs[p].state.Runnable? && Apply(s, l).procs[p].state.Runnable?
    requires Counted(s, p, a, passes)
    ensures Counted(Apply(s, l), p, a, passes)
  {
    var s' := Apply(s, l);
    QuietStep(s, l, p);
    OvertakenGrows(s, s', p, a);
    SubsetSize(OvertakenSet(s, p, a), OvertakenSet(s', p, a));
  }

  lemma {:induction false} StretchCount(ss: seq<State>, ls: seq<Label>, p: int, q: int, a: int, n: nat)
    requires MlfqStretch(ss, ls, p, q, a) && n <= |ls| && a > 0
    ensures Counted(ss[n], p, a, Passes(ls, n))
  {
    hide Inv, Enabled, Apply, OvertakenSet;
    assert Waiting(ss[n], p, q);
    if n == 0 {
      InitialWait(ss[0], p);
    } else {
      StretchCount(ss, ls, p, q, a, n - 1);
      RunInv(ss, ls, n - 1);
      var s, l := ss[n - 1], ls[n - 1];
      assert Step(s, l, ss[n - 1 + 1]);
      assert Waiting(s, p, q);
      if l.LPass? {
        CountPass(s, l.k, p, q, Passes(ls, n - 1));
        PassIsApply(s, l.k);
      } else {
        CountQuiet(s, l, p, a, Passes(ls, n - 1));
      }
    }
  }

  lemma InitialWait(s: State, p: int)
    requires Inv(s) && IsSlot(s, p)
    ensures s.procs[p].wait >= 0
  {
    assert ProcOk(s.procs[p]);
  }

  lemma PassIsApply(s: State, k: int)
    requires s.par.aging > 0 && Enabled(s, LPass(k))
    ensures Apply(s, LPass(k)) == Pass(s, k)
  {
  }

  lemma {:induction false} SlotCount(n: nat, x: set<nat>)
    requires forall i <- x :: i < n
    ensures |x| <= n
  {
    if x != {} {
      var e :| e in x;
      SlotCount(n - 1, x - {n - 1});
    }
  }

  lemma TableSize(s: State)
    requires Inv(s)
    ensures |s.procs| == NPROC
  {
  }

  /**
    Bounded waiting. Such a stretch has fewer than 51 * a + NPROC passes, whatever the
    other processes do: before that many, the waiting process is dispatched.
   */
  lemma MlfqBoundedWaiting(ss: seq<State>, ls: seq<Label>, p: int, q: int, a: int)
    requires MlfqStretch(ss, ls, p, q, a) && a > 0
    ensures Passes(ls, |ls|) < 51 * a + NPROC
  {
    hide Inv;
    var e := ss[|ls|];
    StretchCount(ss, ls, p, q, a, |ls|);
    RunInv(ss, ls, |ls|);
    assert Waiting(e, p, q);
    TableSize(e);
    var i: nat := p;
    SlotCount(NPROC, OvertakenSet(e, p, a) + {i});
  }

  // ---------------------------------------------------------------------------
  // Waiting in round-robin mode

  /** While round-robin is on, slot `p` stays RUNNABLE and no pass dispatches it. */
  ghost predicate RrStretch(ss: seq<State>, ls: seq<Label>, p: int) {
    && IsRun(ss, ls) && Inv(ss[0])
    && (forall i :: 0 <= i < |ss| ==> IsSlot(ss[i], p) && ss[i].procs[p].state.Runnable?)
    && forall i :: 0 <= i < |ls| && ls[i].LPass? ==> ss[i].par.rr != 0 && ls[i].k != p
  }

  /** Each pick moves the rotation closer to a waiting slot it does not pick. */
  lemma RrCloser(s: State, k: int, p: int)
    requires Inv(s) && s.par.rr != 0 && Enabled(s, LPass(k)) && k != p
    requires IsSlot(s, p) && s.procs[p].state.Runnable?
    ensures Distance(Pass(s, k).rrNext, p) < Distance(s.rrNext, p)
  {
    assert Prepared(s)[p].state.Runnable?;
  }

  lemma {:induction false} RrCount(ss: seq<State>, ls: seq<Label>, p: int, n: nat)
    requires RrStretch(ss, ls, p) && n <= |ls|
    ensures Passes(ls, n) + Distance(ss[n].rrNext, p) <= Distance(ss[0].rrNext, p)
  {
    if n > 0 {
      RrCount(ss, ls, p, n - 1);
      RunInv(ss, ls, n - 1);
      assert Step(ss[n - 1], ls[n - 1], ss[n - 1 + 1]);
      if ls[n - 1].LPass? {
        RrCloser(ss[n - 1], ls[n - 1].k, p);
      }
    }
  }

  /** Round-robin dispatches any process that stays RUNNABLE within NPROC picks. */
  lemma RrBoundedWaiting(ss: seq<State>, ls: seq<Label>, p: int)
    requires RrStretch(ss, ls, p)
    ensures Passes(ls, |ls|) < NPROC
  {
    RrCount(ss, ls, p, |ls|);
    RunInv(ss, ls, |ls|);
  }
}
