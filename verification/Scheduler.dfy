/** The scheduler's loops over the process table, proved against the steps of Sched. */
module Scheduler {
  import opened Sched
  import opened SchedProof

  class Table {
    const procs: array<Proc>
    var par: Params
    var ticks: int
    var lastBoost: int
    var rrNext: int
    var nextPid: nat
    ghost var pinned: bool

    ghost predicate Valid()
      reads this, procs
    {
      procs.Length == NPROC && 0 <= rrNext < NPROC && par.aging > 0
    }

    ghost function St(): State
      reads this, procs
    {
      State(procs[..], par, ticks, lastBoost, rrNext, nextPid, pinned)
    }

    /** pinit, on the zeroed table the kernel starts with. */
    constructor ()
      ensures Valid() && fresh(procs) && Init(St())
    {
      procs := new Proc[NPROC](_ => Proc(Unused, 0, 0, 0, 0, 0, 0, 0, 0, 0, 0, 0, false));
      par := InitialParams();
      ticks, lastBoost, rrNext, nextPid, pinned := 0, 0, 0, 1, false;
    }

    /** Step 1: every process that exists goes to queue 0 with a fresh quantum. */
    method Boost(q0: int)
      requires Valid()
      modifies procs
      ensures procs[..] == BoostAll(old(procs[..]), q0)
    {
      for i := 0 to procs.Length
        invariant forall j :: 0 <= j < i ==> procs[j] == Boosted(old(procs[..])[j], q0)
        invariant forall j :: i <= j < procs.Length ==> procs[j] == old(procs[..])[j]
      {
        if !procs[i].state.Unused? {
          procs[i] := procs[i].(queue := 0, remaining := q0, wait := 0);
        }
      }
    }

    /** Step 2: every RUNNABLE process has waited one pass more. */
    method Age()
      requires Valid()
      modifies procs, this`par
      ensures procs[..] == AgeAll(old(procs[..]))
      ensures par == if Starving(procs[..]) && old(par).alert == 0 then old(par).(alert := 1) else old(par)
    {
      for i := 0 to procs.Length
        invariant forall j :: 0 <= j < i ==> procs[j] == Aged(old(procs[..])[j])
        invariant forall j :: i <= j < procs.Length ==> procs[j] == old(procs[..])[j]
        invariant par == if old(par).alert == 0 && Starving(procs[..i]) then old(par).(alert := 1) else old(par)
      {
        if procs[i].state.Runnable? {
          procs[i] := procs[i].(wait := procs[i].wait + 1);
          if procs[i].wait > 100 && par.alert == 0 {
            par := par.(alert := 1);
          }
        }
        StarvingNext(procs[..i + 1], i);
        assert procs[..i + 1][..i] == procs[..i];
      }
      assert procs[..procs.Length] == procs[..];
    }

    /** Step 3, round-robin: the first RUNNABLE slot from rrNext on. */
    method SelectRr() returns (k: int)
      requires Valid()
      modifies this`rrNext
      ensures Valid() && -1 <= k < NPROC && RrPick(procs[..], old(rrNext), k)
      ensures rrNext == if k < 0 then old(rrNext) else if k + 1 == NPROC then 0 else k + 1
    {
      for i := 0 to NPROC
        invariant rrNext == old(rrNext)
        invariant forall j :: 0 <= j < NPROC && Distance(rrNext, j) < i ==> !procs[j].state.Runnable?
      {
        var j := (rrNext + i) % NPROC;
        assert Distance(rrNext, j) == i;
        assert forall m :: 0 <= m < NPROC && Distance(rrNext, m) == i ==> m == j;
        if procs[j].state.Runnable? {
          rrNext := (j + 1) % NPROC;
          return j;
        }
      }
      return -1;
    }

    /** One scan of a queue: the RUNNABLE process with the least score, the first of equals. */
    method ScanQueue(q: int) returns (k: int)
      requires Valid()
      modifies procs
      ensures procs[..] == ScoreQueue(old(procs[..]), q, par.aging)
      ensures -1 <= k < NPROC
      ensures k == -1 ==> forall i :: 0 <= i < NPROC ==> !(procs[i].state.Runnable? && procs[i].queue == q)
      ensures k >= 0 ==>
                && procs[k].state.Runnable? && procs[k].queue == q
                && forall i :: 0 <= i < NPROC && procs[i].state.Runnable? && procs[i].queue == q ==>
                     Score(procs[k], par.aging) < Score(procs[i], par.aging)
                     || (Score(procs[k], par.aging) == Score(procs[i], par.aging) && k <= i)
    {
      k := -1;
      ghost var ps := procs[..];
      ghost var scored := ScoreQueue(ps, q, par.aging);
      for i := 0 to NPROC
        invariant -1 <= k < i
        invariant forall j :: 0 <= j < i ==> procs[j] == scored[j]
        invariant forall j :: i <= j < NPROC ==> procs[j] == ps[j]
        invariant k == -1 ==> forall j :: 0 <= j < i ==> !(ps[j].state.Runnable? && ps[j].queue == q)
        invariant k >= 0 ==>
                    && ps[k].state.Runnable? && ps[k].queue == q
                    && forall j :: 0 <= j < i && ps[j].state.Runnable? && ps[j].queue == q ==>
                         Score(ps[k], par.aging) < Score(ps[j], par.aging)
                         || (Score(ps[k], par.aging) == Score(ps[j], par.aging) && k <= j)
      {
        if procs[i].state.Runnable? && procs[i].queue == q {
          procs[i] := procs[i].(score := Score(procs[i], par.aging));
          if k == -1 || procs[i].score < procs[k].score {
            k := i;
          }
        }
      }
    }

    /** Step 3, MLFQ: scan the queues in order and stop at the first with a RUNNABLE process. */
    method SelectMlfq() returns (k: int)
      requires Valid()
      modifies procs
      ensures -1 <= k < NPROC && MlfqPick(old(procs[..]), par.aging, k)
      ensures procs[..] == if k >= 0 then ScoreQueue(old(procs[..]), old(procs[..])[k].queue, par.aging)
                           else old(procs[..])
    {
      ghost var ps := procs[..];
      k := -1;
      for q := 0 to 3
        invariant k == -1 && procs[..] == ps
        invariant forall i :: 0 <= i < NPROC && ps[i].state.Runnable? ==> !(0 <= ps[i].queue < q)
      {
        k := ScanQueue(q);
        if k >= 0 {
          ScanIsPick(ps, procs[..], par.aging, q, k);
          return;
        }
        ScanEmpty(ps, procs[..], par.aging, q);
      }
    }

    /** Step 4: the chosen process gets a quantum and the CPU. */
    method Dispatch(k: int)
      requires Valid() && 0 <= k < NPROC
      modifies procs
      ensures procs[..] == old(procs[..])[k := Dispatched(old(procs[..])[k], par, ticks)]
    {
      var p := procs[k].(wait := 0, burstStart := ticks);
      if p.queue == 0 {
        p := p.(remaining := par.q0);
      } else if p.queue == 1 {
        p := p.(remaining := par.q1);
      } else {
        p := p.(remaining := par.q2);
      }
      procs[k] := p.(state := Running);
    }

    /** One turn of the scheduler loop carries out one pass of the machine. */
    method RunPass() returns (k: int)
      requires Valid()
      modifies this, procs
      ensures Valid() && -1 <= k < NPROC
      ensures Picks(old(St()), k) && St() == Pass(old(St()), k)
    {
      ghost var s := St();
      if ticks - lastBoost >= par.boost {
        Boost(par.q0);
        lastBoost := ticks;
      }
      Age();
      assert procs[..] == Prepared(s);
      if par.rr != 0 {
        k := SelectRr();
      } else {
        k := SelectMlfq();
      }
      if k >= 0 {
        Dispatch(k);
      }
    }

    /** The timer branch of trap for running process `i`. */
    method TimerTick(i: int)
      requires Valid() && 0 <= i < NPROC && Enabled(St(), LTick(i))
      modifies procs
      ensures St() == Apply(old(St()), LTick(i))
    {
      var p := procs[i].(remaining := procs[i].remaining - 1, inTrap := true);
      if p.remaining <= 0 {
        var burst := ticks - p.burstStart;
        p := p.(emaFast := p.emaFast + TruncDiv(par.alphaFast * (burst * 100 - p.emaFast), 100));
        p := p.(emaSlow := p.emaSlow + TruncDiv(par.alphaSlow * (burst * 100 - p.emaSlow), 100));
        if p.emaFast > MAX_EMA { p := p.(emaFast := MAX_EMA); }
        if p.emaSlow > MAX_EMA { p := p.(emaSlow := MAX_EMA); }
        if p.emaFast < 0 { p := p.(emaFast := 0); }
        if p.emaSlow < 0 { p := p.(emaSlow := 0); }
        p := p.(variance := p.emaFast - p.emaSlow);
        if p.variance < 0 { p := p.(variance := -p.variance); }
        p := p.(preemptCount := p.preemptCount + 1);
        if p.queue < 2 && (par.agentPid == 0 || p.pid != par.agentPid) {
          p := p.(queue := p.queue + 1);
        }
      }
      procs[i] := p;
    }

    /** sys_setschedparam called by process `i`; the result is the system call's. */
    method SetSchedParam(i: int, u: Update) returns (r: int)
      requires Valid() && 0 <= i < NPROC
      modifies this`par
      ensures r == 0 <==> old(par).agentPid != 0 && procs[i].pid == old(par).agentPid && Accepts(u)
      ensures r == 0 || r == -1
      ensures par == if r == 0 then Updated(old(par), u) else old(par)
    {
      if par.agentPid == 0 || procs[i].pid != par.agentPid { return -1; }
      if u.q0 < 1 || u.q0 > 10 { return -1; }
      if u.q1 < 1 || u.q1 > 20 { return -1; }
      if u.q2 < 1 || u.q2 > 40 { return -1; }
      if u.boost < 10 || u.boost > 500 { return -1; }
      if u.alphaFast < 1 || u.alphaFast > 90 { return -1; }
      if u.alphaSlow < 1 || u.alphaSlow > 50 { return -1; }
      if u.aging < 1 || u.aging > 100 { return -1; }
      if u.alphaSlow >= u.alphaFast { return -1; }
      if u.q1 < u.q0 || u.q2 < u.q1 { return -1; }
      if u.rr != 0 && u.rr != 1 { return -1; }
      par := par.(q0 := u.q0, q1 := u.q1, q2 := u.q2, boost := u.boost,
                  alphaFast := u.alphaFast, alphaSlow := u.alphaSlow, aging := u.aging, alert := 0, rr := u.rr);
      return 0;
    }

    /** allocproc: the first UNUSED slot, made fresh, or -1. */
    method AllocProc() returns (k: int)
      requires Valid()
      modifies procs, this`nextPid
      ensures -1 <= k < NPROC
      ensures k == -1 ==> St() == old(St()) && forall i :: 0 <= i < NPROC ==> !procs[i].state.Unused?
      ensures k >= 0 ==> Enabled(old(St()), LAlloc(k)) && St() == Apply(old(St()), LAlloc(k))
    {
      k := 0;
      while k < NPROC
        invariant 0 <= k <= NPROC
        invariant forall i :: 0 <= i < k ==> !procs[i].state.Unused?
      {
        if procs[k].state.Unused? {
          procs[k] := procs[k].(state := Embryo, pid := nextPid, queue := 0, remaining := 1, wait := 0,
                                emaFast := 100, emaSlow := 100, burstStart := 0, yieldCount := 0,
                                preemptCount := 0, variance := 0, score := 0, inTrap := false);
          nextPid := nextPid + 1;
          return;
        }
        k := k + 1;
      }
      k := -1;
    }
  }

  /** A queue without RUNNABLE processes gets no scores. */
  lemma ScanEmpty(ps: seq<Proc>, scored: seq<Proc>, aging: int, q: int)
    requires aging > 0 && scored == ScoreQueue(ps, q, aging)
    requires forall i :: 0 <= i < |ps| ==> !(scored[i].state.Runnable? && scored[i].queue == q)
    ensures scored == ps
    ensures forall i :: 0 <= i < |ps| && ps[i].state.Runnable? ==> ps[i].queue != q
  {
    forall i | 0 <= i < |ps|
      ensures scored[i] == ps[i] && !(ps[i].state.Runnable? && ps[i].queue == q)
    {
    }
  }

  /** The least score in the first queue with a RUNNABLE process is the least overall. */
  lemma ScanIsPick(ps: seq<Proc>, scored: seq<Proc>, aging: int, q: int, k: int)
    requires aging > 0 && scored == ScoreQueue(ps, q, aging) && 0 <= k < |ps| && 0 <= q <= 2
    requires scored[k].state.Runnable? && scored[k].queue == q
    requires forall i :: 0 <= i < |ps| && ps[i].state.Runnable? ==> !(0 <= ps[i].queue < q)
    requires forall i :: 0 <= i < |ps| && scored[i].state.Runnable? && scored[i].queue == q ==>
               Score(scored[k], aging) < Score(scored[i], aging)
               || (Score(scored[k], aging) == Score(scored[i], aging) && k <= i)
    ensures MlfqPick(ps, aging, k) && ps[k].queue == q
  {
    forall i | 0 <= i < |ps| && Candidate(ps[i])
      ensures Before(ps, aging, k, i)
    {
      assert Score(scored[i], aging) == Score(ps[i], aging) && scored[i].queue == ps[i].queue;
      assert Score(scored[k], aging) == Score(ps[k], aging);
    }
  }

  lemma StarvingNext(ps: seq<Proc>, i: nat)
    requires |ps| == i + 1
    ensures Starving(ps) <==> Starving(ps[..i]) || (ps[i].state.Runnable? && ps[i].wait > 100)
  {
    if Starving(ps[..i]) {
      var j :| 0 <= j < i && ps[..i][j].state.Runnable? && ps[..i][j].wait > 100;
      assert ps[j].state.Runnable? && ps[j].wait > 100;
    }
    if Starving(ps) {
      var j :| 0 <= j < i + 1 && ps[j].state.Runnable? && ps[j].wait > 100;
      assert j < i ==> ps[..i][j] == ps[j];
    }
  }
}
