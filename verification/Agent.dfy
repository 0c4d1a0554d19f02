/**
  The scheduling agent sagent.c: the signals it computes from the telemetry, the rules of
  decide_and_update, and what its parameters can do over any sequence of epochs.
 */
module Agent {
  import opened Sched
  import opened SchedProof

  /** The telemetry fields the agent reads. */
  datatype Stat = Stat(runnable: bool, queue: int, wait: int, emaFast: int, emaSlow: int, yieldCount: int,
                       preemptCount: int, variance: int)

  // ---------------------------------------------------------------------------
  // Signals

  function SumYields(st: seq<Stat>): int {
    if st == [] then 0 else SumYields(st[..|st| - 1]) + st[|st| - 1].yieldCount
  }

  function SumPreempts(st: seq<Stat>): int {
    if st == [] then 0 else SumPreempts(st[..|st| - 1]) + st[|st| - 1].preemptCount
  }

  /** Counters only grow from zero, so the telemetry never holds a negative one. */
  ghost predicate CountsOk(st: seq<Stat>) {
    forall i :: 0 <= i < |st| ==> 0 <= st[i].yieldCount && 0 <= st[i].preemptCount
  }

  lemma {:induction false} SumsNonNegative(st: seq<Stat>)
    requires CountsOk(st)
    ensures SumYields(st) >= 0 && SumPreempts(st) >= 0
  {
    if st != [] {
      SumsNonNegative(st[..|st| - 1]);
    }
  }

  /** The share of yields among all context switches, in percent; 50 when there is no data. */
  function WorkloadType(st: seq<Stat>): int {
    var t := SumYields(st) + SumPreempts(st);
    if t <= 0 then 50 else SumYields(st) * 100 / t
  }

  method ComputeWorkloadType(st: seq<Stat>) returns (w: int)
    requires CountsOk(st)
    ensures w == WorkloadType(st) && 0 <= w <= 100
  {
    var totalYield, totalPreempt := 0, 0;
    for i := 0 to |st|
      invariant totalYield == SumYields(st[..i]) && totalPreempt == SumPreempts(st[..i])
    {
      assert st[..i + 1][..i] == st[..i];
      totalYield := totalYield + st[i].yieldCount;
      totalPreempt := totalPreempt + st[i].preemptCount;
    }
    assert st[..|st|] == st;
    SumsNonNegative(st);
    if totalYield + totalPreempt == 0 {
      return 50;
    }
    RatioBounds(totalYield, totalPreempt, 100);
    return totalYield * 100 / (totalYield + totalPreempt);
  }

  /** A share of the total is at most `c` percent if it is at most that much of it. */
  lemma RatioBounds(y: int, p: int, c: int)
    requires y >= 0 && p >= 0 && y + p > 0 && y * 100 <= c * (y + p)
    ensures 0 <= y * 100 / (y + p) <= c
  {
    var t := y + p;
    MulOrder(t, y * 100 / t, c);
  }

  // ---------------------------------------------------------------------------
  // The rules

  function Clamp(v: int, lo: int, hi: int): (r: int)
    requires lo <= hi
    ensures lo <= r <= hi && (lo <= v <= hi ==> r == v)
  {
    if v < lo then lo else if v > hi then hi else v
  }

  datatype Signals = Signals(avgWait: int, pressure: int, workload: int, phaseChange: bool, abuse: bool)

  /** The agent's current parameters and its counters of consecutive epochs. */
  datatype Knobs = Knobs(q0: int, q1: int, q2: int, boost: int, af: int, as_: int, aging: int,
                         c1: nat, c2: nat, c3: nat, c4: nat, c6: nat)

  const START := Knobs(4, 6, 8, 500, 50, 10, 50, 0, 0, 0, 0, 0)

  function Count(cond: bool, c: nat): nat {
    if cond then c + 1 else 0
  }

  function Decide(k: Knobs, s: Signals): Knobs
    requires k.as_ + 1 <= 90
  {
    var c1 := Count(s.pressure > 40, k.c1);
    var boost1 := if c1 >= 1 then Clamp(k.boost - 20, 10, 500) else k.boost;
    var qa := if c1 >= 1 then Clamp(k.q0 - 1, 1, 10) else k.q0;
    var c2 := Count(s.workload > 70, k.c2);
    var qb := if c2 >= 2 then Clamp(qa + 1, 1, 10) else qa;
    var c3 := Count(s.workload < 30, k.c3);
    var q0 := if c3 >= 2 then Clamp(qb - 1, 1, 10) else qb;
    var c4 := Count(s.avgWait > 10, k.c4);
    var boost := if c4 >= 1 then Clamp(boost1 - 10, 10, 500) else boost1;
    var af := Clamp(if s.phaseChange then k.af + 10 else k.af - 5, k.as_ + 1, 90);
    var c6 := Count(s.abuse, k.c6);
    var aging := if c6 >= 2 then Clamp(k.aging - 3, 1, 100) else k.aging;
    var q1 := if k.q1 < q0 then q0 else k.q1;
    var q2 := if k.q2 < q1 then q1 else k.q2;
    Knobs(q0, q1, q2, boost, af, k.as_, aging, c1, c2, c3, c4, c6)
  }

  /** The seven fields the agent sends; it never sets the eighth. */
  function Sent(k: Knobs, rr: int): Update {
    Update(k.q0, k.q1, k.q2, k.boost, k.af, k.as_, k.aging, rr)
  }

  ghost predicate KnobsOk(k: Knobs) {
    && 1 <= k.q0 <= 10 && k.q0 <= k.q1 <= k.q2 && 6 <= k.q1 <= 10 && 8 <= k.q2 <= 10
    && 10 <= k.boost <= 500 && k.boost % 10 == 0
    && k.as_ == 10 && 11 <= k.af <= 90
    && 1 <= k.aging <= 50
  }

  lemma DecideOk(k: Knobs, s: Signals)
    requires KnobsOk(k)
    ensures KnobsOk(Decide(k, s))
    ensures Decide(k, s).boost <= k.boost && Decide(k, s).aging <= k.aging
    ensures Decide(k, s).q1 >= k.q1 && Decide(k, s).q2 >= k.q2
    ensures Decide(k, s).boost != k.boost ==> Decide(k, s).boost <= k.boost - 10
    ensures Decide(k, s).aging != k.aging ==> Decide(k, s).aging <= k.aging - 3 || Decide(k, s).aging == 1
  {
  }

  function Bit(b: bool, v: int): int {
    if b then v else 0
  }

  /** The mask decide_and_update returns, read off the counters it leaves. */
  function FiredMask(k: Knobs, s: Signals): int {
    Bit(k.c1 >= 1, 1) + Bit(k.c2 >= 2, 2) + Bit(k.c3 >= 2, 4) + Bit(k.c4 >= 1, 8) + Bit(s.phaseChange, 16)
    + Bit(k.c6 >= 2, 32)
  }

  class SchedAgent {
    var q0: int
    var q1: int
    var q2: int
    var boost: int
    var af: int
    var as_: int
    var aging: int
    var cnt: seq<nat>

    ghost predicate Valid()
      reads this
    {
      |cnt| == 6 && as_ + 1 <= 90
    }

    ghost function Now(): Knobs
      reads this
      requires Valid()
    {
      Knobs(q0, q1, q2, boost, af, as_, aging, cnt[0], cnt[1], cnt[2], cnt[3], cnt[5])
    }

    constructor ()
      ensures Valid() && Now() == START
    {
      q0, q1, q2, boost, af, as_, aging := 4, 6, 8, 500, 50, 10, 50;
      cnt := [0, 0, 0, 0, 0, 0];
    }

    /** Rules 1 to 3 of decide_and_update: queue pressure and the kind of workload. */
    method QueueRules(s: Signals) returns (fired: int)
      requires Valid()
      modifies this`boost, this`q0, this`cnt
      ensures |cnt| == 6 && cnt[3] == old(cnt)[3] && cnt[5] == old(cnt)[5]
      ensures var d := Decide(old(Now()), s);
              && q0 == d.q0 && cnt[0] == d.c1 && cnt[1] == d.c2 && cnt[2] == d.c3
              && fired == Bit(d.c1 >= 1, 1) + Bit(d.c2 >= 2, 2) + Bit(d.c3 >= 2, 4)
              && boost == if d.c1 >= 1 then Clamp(old(boost) - 20, 10, 500) else old(boost)
    {
      fired := 0;
      cnt := cnt[0 := if s.pressure > 40 then cnt[0] + 1 else 0];
      if cnt[0] >= 1 {
        boost := Clamp(boost - 20, 10, 500);
        q0 := Clamp(q0 - 1, 1, 10);
        fired := fired + 1;
      }
      cnt := cnt[1 := if s.workload > 70 then cnt[1] + 1 else 0];
      if cnt[1] >= 2 {
        q0 := Clamp(q0 + 1, 1, 10);
        fired := fired + 2;
      }
      cnt := cnt[2 := if s.workload < 30 then cnt[2] + 1 else 0];
      if cnt[2] >= 2 {
        q0 := Clamp(q0 - 1, 1, 10);
        fired := fired + 4;
      }
    }

    /** Rules 4 to 6: starvation, phase changes, gaming of the SJF score. */
    method StarvationRules(s: Signals) returns (fired: int)
      requires Valid()
      modifies this`boost, this`af, this`aging, this`cnt
      ensures |cnt| == 6 && forall i :: 0 <= i < 3 ==> cnt[i] == old(cnt)[i]
      ensures cnt[3] == Count(s.avgWait > 10, old(cnt)[3]) && cnt[5] == Count(s.abuse, old(cnt)[5])
      ensures fired == Bit(cnt[3] >= 1, 8) + Bit(s.phaseChange, 16) + Bit(cnt[5] >= 2, 32)
      ensures boost == if cnt[3] >= 1 then Clamp(old(boost) - 10, 10, 500) else old(boost)
      ensures af == Clamp(if s.phaseChange then old(af) + 10 else old(af) - 5, as_ + 1, 90)
      ensures aging == if cnt[5] >= 2 then Clamp(old(aging) - 3, 1, 100) else old(aging)
    {
      fired := 0;
      cnt := cnt[3 := if s.avgWait > 10 then cnt[3] + 1 else 0];
      if cnt[3] >= 1 {
        boost := Clamp(boost - 10, 10, 500);
        fired := fired + 8;
      }
      if s.phaseChange {
        af := Clamp(af + 10, as_ + 1, 90);
        fired := fired + 16;
      } else {
        af := Clamp(af - 5, as_ + 1, 90);
      }
      cnt := cnt[5 := if s.abuse then cnt[5] + 1 else 0];
      if cnt[5] >= 2 {
        aging := Clamp(aging - 3, 1, 100);
        fired := fired + 32;
      }
    }

    /** decide_and_update; the result is the mask of the rules that fired. */
    method DecideAndUpdate(s: Signals) returns (fired: int)
      requires Valid()
      modifies this
      ensures Valid() && Now() == Decide(old(Now()), s)
      ensures fired == FiredMask(Now(), s)
    {
      fired := QueueRules(s);
      var more := StarvationRules(s);
      fired := fired + more;
      if q1 < q0 { q1 := q0; }
      if q2 < q1 { q2 := q1; }
    }
  }

  // ---------------------------------------------------------------------------
  // Any sequence of epochs

  /** The parameters after `n` epochs of the given signals. */
  ghost function At(sig: nat -> Signals, n: nat): (k: Knobs)
    ensures KnobsOk(k)
  {
    if n == 0 then START
    else
      DecideOk(At(sig, n - 1), sig(n - 1));
      Decide(At(sig, n - 1), sig(n - 1))
  }

  /** Whatever the signals, every epoch's parameters pass the checks of setschedparam. */
  lemma AlwaysAccepted(sig: nat -> Signals, n: nat, rr: int)
    requires rr == 0 || rr == 1
    ensures Accepts(Sent(At(sig, n), rr))
  {
  }

  datatype Field = Boost | Aging | Q1 | Q2

  function Get(k: Knobs, f: Field): int {
    match f
    case Boost => k.boost
    case Aging => k.aging
    case Q1 => k.q1
    case Q2 => k.q2
  }

  /** In how many of the first `n` epochs a parameter changed. */
  ghost function Changes(sig: nat -> Signals, f: Field, n: nat): nat {
    if n == 0 then 0
    else Changes(sig, f, n - 1) + if Get(At(sig, n), f) != Get(At(sig, n - 1), f) then 1 else 0
  }

  /** The boost interval only shrinks, in at most 49 epochs. */
  lemma {:induction false} BoostChanges(sig: nat -> Signals, n: nat)
    ensures At(sig, n + 1).boost <= At(sig, n).boost
    ensures 10 * Changes(sig, Boost, n) + At(sig, n).boost <= 500
    ensures Changes(sig, Boost, n) <= 49
  {
    hide Decide;
    DecideOk(At(sig, n), sig(n));
    if n > 0 {
      BoostChanges(sig, n - 1);
      DecideOk(At(sig, n - 1), sig(n - 1));
    }
  }

  /** The aging factor only shrinks, in at most 17 epochs. */
  lemma {:induction false} AgingChanges(sig: nat -> Signals, n: nat)
    ensures At(sig, n + 1).aging <= At(sig, n).aging
    ensures 3 * Changes(sig, Aging, n) + At(sig, n).aging <= if At(sig, n).aging == 1 then 52 else 50
    ensures Changes(sig, Aging, n) <= 17
  {
    hide Decide;
    DecideOk(At(sig, n), sig(n));
    if n > 0 {
      AgingChanges(sig, n - 1);
      DecideOk(At(sig, n - 1), sig(n - 1));
    }
  }

  /** The lower quanta only grow, in at most 4 and 2 epochs. */
  lemma {:induction false} QuantumChanges(sig: nat -> Signals, n: nat)
    ensures At(sig, n + 1).q1 >= At(sig, n).q1 && At(sig, n + 1).q2 >= At(sig, n).q2
    ensures Changes(sig, Q1, n) + 6 <= At(sig, n).q1 && Changes(sig, Q2, n) + 8 <= At(sig, n).q2
    ensures Changes(sig, Q1, n) <= 4 && Changes(sig, Q2, n) <= 2
  {
    hide Decide;
    DecideOk(At(sig, n), sig(n));
    if n > 0 {
      QuantumChanges(sig, n - 1);
      DecideOk(At(sig, n - 1), sig(n - 1));
    }
  }

  // ---------------------------------------------------------------------------
  // Telemetry from the kernel

  function StatOf(p: Proc): Stat {
    Stat(p.state.Runnable?, p.queue, p.wait, p.emaFast, p.emaSlow, p.yieldCount, p.preemptCount, p.variance)
  }

  /** kern_getschedstats: the first `max` processes that exist, in table order. */
  function Snapshot(ps: seq<Proc>, max: nat): (st: seq<Stat>)
    ensures |st| <= max && |st| <= |ps|
  {
    if ps == [] || max == 0 then []
    else if ps[0].state.Unused? then Snapshot(ps[1..], max)
    else [StatOf(ps[0])] + Snapshot(ps[1..], max - 1)
  }

  /** What the scheduler's invariant says of one entry. */
  ghost predicate YieldsBounded(st: seq<Stat>) {
    forall i :: 0 <= i < |st| ==> 0 <= st[i].yieldCount <= st[i].preemptCount
  }

  lemma {:induction false} SnapshotBounded(ps: seq<Proc>, max: nat)
    requires forall i :: 0 <= i < |ps| ==> ProcOk(ps[i])
    ensures YieldsBounded(Snapshot(ps, max))
    decreases |ps|
  {
    if ps != [] && max != 0 {
      SnapshotBounded(ps[1..], if ps[0].state.Unused? then max else max - 1);
    }
  }

  lemma {:induction false} SumsBounded(st: seq<Stat>)
    requires YieldsBounded(st)
    ensures 0 <= SumYields(st) <= SumPreempts(st)
  {
    if st != [] {
      SumsBounded(st[..|st| - 1]);
    }
  }

  /** On kernel telemetry the workload signal never exceeds 50. */
  lemma WorkloadAtMostHalf(s: State, max: nat)
    requires Inv(s)
    ensures 0 <= WorkloadType(Snapshot(s.procs, max)) <= 50
  {
    var st := Snapshot(s.procs, max);
    SnapshotBounded(s.procs, max);
    SumsBounded(st);
    if SumYields(st) + SumPreempts(st) > 0 {
      RatioBounds(SumYields(st), SumPreempts(st), 50);
    }
  }

  /** Each epoch's workload signal was computed from some state of a scheduler run. */
  ghost predicate FromKernel(sig: nat -> Signals, seen: nat -> State) {
    forall n: nat :: Inv(seen(n)) && sig(n).workload == WorkloadType(Snapshot(seen(n).procs, NPROC))
  }

  ghost predicate NotRisen(k: Knobs) {
    KnobsOk(k) && k.q0 <= 4 && k.q1 == 6 && k.q2 == 8 && k.c2 == 0
  }

  lemma DecideNoRise(k: Knobs, s: Signals)
    requires NotRisen(k) && s.workload <= 70
    ensures NotRisen(Decide(k, s)) && Decide(k, s).q0 <= k.q0
  {
  }

  /** So rule 2 never fires, the queue 0 quantum never rises and the other two stay put. */
  lemma {:induction false} QuantaNeverRise(sig: nat -> Signals, seen: nat -> State, n: nat)
    requires FromKernel(sig, seen)
    ensures NotRisen(At(sig, n))
    ensures At(sig, n + 1).q0 <= At(sig, n).q0
  {
    hide Decide, Inv, WorkloadType, Snapshot;
    if n > 0 {
      QuantaNeverRise(sig, seen, n - 1);
      WorkloadAtMostHalf(seen(n - 1), NPROC);
      DecideNoRise(At(sig, n - 1), sig(n - 1));
    }
    WorkloadAtMostHalf(seen(n), NPROC);
    DecideNoRise(At(sig, n), sig(n));
  }
}
