/**
  One sleep lock (sleeplock.c) with sleep and wakeup (proc.c), as a machine whose steps are
  the stretches between operations on its inner spin lock and on the process table's lock.
  Any number of processes use it, in any interleaving, with spurious wakeups.
 */
module SleepLock {

  /**
    Where a process is. acquiresleep: `Want` the spin lock, `Test` the flag, `NeedPt` the
    table lock to sleep, `Both` locks held, `Dozing` with the spin lock released, `Asleep`,
    `Woken`, `Resumed` by the scheduler, `Take` the free lock, `Taken`, then `Hold` outside.
    releasesleep: `WantR`, `Clear` the flag, `WakeWant` the table lock, `Waking`, `Woke`.
   */
  datatype Pc = Out | Want | Test | NeedPt | Both | Dozing | Asleep | Woken | Resumed | Take | Taken | Hold
              | WantR | Clear | WakeWant | Waking | Woke

  const FREE := -1
  /** The table lock is with the scheduler or with a process that is about something else. */
  const OTHER := -2

  /** `inner` and `pt` are who holds the two spin locks; `locked` and `pid` are the lock's fields. */
  datatype State = State(pcs: seq<Pc>, inner: int, pt: int, locked: bool, pid: int)

  datatype Label =
    | Step(p: nat)
    | Spurious(p: nat)
    | OtherTakes
    | OtherDrops

  /** What process `p` does next, if it can. */
  predicate CanStep(s: State, p: nat) {
    p < |s.pcs| &&
    match s.pcs[p]
    case Want => s.inner == FREE
    case WantR => s.inner == FREE
    case NeedPt => s.pt == FREE
    case Woken => s.pt == FREE
    case WakeWant => s.pt == FREE
    case Asleep => false
    case _ => true
  }

  function At(s: State, p: nat, pc: Pc): State
    requires p < |s.pcs|
  {
    s.(pcs := s.pcs[p := pc])
  }

  /** wakeup1: every process asleep on the lock becomes runnable. */
  function WakeAll(pcs: seq<Pc>): (r: seq<Pc>)
    ensures |r| == |pcs|
    ensures forall p :: 0 <= p < |pcs| ==> r[p] == if pcs[p].Asleep? then Woken else pcs[p]
  {
    if pcs == [] then [] else [if pcs[0].Asleep? then Woken else pcs[0]] + WakeAll(pcs[1..])
  }

  /** The scan of wakeup1 over the process table, for the processes that use this lock. */
  method Wakeup1(pcs: array<Pc>)
    modifies pcs
    ensures pcs[..] == WakeAll(old(pcs[..]))
  {
    for p := 0 to pcs.Length
      invariant forall q :: 0 <= q < pcs.Length ==>
                  pcs[q] == if q < p && old(pcs[q]).Asleep? then Woken else old(pcs[q])
    {
      if pcs[p].Asleep? {
        pcs[p] := Woken;
      }
    }
  }

  function Stepped(s: State, p: nat): (t: State)
    requires CanStep(s, p)
    ensures |t.pcs| == |s.pcs|
  {
    match s.pcs[p]
    case Out => At(s, p, Want)
    case Want => At(s, p, Test).(inner := p)
    case Test => At(s, p, if s.locked then NeedPt else Take)
    case NeedPt => At(s, p, Both).(pt := p)
    case Both => At(s, p, Dozing).(inner := FREE)
    case Dozing => At(s, p, Asleep).(pt := OTHER)
    case Asleep => s
    case Woken => At(s, p, Resumed).(pt := p)
    case Resumed => At(s, p, Want).(pt := FREE)
    case Take => At(s, p, Taken).(locked := true, pid := p)
    case Taken => At(s, p, Hold).(inner := FREE)
    case Hold => At(s, p, WantR)
    case WantR => At(s, p, Clear).(inner := p)
    case Clear => At(s, p, WakeWant).(locked := false, pid := FREE)
    case WakeWant => At(s, p, Waking).(pt := p)
    case Waking => State(WakeAll(s.pcs)[p := Woke], s.inner, FREE, s.locked, s.pid)
    case Woke => At(s, p, Out).(inner := FREE)
  }

  predicate Enabled(s: State, l: Label) {
    match l
    case Step(p) => CanStep(s, p)
    case Spurious(p) => p < |s.pcs| && s.pcs[p].Asleep? && s.pt == OTHER
    case OtherTakes => s.pt == FREE
    case OtherDrops => s.pt == OTHER
  }

  function Apply(s: State, l: Label): (t: State)
    requires Enabled(s, l)
    ensures |t.pcs| == |s.pcs|
  {
    match l
    case Step(p) => Stepped(s, p)
    case Spurious(p) => At(s, p, Woken)
    case OtherTakes => s.(pt := OTHER)
    case OtherDrops => s.(pt := FREE)
  }

  // ---------------------------------------------------------------------------
  // Invariant

  predicate HasInner(pc: Pc) {
    pc.Test? || pc.NeedPt? || pc.Both? || pc.Take? || pc.Taken? || pc.Clear? || pc.WakeWant? || pc.Waking? || pc.Woke?
  }

  predicate HasPt(pc: Pc) {
    pc.Both? || pc.Dozing? || pc.Resumed? || pc.Waking?
  }

  /** Between the test that the lock is free and the clearing of its flag. */
  predicate Owns(pc: Pc) {
    pc.Taken? || pc.Hold? || pc.WantR? || pc.Clear?
  }

  /** About to wake the sleepers. */
  predicate WillWake(pc: Pc) {
    pc.WakeWant? || pc.Waking?
  }

  /** Asleep on the lock, or on the way there after the test. */
  predicate Sleepy(pc: Pc) {
    pc.NeedPt? || pc.Both? || pc.Dozing? || pc.Asleep?
  }

  predicate ProcOk(s: State, p: nat)
    requires p < |s.pcs|
  {
    var pc := s.pcs[p];
    && (HasInner(pc) <==> s.inner == p)
    && (HasPt(pc) <==> s.pt == p)
    && (Owns(pc) <==> s.locked && s.pid == p)
    && (pc.NeedPt? || pc.Both? ==> s.locked)
    && (pc.Take? || pc.WakeWant? || pc.Waking? || pc.Woke? ==> !s.locked)
    && (pc.Dozing? || pc.Asleep? ==> s.locked || (0 <= s.inner < |s.pcs| && WillWake(s.pcs[s.inner])))
  }

  predicate Inv(s: State) {
    && (forall p :: 0 <= p < |s.pcs| ==> ProcOk(s, p))
    && (s.inner == FREE || 0 <= s.inner < |s.pcs|)
    && (s.pt == FREE || s.pt == OTHER || 0 <= s.pt < |s.pcs|)
    && (s.locked ==> 0 <= s.pid < |s.pcs|)
  }

  /** The process that moves. */
  lemma MoverOk(s: State, p: nat)
    requires Inv(s) && CanStep(s, p) && ProcOk(s, p)
    ensures ProcOk(Stepped(s, p), p)
  {
  }

  /** Any other process; what it relies on is held by whoever has the spin locks. */
  lemma OtherOk(s: State, p: nat, q: nat)
    requires CanStep(s, p) && q < |s.pcs| && q != p && ProcOk(s, p) && ProcOk(s, q)
    requires 0 <= s.inner < |s.pcs| ==> ProcOk(s, s.inner)
    ensures ProcOk(Stepped(s, p), q)
  {
  }

  lemma StepInv(s: State, l: Label)
    requires Inv(s) && Enabled(s, l)
    ensures Inv(Apply(s, l))
  {
    if l.Step? {
      assert ProcOk(s, l.p);
      BoundsOk(s, l.p);
      MoverOk(s, l.p);
      forall q | 0 <= q < |s.pcs| && q != l.p
        ensures ProcOk(Stepped(s, l.p), q)
      {
        OtherOk(s, l.p, q);
      }
      hide ProcOk, Stepped, CanStep;
    } else {
      forall q | 0 <= q < |s.pcs|
        ensures ProcOk(Apply(s, l), q)
      {
        assert ProcOk(s, q);
      }
    }
  }

  lemma BoundsOk(s: State, p: nat)
    requires Inv(s) && CanStep(s, p)
    ensures var t := Stepped(s, p);
            && (t.inner == FREE || 0 <= t.inner < |t.pcs|)
            && (t.pt == FREE || t.pt == OTHER || 0 <= t.pt < |t.pcs|)
            && (t.locked ==> 0 <= t.pid < |t.pcs|)
  {
  }

  // ---------------------------------------------------------------------------
  // Runs

  predicate Init(s: State) {
    s.inner == FREE && s.pt == FREE && !s.locked && s.pid == FREE && forall p :: 0 <= p < |s.pcs| ==> s.pcs[p] == Out
  }

  predicate IsRun(s: State, ls: seq<Label>)
    decreases |ls|
  {
    ls == [] || (Enabled(s, ls[0]) && IsRun(Apply(s, ls[0]), ls[1..]))
  }

  function RunEnd(s: State, ls: seq<Label>): (t: State)
    requires IsRun(s, ls)
    ensures |t.pcs| == |s.pcs|
    decreases |ls|
  {
    if ls == [] then s else RunEnd(Apply(s, ls[0]), ls[1..])
  }

  lemma {:induction false} RunInv(s: State, ls: seq<Label>)
    requires Inv(s) && IsRun(s, ls)
    ensures Inv(RunEnd(s, ls))
    decreases |ls|
  {
    if ls != [] {
      StepInv(s, ls[0]);
      RunInv(Apply(s, ls[0]), ls[1..]);
    }
  }

  /** Holding the lock, as a caller sees it: from the return of acquiresleep to the call of releasesleep. */
  predicate Inside(pc: Pc) {
    pc.Hold?
  }

  /** Over all interleavings: at most one process is inside. */
  lemma MutualExclusion(s: State, ls: seq<Label>, p: nat, q: nat)
    requires Init(s) && IsRun(s, ls)
    requires p < |RunEnd(s, ls).pcs| && q < |RunEnd(s, ls).pcs| && Inside(RunEnd(s, ls).pcs[p])
             && Inside(RunEnd(s, ls).pcs[q])
    ensures p == q && RunEnd(s, ls).locked && RunEnd(s, ls).pid == p
  {
    RunInv(s, ls);
    assert ProcOk(RunEnd(s, ls), p) && ProcOk(RunEnd(s, ls), q);
  }

  /** Over all interleavings: when the lock is free and its spin lock too, no process sleeps on it or is about to. */
  lemma NoLostWakeup(s: State, ls: seq<Label>, p: nat)
    requires Init(s) && IsRun(s, ls) && p < |RunEnd(s, ls).pcs|
    requires !RunEnd(s, ls).locked && RunEnd(s, ls).inner == FREE
    ensures !Sleepy(RunEnd(s, ls).pcs[p])
  {
    RunInv(s, ls);
    assert ProcOk(RunEnd(s, ls), p);
  }

  /** The other holder of the table lock, if there is one, gives it up: it never waits for this lock. */
  function OtherGone(s: State): State {
    if s.pt == OTHER then Apply(s, OtherDrops) else s
  }

  /**
    Over all interleavings: unless no process uses the lock, some process that does can go
    on, at once or when the other holder of the table lock has given it up.
   */
  lemma NoDeadlock(s: State, ls: seq<Label>, p: nat) returns (q: nat)
    requires Init(s) && IsRun(s, ls) && p < |RunEnd(s, ls).pcs| && RunEnd(s, ls).pcs[p] != Out
    ensures CanStep(OtherGone(RunEnd(s, ls)), q) && RunEnd(s, ls).pcs[q] != Out
  {
    var t := RunEnd(s, ls);
    RunInv(s, ls);
    assert ProcOk(t, p);
    if t.pt >= 0 {
      q := t.pt;
      assert ProcOk(t, q);
    } else if t.inner >= 0 {
      q := t.inner;
      assert ProcOk(t, q);
    } else if t.locked {
      q := t.pid;
      assert ProcOk(t, q);
    } else {
      q := p;
    }
  }

  lemma {:induction false} RunPid(s: State, ls: seq<Label>)
    requires IsRun(s, ls) && (!s.locked ==> s.pid == FREE)
    ensures !RunEnd(s, ls).locked ==> RunEnd(s, ls).pid == FREE
    decreases |ls|
  {
    if ls != [] {
      RunPid(Apply(s, ls[0]), ls[1..]);
    }
  }

  /** Over all interleavings: the lock names its owner, the one process between taking and clearing it, or none. */
  lemma NamesOwner(s: State, ls: seq<Label>, p: nat)
    requires Init(s) && IsRun(s, ls) && p < |s.pcs|
    ensures var t := RunEnd(s, ls); (Owns(t.pcs[p]) <==> t.locked && t.pid == p) && (!t.locked ==> t.pid == FREE)
  {
    RunInv(s, ls);
    RunPid(s, ls);
    assert ProcOk(RunEnd(s, ls), p);
  }

  // ---------------------------------------------------------------------------
  // Who comes out has held the lock

  /** Process `p` holds the lock in some state of the run. */
  predicate PassesHold(s: State, ls: seq<Label>, p: nat)
    requires IsRun(s, ls) && p < |s.pcs|
    decreases |ls|
  {
    Inside(s.pcs[p]) || (ls != [] && PassesHold(Apply(s, ls[0]), ls[1..], p))
  }

  /** In acquiresleep, asleep or not, and not yet back from it. */
  predicate Acquiring(pc: Pc) {
    Sleepy(pc) || pc.Want? || pc.Test? || pc.Woken? || pc.Resumed? || pc.Take? || pc.Taken?
  }

  lemma {:induction false} AcquiringHolds(s: State, ls: seq<Label>, p: nat)
    requires IsRun(s, ls) && p < |s.pcs| && Acquiring(s.pcs[p])
    ensures Acquiring(RunEnd(s, ls).pcs[p]) || PassesHold(s, ls, p)
    decreases |ls|
  {
    if ls != [] {
      var t := Apply(s, ls[0]);
      assert Acquiring(t.pcs[p]) || Inside(t.pcs[p]);
      if Acquiring(t.pcs[p]) {
        AcquiringHolds(t, ls[1..], p);
      } else {
        assert PassesHold(t, ls[1..], p);
      }
    }
  }

  /**
    Over all interleavings: a process that goes in, whether it sleeps or not, and comes out
    again has held the lock on the way.
   */
  lemma {:induction false} OutAgainHeld(s: State, ls: seq<Label>, p: nat)
    requires IsRun(s, ls) && p < |s.pcs| && s.pcs[p].Out?
    ensures RunEnd(s, ls).pcs[p].Out? && Step(p) in ls ==> PassesHold(s, ls, p)
    decreases |ls|
  {
    if ls != [] {
      if ls[0] == Step(p) {
        AcquiringHolds(Apply(s, ls[0]), ls[1..], p);
      } else {
        OutAgainHeld(Apply(s, ls[0]), ls[1..], p);
      }
    }
  }
}
