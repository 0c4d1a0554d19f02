/**
  What operations have ended with is on disk: the last operation to end commits the group,
  the commit can always be carried through, and what is durable stays so.
 */
module LogDurable {
  import opened LogModel
  import opened LogProof

  /** Pending writes are listed, and the list outlives its operations only on its way into the log. */
  ghost predicate Due(s: State, a: Abs) {
    && (forall w <- a.pending :: w.b in s.lh)
    && (s.phase.Running? && s.ops == map[] ==> s.lh == [])
    && (s.phase.Finish? ==> s.lh == [])
    && (!s.phase.Running? && !s.phase.CopyLog? && !s.phase.WriteHead? ==> a.pending == [])
  }

  lemma DueStep(s: State, a: Abs, l: Label)
    requires Wf(s) && OpsOk(s, a) && Due(s, a) && Enabled(s, l)
    ensures Due(Apply(s, l), AbsNext(a, s, l))
  {
    match l
    case LLogWrite(op, b) => assert op in DoLogWrite(s, op, b).ops;
    case LEnd(op) => assert a.pending != [] ==> a.pending[0].b in s.lh;
    case _ =>
  }

  lemma {:induction false} RunDue(s: State, a: Abs, ls: seq<Label>)
    requires Inv(s, a) && Due(s, a) && IsRun(s, ls)
    ensures Due(RunEnd(s, ls), RunAbs(s, a, ls))
    decreases |ls|
  {
    if ls != [] {
      StepRefines(s, a, ls[0]);
      DueStep(s, a, ls[0]);
      RunDue(Apply(s, ls[0]), AbsNext(a, s, ls[0]), ls[1..]);
    }
  }

  /** Without a crash, what running operations see is every write made so far. */
  lemma {:induction false} NothingLost(s: State, a: Abs, ls: seq<Label>)
    requires IsRun(s, ls) && LCrash !in ls && Current(a) == Replay(a.base, a.issued)
    ensures Current(RunAbs(s, a, ls)) == Replay(a.base, RunAbs(s, a, ls).issued)
    decreases |ls|
  {
    if ls != [] {
      var l, a' := ls[0], AbsNext(a, s, ls[0]);
      match l {
        case LLogWrite(op, b) =>
          var w := Write(op, b, s.cache[b].data);
          CurrentAfterWrite(a, w);
          ReplayAppend(a.base, a.issued, w);
        case LWriteHead => CommitMakesCurrentDurable(a);
        case _ =>
      }
      assert Current(a') == Replay(a.base, a'.issued);
      NothingLost(Apply(s, l), a', ls[1..]);
    }
  }

  /** No operation is running and begin_op would let one in. */
  ghost predicate Quiet(s: State) {
    Wf(s) && s.ops == map[] && Enabled(s, LBegin)
  }

  /**
    Durability. When the last operation of a run without a crash has ended and the next
    could begin, the disk holds every write any operation has made.
   */
  lemma EndedIsDurable(s: State, ls: seq<Label>)
    requires Init(s) && IsRun(s, ls) && LCrash !in ls && Quiet(RunEnd(s, ls))
    ensures var d, a := RunEnd(s, ls).disk, RunAbs(s, InitAbs(s), ls);
            && a.pending == [] && DiskWf(d)
            && Recovered(d).home == d.home == Replay(s.disk.home, a.issued)
  {
    InitInv(s);
    RunDue(s, InitAbs(s), ls);
    NothingLost(s, InitAbs(s), ls);
    RunKeepsBase(s, InitAbs(s), ls);
    RunRefines(s, InitAbs(s), ls);
    CrashSafety(s, ls);
    HomeWaitsForHeader(RunEnd(s, ls), RunAbs(s, InitAbs(s), ls));
  }

  /** With crashes, every operation that made a write is then in one committed or one lost group. */
  lemma EndedIsSettled(s: State, ls: seq<Label>, o: nat)
    requires Init(s) && IsRun(s, ls) && Quiet(RunEnd(s, ls))
    ensures var a := RunAbs(s, InitAbs(s), ls);
            && a.pending == []
            && Holders(a.groups, o) + Holders(a.lost, o) == if WritesOf(a.issued, o) != [] then 1 else 0
  {
    InitInv(s);
    RunDue(s, InitAbs(s), ls);
    OperationsAllOrNone(s, ls, o);
  }

  /** What is committed stays committed. */
  lemma {:induction false} GroupsGrow(s: State, a: Abs, ls: seq<Label>)
    requires IsRun(s, ls)
    ensures a.groups <= RunAbs(s, a, ls).groups && a.lost <= RunAbs(s, a, ls).lost
    ensures LCrash !in ls ==> RunAbs(s, a, ls).lost == a.lost
    decreases |ls|
  {
    if ls != [] {
      GroupsGrow(Apply(s, ls[0]), AbsNext(a, s, ls[0]), ls[1..]);
    }
  }

  // ---------------------------------------------------------------------------
  // A commit or a recovery can be carried through

  ghost function StepsLeft(s: State): int {
    match s.phase
    case Running => 0
    case Finish => 1
    case ClearHead => 2
    case Install(i) => 2 + |s.lh| - i
    case WriteHead => 3 + |s.lh|
    case CopyLog(i) => 3 + 2 * |s.lh| - i
    case RecClear => 1
    case RecInstall(i) => 1 + |s.lh| - i
    case ReadHead => 2 + |s.disk.head|
  }

  /** What the committing or recovering thread does next. */
  ghost function NextOf(p: Phase): Label
    requires !p.Running?
  {
    match p
    case Finish => LFinish
    case ClearHead => LClearHead
    case Install(_) => LInstall
    case WriteHead => LWriteHead
    case CopyLog(_) => LCopyLog
    case RecClear => LRecClear
    case RecInstall(_) => LRecInstall
    case ReadHead => LReadHead
  }

  lemma NextStep(s: State, a: Abs)
    requires Wf(s) && DiskWf(s.disk) && OpsOk(s, a) && !s.phase.Running?
    ensures Enabled(s, NextOf(s.phase)) && s.ops == map[]
    ensures var t := Apply(s, NextOf(s.phase)); 0 <= StepsLeft(t) == StepsLeft(s) - 1 && t.ops == map[]
  {
  }

  /**
    From every state in order, without a crash and without a new operation, the thread can
    finish, and then begin_op lets operations in.
   */
  lemma {:induction false} CarriedThrough(s: State, a: Abs) returns (ls: seq<Label>)
    requires Inv(s, a) && Due(s, a) && s.ops == map[]
    ensures IsRun(s, ls) && Quiet(RunEnd(s, ls)) && LCrash !in ls && LBegin !in ls && |ls| == StepsLeft(s)
    decreases StepsLeft(s)
  {
    if s.phase.Running? {
      ls := [];
    } else {
      NextStep(s, a);
      var l := NextOf(s.phase);
      StepRefines(s, a, l);
      DueStep(s, a, l);
      var rest := CarriedThrough(Apply(s, l), AbsNext(a, s, l));
      ls := [l] + rest;
      assert ls[1..] == rest;
    }
  }
}
