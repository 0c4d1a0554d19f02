/**
  Every run of the redo log refines the machine of atomic groups: after any number of
  steps and crashes, recovery yields exactly the contents after a whole number of groups.
 */
module LogProof {
  import opened LogModel

  lemma ReplayAppend(m: map<int, Block>, ws: seq<Write>, w: Write)
    ensures Replay(m, ws + [w]) == Replay(m, ws)[w.b := w.data]
  {
    assert (ws + [w])[..|ws|] == ws;
  }

  lemma CommitMakesCurrentDurable(a: Abs)
    ensures Durable(AbsCommit(a)) == Current(a)
    ensures Current(AbsCommit(a)) == Current(a)
  {
    assert (a.groups + [a.pending])[..|a.groups|] == a.groups;
  }

  // ---------------------------------------------------------------------------
  // Each step keeps the concrete state in order

  lemma FetchOk(s: State, dur: map<int, Block>, cur: map<int, Block>, b: int)
    requires StateOk(s, dur, cur) && b in s.disk.home && b !in s.cache
    ensures StateOk(s.(cache := s.cache[b := Buf(s.disk.home[b], false)]), dur, cur)
  {
  }

  lemma EvictOk(s: State, dur: map<int, Block>, cur: map<int, Block>, b: int)
    requires StateOk(s, dur, cur) && b in s.cache && !s.cache[b].dirty && b !in s.touched
    ensures StateOk(s.(cache := s.cache - {b}), dur, cur)
  {
  }

  lemma ModifyOk(s: State, dur: map<int, Block>, cur: map<int, Block>, op: nat, b: int, data: Block)
    requires StateOk(s, dur, cur) && s.phase.Running? && b in s.cache
    ensures StateOk(s.(cache := s.cache[b := s.cache[b].(data := data)], touched := s.touched[b := op]), dur, cur)
  {
  }

  lemma LogWriteOk(s: State, dur: map<int, Block>, cur: map<int, Block>, op: nat, b: int)
    requires StateOk(s, dur, cur) && s.phase.Running? && op in s.ops && b in s.cache && b in s.disk.home
    requires !TooBig(|s.lh|, |s.disk.slots| + 1)
    ensures StateOk(DoLogWrite(s, op, b), dur, cur[b := s.cache[b].data])
  {
    var s' := DoLogWrite(s, op, b);
    assert forall x :: x in s'.lh <==> x in s.lh || x == b;
  }

  lemma EndOk(s: State, dur: map<int, Block>, cur: map<int, Block>, op: nat)
    requires StateOk(s, dur, cur) && s.phase.Running?
    requires s.ops - {op} == map[] ==> s.touched.Keys == {}
    ensures StateOk(DoEnd(s, op), dur, cur)
  {
  }

  lemma CrashOk(s: State, dur: map<int, Block>, cur: map<int, Block>)
    requires StateOk(s, dur, cur)
    ensures StateOk(DoCrash(s), dur, dur)
  {
  }

  lemma ReadHeadOk(s: State, dur: map<int, Block>)
    requires StateOk(s, dur, dur) && s.phase.ReadHead?
    ensures StateOk(DoReadHead(s), dur, dur)
  {
  }

  lemma CopyLogOk(s: State, dur: map<int, Block>, cur: map<int, Block>)
    requires StateOk(s, dur, cur) && s.phase.CopyLog?
    ensures StateOk(DoCopyLog(s, s.phase.i), dur, cur)
  {
    assert s.lh[s.phase.i] in s.lh;
  }

  /** The header write is the commit point: the durable contents jump from `dur` to `cur`. */
  lemma WriteHeadOk(s: State, dur: map<int, Block>, cur: map<int, Block>)
    requires StateOk(s, dur, cur) && s.phase.WriteHead?
    ensures StateOk(DoWriteHead(s), cur, cur)
  {
  }

  /** One install: the crash invariant holds on, and one more listed block is home and clean. */
  lemma InstallProgress(s: State, dur: map<int, Block>, i: nat)
    requires Wf(s) && DiskOk(s.disk, dur) && CacheOk(s) && Distinct(s.lh)
    requires i < |s.lh| && s.touched.Keys == {} && InstallOk(s, dur, i)
    ensures var s' := DoInstall(s, i);
            DiskOk(s'.disk, dur) && CacheOk(s') && InstallOk(s', dur, i + 1)
  {
  }

  lemma InstallStepOk(s: State, dur: map<int, Block>)
    requires StateOk(s, dur, dur) && s.phase.Install?
    ensures StateOk(Apply(s, LInstall), dur, dur)
  {
    InstallProgress(s, dur, s.phase.i);
  }

  lemma RecInstallStepOk(s: State, dur: map<int, Block>)
    requires StateOk(s, dur, dur) && s.phase.RecInstall?
    ensures StateOk(Apply(s, LRecInstall), dur, dur)
  {
    InstallProgress(s, dur, s.phase.i);
  }

  lemma ClearOk(s: State, dur: map<int, Block>, next: Phase)
    requires StateOk(s, dur, dur) && (s.phase.ClearHead? || s.phase.RecClear?)
    requires next.Running? || next.Finish?
    ensures StateOk(DoClear(s).(phase := next), dur, dur)
  {
  }

  // ---------------------------------------------------------------------------
  // Refinement

  lemma OpsStep(s: State, a: Abs, l: Label)
    requires Wf(s) && OpsOk(s, a) && Enabled(s, l)
    ensures OpsOk(Apply(s, l), AbsNext(a, s, l))
  {
    match l
    case LBegin =>
    case LLogWrite(op, b) =>
    case LEnd(op) =>
    case _ =>
  }

  lemma CurrentAfterWrite(a: Abs, w: Write)
    ensures Durable(AbsWrite(a, w)) == Durable(a)
    ensures Current(AbsWrite(a, w)) == Current(a)[w.b := w.data]
  {
    ReplayAppend(Durable(a), a.pending, w);
  }

  lemma LastOpHoldsNothing(s: State, a: Abs, op: nat)
    requires OpsOk(s, a) && s.ops - {op} == map[]
    requires forall b <- s.touched :: s.touched[b] != op
    ensures s.touched.Keys == {}
  {
    var rest := s.ops - {op};
    assert forall b <- s.touched :: s.touched[b] in rest;
  }

  ghost predicate WritesDisk(l: Label) {
    l.LCopyLog? || l.LWriteHead? || l.LInstall? || l.LClearHead? || l.LRecInstall? || l.LRecClear?
  }

  lemma MemoryStep(s: State, a: Abs, l: Label)
    requires Inv(s, a) && Enabled(s, l) && !WritesDisk(l)
    ensures StateOk(Apply(s, l), Durable(AbsNext(a, s, l)), Current(AbsNext(a, s, l)))
  {
    var dur, cur := Durable(a), Current(a);
    match l
    case LBegin =>
    case LFetch(b) => FetchOk(s, dur, cur, b);
    case LEvict(b) => EvictOk(s, dur, cur, b);
    case LModify(op, b, data) => ModifyOk(s, dur, cur, op, b, data);
    case LLogWrite(op, b) =>
      CurrentAfterWrite(a, Write(op, b, s.cache[b].data));
      LogWriteOk(s, dur, cur, op, b);
    case LEnd(op) =>
      if s.ops - {op} == map[] { LastOpHoldsNothing(s, a, op); }
      EndOk(s, dur, cur, op);
    case LFinish =>
    case LCrash => CrashOk(s, dur, cur);
    case LReadHead => ReadHeadOk(s, dur);
  }

  lemma DiskStep(s: State, a: Abs, l: Label)
    requires Inv(s, a) && Enabled(s, l) && WritesDisk(l)
    ensures StateOk(Apply(s, l), Durable(AbsNext(a, s, l)), Current(AbsNext(a, s, l)))
  {
    var dur, cur := Durable(a), Current(a);
    match l
    case LCopyLog => CopyLogOk(s, dur, cur);
    case LWriteHead =>
      CommitMakesCurrentDurable(a);
      WriteHeadOk(s, dur, cur);
    case LInstall => InstallStepOk(s, dur);
    case LClearHead => ClearOk(s, dur, Finish);
    case LRecInstall => RecInstallStepOk(s, dur);
    case LRecClear => ClearOk(s, dur, Running);
  }

  /** Every step of the log carries out its abstract step. */
  lemma StepRefines(s: State, a: Abs, l: Label)
    requires Inv(s, a) && Enabled(s, l)
    ensures Inv(Apply(s, l), AbsNext(a, s, l))
  {
    OpsStep(s, a, l);
    if WritesDisk(l) { DiskStep(s, a, l); } else { MemoryStep(s, a, l); }
  }

  // ---------------------------------------------------------------------------
  // Whole runs

  /** Power-on with a disk whose log is empty: recovery has not run yet. */
  ghost predicate Init(s: State) {
    && s.phase == ReadHead && s.disk.head == []
    && s.cache == map[] && s.touched.Keys == {} && s.lh == [] && s.ops == map[]
  }

  ghost function InitAbs(s: State): Abs {
    Abs(s.disk.home, [], [], [], [], {}, s.nextOp)
  }

  ghost predicate IsRun(s: State, ls: seq<Label>)
    decreases |ls|
  {
    ls == [] || (Wf(s) && Enabled(s, ls[0]) && IsRun(Apply(s, ls[0]), ls[1..]))
  }

  ghost function RunEnd(s: State, ls: seq<Label>): State
    requires IsRun(s, ls)
    decreases |ls|
  {
    if ls == [] then s else RunEnd(Apply(s, ls[0]), ls[1..])
  }

  ghost function RunAbs(s: State, a: Abs, ls: seq<Label>): Abs
    requires IsRun(s, ls)
    decreases |ls|
  {
    if ls == [] then a else RunAbs(Apply(s, ls[0]), AbsNext(a, s, ls[0]), ls[1..])
  }

  lemma {:induction false} RunRefines(s: State, a: Abs, ls: seq<Label>)
    requires Inv(s, a) && IsRun(s, ls)
    ensures Inv(RunEnd(s, ls), RunAbs(s, a, ls))
    decreases |ls|
  {
    if ls != [] {
      StepRefines(s, a, ls[0]);
      RunRefines(Apply(s, ls[0]), AbsNext(a, s, ls[0]), ls[1..]);
    }
  }

  /**
    Crash safety. Stop any run, with any interleaving of operations, commits, earlier
    crashes and interrupted recoveries, at any point: recovering its disk yields exactly
    the contents after the groups committed so far, and an empty log.
   */
  lemma CrashSafety(s: State, ls: seq<Label>)
    requires Init(s) && IsRun(s, ls)
    ensures var d, a := RunEnd(s, ls).disk, RunAbs(s, InitAbs(s), ls);
            && DiskWf(d)
            && Recovered(d).home == ReplayGroups(s.disk.home, a.groups)
            && Recovered(d).head == []
  {
    var a := RunAbs(s, InitAbs(s), ls);
    InitInv(s);
    RunRefines(s, InitAbs(s), ls);
    RunKeepsBase(s, InitAbs(s), ls);
    RecoveredIsDurable(RunEnd(s, ls).disk, Durable(a));
  }

  lemma InitInv(s: State)
    requires Init(s)
    ensures Inv(s, InitAbs(s))
  {
  }

  lemma {:induction false} RunKeepsBase(s: State, a: Abs, ls: seq<Label>)
    requires IsRun(s, ls)
    ensures RunAbs(s, a, ls).base == a.base
    decreases |ls|
  {
    if ls != [] {
      RunKeepsBase(Apply(s, ls[0]), AbsNext(a, s, ls[0]), ls[1..]);
    }
  }

  /** Until the header of a group is written, no home block on disk shows any of its writes. */
  lemma HomeWaitsForHeader(s: State, a: Abs)
    requires Inv(s, a) && Gathering(s.phase)
    ensures s.disk.home == Durable(a)
  {
    var dur := Durable(a);
    assert s.disk.head == [];
    assert forall b <- s.disk.home :: s.disk.home[b] == dur[b];
  }

  /** A step changes a home block on disk only by installing it from the log. */
  lemma HomeWrittenOnlyByInstall(s: State, l: Label)
    requires Wf(s) && Enabled(s, l) && !l.LInstall? && !l.LRecInstall?
    ensures Apply(s, l).disk.home == s.disk.home
  {
    match l
    case LCopyLog =>
    case LWriteHead =>
    case LClearHead =>
    case LRecClear =>
    case _ =>
  }

  /** An install writes one block the header on disk lists, with its durable contents. */
  lemma InstallWritesDurable(s: State, dur: map<int, Block>)
    requires StateOk(s, dur, dur) && (s.phase.Install? || s.phase.RecInstall?)
    ensures s.phase.i < |s.disk.head|
    ensures var b := s.disk.head[s.phase.i];
            DoInstall(s, s.phase.i).disk.home == s.disk.home[b := dur[b]]
  {
  }

  // ---------------------------------------------------------------------------
  // Operations are all or nothing

  /** The writes of one operation, in order. */
  ghost function WritesOf(ws: seq<Write>, o: nat): (r: seq<Write>)
    ensures |r| <= |ws|
  {
    if ws == [] then []
    else
      var w := ws[|ws| - 1];
      WritesOf(ws[..|ws| - 1], o) + (if w.op == o then [w] else [])
  }

  lemma WritesOfAppend(ws: seq<Write>, w: Write, o: nat)
    ensures WritesOf(ws + [w], o) == WritesOf(ws, o) + (if w.op == o then [w] else [])
  {
    assert (ws + [w])[..|ws|] == ws;
  }

  /** A group shows either none of an operation's writes or all it ever issued, in order. */
  ghost predicate AllOrNone(g: seq<Write>, issued: seq<Write>) {
    forall o :: WritesOf(g, o) == [] || WritesOf(g, o) == WritesOf(issued, o)
  }

  ghost predicate Closed(g: seq<Write>, a: Abs) {
    && AllOrNone(g, a.issued)
    && forall o :: o in a.active || o >= a.nextOp ==> WritesOf(g, o) == []
  }

  ghost predicate Atomic(a: Abs) {
    && (forall g <- a.groups :: Closed(g, a))
    && (forall g <- a.lost :: Closed(g, a))
    && AllOrNone(a.pending, a.issued)
    && (forall o <- a.active :: o < a.nextOp && WritesOf(a.pending, o) == WritesOf(a.issued, o))
    && (forall o :: o >= a.nextOp ==> WritesOf(a.issued, o) == [])
  }

  lemma ClosedAfterWrite(g: seq<Write>, a: Abs, w: Write)
    requires Closed(g, a) && w.op in a.active
    ensures Closed(g, AbsWrite(a, w))
  {
    forall o
      ensures WritesOf(g, o) == [] || WritesOf(g, o) == WritesOf(a.issued + [w], o)
    {
      WritesOfAppend(a.issued, w, o);
    }
  }

  lemma AtomicWrite(a: Abs, w: Write)
    requires Atomic(a) && w.op in a.active
    ensures Atomic(AbsWrite(a, w))
  {
    forall g | g in a.groups || g in a.lost
      ensures Closed(g, AbsWrite(a, w))
    {
      ClosedAfterWrite(g, a, w);
    }
    forall o
      ensures WritesOf(a.pending + [w], o) == WritesOf(a.pending, o) + (if w.op == o then [w] else [])
      ensures WritesOf(a.issued + [w], o) == WritesOf(a.issued, o) + (if w.op == o then [w] else [])
    {
      WritesOfAppend(a.pending, w, o);
      WritesOfAppend(a.issued, w, o);
    }
  }

  lemma AtomicBegin(a: Abs)
    requires Atomic(a)
    ensures Atomic(AbsBegin(a))
  {
    assert forall g :: Closed(g, a) ==> Closed(g, AbsBegin(a));
  }

  lemma AtomicEnd(a: Abs, op: nat)
    requires Atomic(a)
    ensures Atomic(AbsEnd(a, op))
  {
    assert forall g :: Closed(g, a) ==> Closed(g, AbsEnd(a, op));
  }

  lemma AtomicCommit(a: Abs)
    requires Atomic(a) && a.active == {}
    ensures Atomic(AbsCommit(a))
  {
    PendingCloses(a);
    assert forall g :: Closed(g, a) ==> Closed(g, AbsCommit(a));
  }

  lemma AtomicCrash(a: Abs)
    requires Atomic(a)
    ensures Atomic(AbsCrash(a))
  {
    var a' := AbsCrash(a);
    PendingCloses(a.(active := {}));
    assert forall g :: Closed(g, a) ==> Closed(g, a');
    assert Closed(a.pending, a');
  }

  /** Once no operation is active, the gathered writes can be closed as one group. */
  lemma PendingCloses(a: Abs)
    requires AllOrNone(a.pending, a.issued) && a.active == {}
    requires forall o :: o >= a.nextOp ==> WritesOf(a.issued, o) == []
    ensures Closed(a.pending, a)
  {
  }

  lemma AtomicStep(s: State, a: Abs, l: Label)
    requires Inv(s, a) && Atomic(a) && Enabled(s, l)
    ensures Atomic(AbsNext(a, s, l))
  {
    match l
    case LBegin => AtomicBegin(a);
    case LLogWrite(op, b) => AtomicWrite(a, Write(op, b, s.cache[b].data));
    case LEnd(op) => AtomicEnd(a, op);
    case LWriteHead => AtomicCommit(a);
    case LCrash => AtomicCrash(a);
    case _ =>
  }

  /** How many of the groups have writes of operation `o`. */
  ghost function Holders(gs: seq<seq<Write>>, o: nat): nat {
    if gs == [] then 0
    else Holders(gs[..|gs| - 1], o) + (if WritesOf(gs[|gs| - 1], o) != [] then 1 else 0)
  }

  lemma HoldersAppend(gs: seq<seq<Write>>, g: seq<Write>, o: nat)
    ensures Holders(gs + [g], o) == Holders(gs, o) + (if WritesOf(g, o) != [] then 1 else 0)
  {
    assert (gs + [g])[..|gs|] == gs;
  }

  /** An operation that wrote anything is in exactly one place: a group, a lost one, or the one being gathered. */
  ghost predicate InOnePlace(a: Abs, o: nat) {
    Holders(a.groups, o) + Holders(a.lost, o) + (if WritesOf(a.pending, o) != [] then 1 else 0)
    == if WritesOf(a.issued, o) != [] then 1 else 0
  }

  lemma InOnePlaceStep(s: State, a: Abs, l: Label, o: nat)
    requires Inv(s, a) && Atomic(a) && Enabled(s, l) && InOnePlace(a, o)
    ensures InOnePlace(AbsNext(a, s, l), o)
  {
    match l
    case LLogWrite(op, b) =>
      var w := Write(op, b, s.cache[b].data);
      WritesOfAppend(a.pending, w, o);
      WritesOfAppend(a.issued, w, o);
    case LWriteHead => HoldersAppend(a.groups, a.pending, o);
    case LCrash => HoldersAppend(a.lost, a.pending, o);
    case _ =>
  }

  lemma {:induction false} RunAtomic(s: State, a: Abs, ls: seq<Label>, o: nat)
    requires Inv(s, a) && Atomic(a) && InOnePlace(a, o) && IsRun(s, ls)
    ensures Atomic(RunAbs(s, a, ls)) && InOnePlace(RunAbs(s, a, ls), o)
    decreases |ls|
  {
    if ls != [] {
      StepRefines(s, a, ls[0]);
      AtomicStep(s, a, ls[0]);
      InOnePlaceStep(s, a, ls[0], o);
      RunAtomic(Apply(s, ls[0]), AbsNext(a, s, ls[0]), ls[1..], o);
    }
  }

  /**
    In every run, a committed group, a lost one and the one being gathered hold either none
    or all of an operation's writes, and if it made any, exactly one of them holds them.
   */
  lemma OperationsAllOrNone(s: State, ls: seq<Label>, o: nat)
    requires Init(s) && IsRun(s, ls)
    ensures var a := RunAbs(s, InitAbs(s), ls);
            && (forall g <- a.groups :: AllOrNone(g, a.issued)) && (forall g <- a.lost :: AllOrNone(g, a.issued))
            && AllOrNone(a.pending, a.issued) && InOnePlace(a, o)
  {
    InitInv(s);
    RunAtomic(s, InitAbs(s), ls, o);
  }

  // ---------------------------------------------------------------------------
  // One commit, interrupted anywhere

  /** No operation is running and no commit is under way before its header write. */
  ghost predicate Settled(s: State) {
    s.ops == map[] && !s.phase.CopyLog? && !s.phase.WriteHead?
  }

  /** Nothing durable changes then, and no header is written, until an operation begins. */
  lemma {:induction false} SettledStays(s: State, a: Abs, ls: seq<Label>)
    requires Inv(s, a) && IsRun(s, ls) && Settled(s) && LBegin !in ls
    ensures Durable(RunAbs(s, a, ls)) == Durable(a) && LWriteHead !in ls
    decreases |ls|
  {
    if ls != [] {
      StepRefines(s, a, ls[0]);
      assert Settled(Apply(s, ls[0]));
      assert Durable(AbsNext(a, s, ls[0])) == Durable(a);
      SettledStays(Apply(s, ls[0]), AbsNext(a, s, ls[0]), ls[1..]);
    }
  }

  /** A step inside the window leaves it by the header write or a crash, or changes nothing abstract. */
  lemma CommitWindowStep(s: State, a: Abs, l: Label)
    requires Wf(s) && Enabled(s, l) && l != LBegin
    requires s.ops == map[] && (s.phase.CopyLog? || s.phase.WriteHead?)
    ensures var s', a' := Apply(s, l), AbsNext(a, s, l);
            || (s'.ops == map[] && (s'.phase.CopyLog? || s'.phase.WriteHead?) && a' == a && l != LWriteHead
                && l != LCrash)
            || (Settled(s') && l == LWriteHead && a' == AbsCommit(a))
            || (Settled(s') && l == LCrash && a' == AbsCrash(a))
  {
  }

  lemma {:induction false} CommitWindow(s: State, a: Abs, ls: seq<Label>)
    requires Inv(s, a) && IsRun(s, ls) && LBegin !in ls
    requires s.ops == map[] && (s.phase.CopyLog? || s.phase.WriteHead?)
    ensures Durable(RunAbs(s, a, ls)) == if LWriteHead in ls then Current(a) else Durable(a)
    decreases |ls|
  {
    if ls != [] {
      var s', a' := Apply(s, ls[0]), AbsNext(a, s, ls[0]);
      StepRefines(s, a, ls[0]);
      CommitWindowStep(s, a, ls[0]);
      if Settled(s') {
        CommitMakesCurrentDurable(a);
        SettledStays(s', a', ls[1..]);
      } else {
        CommitWindow(s', a', ls[1..]);
      }
    }
  }

  /**
    Commit is atomic. Interrupt it after any block write, let any number of recoveries
    start and crash, and recover: all home blocks hold the committed values if the header
    was written, and all hold the values from before the commit if it was not.
   */
  lemma CommitIsAtomic(s: State, a: Abs, ls: seq<Label>)
    requires Inv(s, a) && IsRun(s, ls) && LBegin !in ls
    requires s.ops == map[] && (s.phase.CopyLog? || s.phase.WriteHead?)
    ensures DiskWf(RunEnd(s, ls).disk) && Recovered(RunEnd(s, ls).disk).head == []
    ensures Recovered(RunEnd(s, ls).disk).home == if LWriteHead in ls then Current(a) else Durable(a)
  {
    CommitWindow(s, a, ls);
    RunRefines(s, a, ls);
    RecoveredIsDurable(RunEnd(s, ls).disk, Durable(RunAbs(s, a, ls)));
  }

  // ---------------------------------------------------------------------------
  // Log space

  /** The log blocks the running operations may still ask for, MAXOPBLOCKS each. */
  ghost function Unused(ops: map<nat, set<int>>): int {
    if ops == map[] then 0
    else
      var o :| o in ops;
      MAXOPBLOCKS - |ops[o]| + Unused(ops - {o})
  }

  lemma {:induction false} UnusedRemove(ops: map<nat, set<int>>, o: nat)
    requires o in ops
    ensures Unused(ops) == MAXOPBLOCKS - |ops[o]| + Unused(ops - {o})
    decreases |ops|
  {
    var p :| p in ops && Unused(ops) == MAXOPBLOCKS - |ops[p]| + Unused(ops - {p});
    if p != o {
      UnusedRemove(ops - {p}, o);
      UnusedRemove(ops - {o}, p);
      assert ops - {p} - {o} == ops - {o} - {p};
    }
  }

  lemma UnusedUpdate(ops: map<nat, set<int>>, o: nat, x: set<int>)
    ensures Unused(ops[o := x]) == MAXOPBLOCKS - |x| + Unused(ops - {o})
  {
    UnusedRemove(ops[o := x], o);
    assert ops[o := x] - {o} == ops - {o};
  }

  lemma {:induction false} UnusedBounds(ops: map<nat, set<int>>)
    requires forall o <- ops :: |ops[o]| <= MAXOPBLOCKS
    ensures 0 <= Unused(ops) <= MAXOPBLOCKS * |ops|
    decreases |ops|
  {
    if ops != map[] {
      var o :| o in ops;
      UnusedRemove(ops, o);
      UnusedBounds(ops - {o});
      assert |ops - {o}| == |ops| - 1;
    }
  }

  /** The blocks logged plus every reservation not yet used fit into the log. */
  ghost predicate Reserved(s: State) {
    && |s.lh| + Unused(s.ops) <= LOGSIZE
    && forall o <- s.ops :: |s.ops[o]| <= MAXOPBLOCKS
  }

  /** What log.c asks of its callers: no operation logs more than MAXOPBLOCKS distinct blocks. */
  ghost predicate WithinBound(s: State, l: Label)
    requires Wf(s) && Enabled(s, l)
  {
    l.LLogWrite? ==> |s.ops[l.op] + {l.b}| <= MAXOPBLOCKS
  }

  /** Logging a block the operation had not logged uses one block of its reservation. */
  lemma UnusedWrite(ops: map<nat, set<int>>, op: nat, b: int)
    requires op in ops
    ensures Unused(ops[op := ops[op] + {b}]) == Unused(ops) - if b in ops[op] then 0 else 1
  {
    UnusedRemove(ops, op);
    UnusedUpdate(ops, op, ops[op] + {b});
    if b in ops[op] {
      assert ops[op] + {b} == ops[op];
    } else {
      assert |ops[op] + {b}| == |ops[op]| + 1;
    }
  }

  lemma ReservedWrite(s: State, a: Abs, op: nat, b: int)
    requires OpsOk(s, a) && Reserved(s) && op in s.ops && b in s.cache
    requires |s.ops[op] + {b}| <= MAXOPBLOCKS
    ensures Reserved(DoLogWrite(s, op, b))
    ensures b !in s.lh ==> |s.lh| < LOGSIZE
  {
    UnusedWrite(s.ops, op, b);
    UnusedBounds(s.ops[op := s.ops[op] + {b}]);
  }

  lemma ReservedStep(s: State, a: Abs, l: Label)
    requires Wf(s) && OpsOk(s, a) && Reserved(s) && Enabled(s, l) && WithinBound(s, l)
    ensures Reserved(Apply(s, l))
  {
    match l
    case LBegin =>
      UnusedBounds(s.ops);
      UnusedUpdate(s.ops, s.nextOp, {});
      assert s.ops - {s.nextOp} == s.ops;
    case LLogWrite(op, b) => ReservedWrite(s, a, op, b);
    case LEnd(op) => UnusedRemove(s.ops, op);
    case _ =>
  }

  ghost predicate IsBoundedRun(s: State, ls: seq<Label>)
    decreases |ls|
  {
    ls == [] || (Wf(s) && Enabled(s, ls[0]) && WithinBound(s, ls[0]) && IsBoundedRun(Apply(s, ls[0]), ls[1..]))
  }

  lemma {:induction false} BoundedRunReserved(s: State, a: Abs, ls: seq<Label>)
    requires Inv(s, a) && Reserved(s) && IsBoundedRun(s, ls)
    ensures IsRun(s, ls) && Reserved(RunEnd(s, ls)) && Inv(RunEnd(s, ls), RunAbs(s, a, ls))
    decreases |ls|
  {
    if ls != [] {
      StepRefines(s, a, ls[0]);
      ReservedStep(s, a, ls[0]);
      BoundedRunReserved(Apply(s, ls[0]), AbsNext(a, s, ls[0]), ls[1..]);
    }
  }

  /** How many blocks a group can have: the entries of the header, or the slots if they are fewer. */
  function Capacity(slots: nat): nat {
    if slots < LOGSIZE then slots else LOGSIZE
  }

  /**
    Within the bound, log_write panics on a block, be it new or logged before, exactly when
    the group has its full number of blocks. A new block never finds it so if there are
    LOGSIZE slots.
   */
  lemma LogWritePanics(s: State, a: Abs, op: nat, b: int)
    requires Inv(s, a) && Reserved(s) && op in s.ops && b in s.cache
    requires |s.ops[op] + {b}| <= MAXOPBLOCKS
    ensures TooBig(|s.lh|, |s.disk.slots| + 1) <==> |s.lh| == Capacity(|s.disk.slots|)
    ensures b !in s.lh && |s.disk.slots| >= LOGSIZE ==> !TooBig(|s.lh|, |s.disk.slots| + 1)
  {
    ReservedWrite(s, a, op, b);
  }

  /**
    In every run within the bound: reservations fit, logged block numbers are distinct,
    and a commit runs only with no operation outstanding, so end_op cannot find it running.
   */
  lemma LogSpace(s: State, ls: seq<Label>)
    requires Init(s) && IsBoundedRun(s, ls)
    ensures IsRun(s, ls)
    ensures var e := RunEnd(s, ls);
            && |e.lh| + Unused(e.ops) <= LOGSIZE
            && Distinct(e.lh)
            && (e.ops != map[] ==> e.phase.Running?)
  {
    InitInv(s);
    BoundedRunReserved(s, InitAbs(s), ls);
  }
}
