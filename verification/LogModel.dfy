/**
  The redo log of `log.c` as a state machine, one disk-block write per step.

  The concrete machine has a disk, a buffer cache, the in-memory log header, the
  operations in progress and the position of the committing (or recovering) thread.
  A crash may come between any two steps: it empties memory and keeps the disk.
  The abstract machine knows nothing of logs: a commit makes every write of the
  current group durable at once, and a crash forgets the writes not yet committed.
 */
module LogModel {

  const LOGSIZE := 30
  const MAXOPBLOCKS := 10

  type Block = seq<int>

  /**
    The disk as the log sees it: the block numbers its header lists, the contents of the
    log slots, and the home blocks. LogDisk.dfy reads this view off raw disk blocks.
   */
  datatype Disk = Disk(head: seq<int>, slots: seq<Block>, home: map<int, Block>)

  /** The test that makes log_write panic. It looks at the count alone, before absorption. */
  predicate TooBig(n: nat, size: nat) {
    n >= LOGSIZE || n >= size - 1
  }

  ghost predicate Distinct(h: seq<int>) {
    forall i, j :: 0 <= i < j < |h| ==> h[i] != h[j]
  }

  ghost predicate AllHome(home: map<int, Block>, h: seq<int>) {
    forall i :: 0 <= i < |h| ==> h[i] in home
  }

  ghost predicate DiskWf(d: Disk) {
    |d.head| <= LOGSIZE && |d.head| <= |d.slots| && AllHome(d.home, d.head)
  }

  // ---------------------------------------------------------------------------
  // The effect of recovery on a disk

  /** The home blocks after install_trans has copied the first `k` listed slots home. */
  ghost function Installed(d: Disk, k: nat): (home: map<int, Block>)
    requires DiskWf(d) && k <= |d.head|
    ensures home.Keys == d.home.Keys
  {
    if k == 0 then d.home else Installed(d, k - 1)[d.head[k - 1] := d.slots[k - 1]]
  }

  /** The disk a completed recover_from_log leaves behind. */
  ghost function Recovered(d: Disk): Disk
    requires DiskWf(d)
  {
    d.(head := [], home := Installed(d, |d.head|))
  }

  /** The disk holds exactly the home contents `dur`, some of them only in the log. */
  ghost predicate DiskOk(d: Disk, dur: map<int, Block>) {
    && DiskWf(d)
    && Distinct(d.head)
    && d.home.Keys == dur.Keys
    && (forall i :: 0 <= i < |d.head| ==> d.slots[i] == dur[d.head[i]])
    && (forall b <- d.home :: b !in d.head ==> d.home[b] == dur[b])
  }

  // ---------------------------------------------------------------------------
  // The concrete machine

  datatype Buf = Buf(data: Block, dirty: bool)

  /** Where the committing thread, or recovery after a crash, stands. */
  datatype Phase =
    | Running
    | CopyLog(i: nat)
    | WriteHead
    | Install(i: nat)
    | ClearHead
    | Finish
    | ReadHead
    | RecInstall(i: nat)
    | RecClear

  /**
    `touched` maps a buffer that an operation holds locked and has changed, but not
    yet passed to log_write, to that operation. `ops` maps every operation in progress
    to the distinct blocks it has logged; log.outstanding is its size.
   */
  datatype State = State(
    disk: Disk,
    cache: map<int, Buf>,
    touched: map<int, nat>,
    lh: seq<int>,
    ops: map<nat, set<int>>,
    nextOp: nat,
    phase: Phase)

  datatype Label =
    | LBegin
    | LFetch(b: int)
    | LEvict(b: int)
    | LModify(op: nat, b: int, data: Block)
    | LLogWrite(op: nat, b: int)
    | LEnd(op: nat)
    | LCopyLog
    | LWriteHead
    | LInstall
    | LClearHead
    | LFinish
    | LCrash
    | LReadHead
    | LRecInstall
    | LRecClear

  ghost predicate Wf(s: State) {
    && |s.lh| <= LOGSIZE
    && |s.lh| <= |s.disk.slots|
    && AllHome(s.disk.home, s.lh)
    && (s.phase.CopyLog? ==> s.phase.i < |s.lh|)
    && (s.phase.Install? ==> s.phase.i < |s.lh|)
    && (s.phase.RecInstall? ==> s.phase.i < |s.lh|)
  }

  /** What bread hands out: the cached copy if there is one, else the disk's. */
  ghost function Bread(s: State, b: int): Block
    requires b in s.disk.home
  {
    if b in s.cache then s.cache[b].data else s.disk.home[b]
  }

  ghost predicate Enabled(s: State, l: Label)
    requires Wf(s)
  {
    match l
    case LBegin => s.phase.Running? && |s.lh| + (|s.ops| + 1) * MAXOPBLOCKS <= LOGSIZE
    case LFetch(b) => b in s.disk.home && b !in s.cache
    case LEvict(b) => b in s.cache && !s.cache[b].dirty && b !in s.touched
    case LModify(op, b, _) =>
      && s.phase.Running? && op in s.ops && b in s.cache && b in s.disk.home
      && (b in s.touched ==> s.touched[b] == op)
    case LLogWrite(op, b) =>
      && s.phase.Running? && op in s.ops
      && b in s.touched && s.touched[b] == op && b in s.cache && b in s.disk.home
      && !TooBig(|s.lh|, |s.disk.slots| + 1)
    case LEnd(op) => s.phase.Running? && op in s.ops && forall b <- s.touched :: s.touched[b] != op
    case LCopyLog => s.phase.CopyLog?
    case LWriteHead => s.phase.WriteHead?
    case LInstall => s.phase.Install?
    case LClearHead => s.phase.ClearHead?
    case LFinish => s.phase.Finish?
    case LCrash => true
    case LReadHead => s.phase.ReadHead? && DiskWf(s.disk)
    case LRecInstall => s.phase.RecInstall?
    case LRecClear => s.phase.RecClear?
  }

  /** The phase that follows once `n` of `total` blocks are done. */
  ghost function After(n: nat, total: nat, more: Phase, done: Phase): Phase {
    if n < total then more else done
  }

  /** log_write: record the block number unless it is there already, and pin the buffer. */
  ghost function DoLogWrite(s: State, op: nat, b: int): State
    requires op in s.ops && b in s.cache
  {
    s.(lh := if b in s.lh then s.lh else s.lh + [b],
       cache := s.cache[b := s.cache[b].(dirty := true)],
       touched := s.touched - {b},
       ops := s.ops[op := s.ops[op] + {b}])
  }

  /** end_op: the last operation to end starts the commit, which an empty group skips. */
  ghost function DoEnd(s: State, op: nat): State {
    var ops' := s.ops - {op};
    s.(ops := ops',
       phase := if ops' != map[] then Running
                else if |s.lh| > 0 then CopyLog(0) else Finish)
  }

  /** One turn of the loop in write_log. */
  ghost function DoCopyLog(s: State, i: nat): State
    requires Wf(s) && i < |s.lh|
  {
    s.(disk := s.disk.(slots := s.disk.slots[i := Bread(s, s.lh[i])]),
       phase := After(i + 1, |s.lh|, CopyLog(i + 1), WriteHead))
  }

  ghost function DoWriteHead(s: State): State {
    s.(disk := s.disk.(head := s.lh), phase := if |s.lh| > 0 then Install(0) else ClearHead)
  }

  /** One turn of the loop in install_trans: copy slot `i` home through its buffer. */
  ghost function DoInstall(s: State, i: nat): State
    requires Wf(s) && i < |s.lh|
  {
    s.(disk := s.disk.(home := s.disk.home[s.lh[i] := s.disk.slots[i]]),
       cache := s.cache[s.lh[i] := Buf(s.disk.slots[i], false)])
  }

  ghost function DoClear(s: State): State {
    s.(disk := s.disk.(head := []), lh := [])
  }

  ghost function DoCrash(s: State): State {
    s.(cache := map[], touched := map[], lh := [], ops := map[], phase := ReadHead)
  }

  ghost function DoReadHead(s: State): State {
    s.(lh := s.disk.head, phase := if |s.disk.head| > 0 then RecInstall(0) else RecClear)
  }

  ghost function Apply(s: State, l: Label): State
    requires Wf(s) && Enabled(s, l)
  {
    match l
    case LBegin => s.(ops := s.ops[s.nextOp := {}], nextOp := s.nextOp + 1)
    case LFetch(b) => s.(cache := s.cache[b := Buf(s.disk.home[b], false)])
    case LEvict(b) => s.(cache := s.cache - {b})
    case LModify(op, b, data) =>
      s.(cache := s.cache[b := s.cache[b].(data := data)], touched := s.touched[b := op])
    case LLogWrite(op, b) => DoLogWrite(s, op, b)
    case LEnd(op) => DoEnd(s, op)
    case LCopyLog => DoCopyLog(s, s.phase.i)
    case LWriteHead => DoWriteHead(s)
    case LInstall =>
      DoInstall(s, s.phase.i).(phase := After(s.phase.i + 1, |s.lh|, Install(s.phase.i + 1), ClearHead))
    case LClearHead => DoClear(s).(phase := Finish)
    case LFinish => s.(phase := Running)
    case LCrash => DoCrash(s)
    case LReadHead => DoReadHead(s)
    case LRecInstall =>
      DoInstall(s, s.phase.i).(phase := After(s.phase.i + 1, |s.lh|, RecInstall(s.phase.i + 1), RecClear))
    case LRecClear => DoClear(s).(phase := Running)
  }

  // ---------------------------------------------------------------------------
  // The abstract machine: atomic groups of writes

  datatype Write = Write(op: nat, b: int, data: Block)

  /**
    `groups` are the committed groups in order, `pending` the writes of the group now
    being gathered, `lost` the gathered groups that crashes discarded, `issued` every
    write any operation ever made.
   */
  datatype Abs = Abs(
    base: map<int, Block>,
    groups: seq<seq<Write>>,
    pending: seq<Write>,
    lost: seq<seq<Write>>,
    issued: seq<Write>,
    active: set<nat>,
    nextOp: nat)

  ghost function Replay(m: map<int, Block>, ws: seq<Write>): (r: map<int, Block>)
    ensures forall b <- m :: b in r
  {
    if ws == [] then m
    else
      var w := ws[|ws| - 1];
      Replay(m, ws[..|ws| - 1])[w.b := w.data]
  }

  ghost function ReplayGroups(m: map<int, Block>, gs: seq<seq<Write>>): (r: map<int, Block>)
    ensures forall b <- m :: b in r
  {
    if gs == [] then m
    else Replay(ReplayGroups(m, gs[..|gs| - 1]), gs[|gs| - 1])
  }

  /** The contents after a whole number of groups: what survives any crash. */
  ghost function Durable(a: Abs): map<int, Block> {
    ReplayGroups(a.base, a.groups)
  }

  /** The contents that running operations see. */
  ghost function Current(a: Abs): map<int, Block> {
    Replay(Durable(a), a.pending)
  }

  ghost function AbsBegin(a: Abs): Abs {
    a.(active := a.active + {a.nextOp}, nextOp := a.nextOp + 1)
  }

  ghost function AbsWrite(a: Abs, w: Write): Abs {
    a.(pending := a.pending + [w], issued := a.issued + [w])
  }

  ghost function AbsEnd(a: Abs, op: nat): Abs {
    a.(active := a.active - {op})
  }

  ghost function AbsCommit(a: Abs): Abs {
    a.(groups := a.groups + [a.pending], pending := [])
  }

  ghost function AbsCrash(a: Abs): Abs {
    a.(pending := [], lost := a.lost + [a.pending], active := {})
  }

  /** The abstract step a concrete step carries out; most are invisible. */
  ghost function AbsNext(a: Abs, s: State, l: Label): Abs
    requires Wf(s) && Enabled(s, l)
  {
    match l
    case LBegin => AbsBegin(a)
    case LLogWrite(op, b) => AbsWrite(a, Write(op, b, s.cache[b].data))
    case LEnd(op) => AbsEnd(a, op)
    case LWriteHead => AbsCommit(a)
    case LCrash => AbsCrash(a)
    case _ => a
  }

  // ---------------------------------------------------------------------------
  // The invariant tying the two machines together

  /** How many log slots the install loop has already copied home. */
  ghost function Done(s: State): nat {
    match s.phase
    case Install(i) => i
    case RecInstall(i) => i
    case _ => |s.lh|
  }

  /** How many logged blocks write_log has already copied to their slots. */
  ghost function Copied(s: State): nat {
    match s.phase
    case CopyLog(i) => i
    case WriteHead => |s.lh|
    case _ => 0
  }

  ghost predicate Gathering(p: Phase) {
    p.Running? || p.CopyLog? || p.WriteHead? || p.Finish?
  }

  ghost predicate Installing(p: Phase) {
    p.Install? || p.ClearHead? || p.RecInstall? || p.RecClear?
  }

  /** A clean buffer nobody is changing agrees with the disk; dirty ones are logged. */
  ghost predicate CacheOk(s: State) {
    && (forall b <- s.cache ::
          && b in s.disk.home
          && (s.cache[b].dirty ==> b in s.lh)
          && (!s.cache[b].dirty && b !in s.touched ==> s.cache[b].data == s.disk.home[b]))
    && (forall b <- s.touched :: b in s.cache)
  }

  /** The blocks logged so far are pinned and hold the current contents. */
  ghost predicate PinnedOk(s: State, cur: map<int, Block>) {
    forall b <- s.lh ::
      && b in s.cache && s.cache[b].dirty
      && (b !in s.touched ==> b in cur && s.cache[b].data == cur[b])
  }

  /** Before the header write: the disk still holds `dur`, the buffers of the group hold `cur`. */
  ghost predicate GatherOk(s: State, dur: map<int, Block>, cur: map<int, Block>)
    requires Wf(s) && s.disk.home.Keys == dur.Keys == cur.Keys
  {
    && s.disk.head == []
    && PinnedOk(s, cur)
    && (forall b <- dur :: b !in s.lh ==> cur[b] == dur[b])
    && (forall j :: 0 <= j < Copied(s) ==> s.disk.slots[j] == cur[s.lh[j]])
    && (s.phase.Finish? ==> s.lh == [])
  }

  /** After it: the first `k` blocks of the committed group are home, and their buffers clean. */
  ghost predicate InstallOk(s: State, dur: map<int, Block>, k: nat)
    requires Wf(s) && s.disk.home.Keys == dur.Keys && k <= |s.lh|
  {
    && s.disk.head == s.lh
    && (forall j :: 0 <= j < k ==> s.disk.home[s.lh[j]] == dur[s.lh[j]])
    && (forall j :: 0 <= j < k ==> !(s.lh[j] in s.cache && s.cache[s.lh[j]].dirty))
  }

  /** The concrete state, for durable contents `dur` and current contents `cur`. */
  ghost predicate StateOk(s: State, dur: map<int, Block>, cur: map<int, Block>) {
    && Wf(s)
    && DiskOk(s.disk, dur)
    && cur.Keys == dur.Keys
    && Distinct(s.lh)
    && CacheOk(s)
    && (!s.phase.Running? ==> s.touched.Keys == {})
    && (Gathering(s.phase) ==> GatherOk(s, dur, cur))
    && (!Gathering(s.phase) ==> cur == dur)
    && (Installing(s.phase) ==> InstallOk(s, dur, Done(s)))
    && (s.phase.ReadHead? ==> s.lh == [])
  }

  ghost predicate OpsOk(s: State, a: Abs) {
    && s.ops.Keys == a.active
    && s.nextOp == a.nextOp
    && (forall o <- s.ops :: o < s.nextOp)
    && (forall b <- s.touched :: s.touched[b] in s.ops)
    && (!s.phase.Running? ==> s.ops == map[])
    && (forall o <- s.ops, b <- s.ops[o] :: b in s.lh)
  }

  ghost predicate Inv(s: State, a: Abs) {
    && StateOk(s, Durable(a), Current(a))
    && OpsOk(s, a)
  }

  // ---------------------------------------------------------------------------
  // Recovery

  /** After `k` installs the first `k` listed blocks hold their slot and no other block moved. */
  lemma {:induction false} InstalledHome(d: Disk, k: nat)
    requires DiskWf(d) && Distinct(d.head) && k <= |d.head|
    ensures forall i :: 0 <= i < k ==> Installed(d, k)[d.head[i]] == d.slots[i]
    ensures forall b <- d.home :: b !in d.head[..k] ==> Installed(d, k)[b] == d.home[b]
  {
    if k > 0 {
      InstalledHome(d, k - 1);
      assert d.head[..k] == d.head[..k - 1] + [d.head[k - 1]];
    }
  }

  /** A crash after any number of installs changes nothing about what recovery will leave. */
  lemma CrashDuringInstall(d: Disk, dur: map<int, Block>, k: nat)
    requires DiskOk(d, dur) && k <= |d.head|
    ensures DiskOk(d.(home := Installed(d, k)), dur)
    ensures Recovered(d.(home := Installed(d, k))).home == Recovered(d).home == dur
  {
    InstalledHome(d, k);
    RecoveredIsDurable(d, dur);
    RecoveredIsDurable(d.(home := Installed(d, k)), dur);
  }

  /** A completed recovery leaves every home block at its durable value and an empty header. */
  lemma RecoveredIsDurable(d: Disk, dur: map<int, Block>)
    requires DiskOk(d, dur)
    ensures Recovered(d).home == dur && Recovered(d).head == []
  {
    var k := |d.head|;
    InstalledHome(d, k);
    assert d.head[..k] == d.head;
    forall b | b in d.home
      ensures Installed(d, k)[b] == dur[b]
    {
      if b in d.head {
        var i :| 0 <= i < k && d.head[i] == b;
      }
    }
  }
}
