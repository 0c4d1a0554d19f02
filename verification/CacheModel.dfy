/**
  The buffer cache of bio.c as a machine whose steps are the sections that run under the
  cache lock or the lock of one buffer, over the synchronous disk of memide.c. Any number
  of processes take these steps in any order.
 */
module CacheModel {

  const NBUF := 30

  type Data = seq<int>

  datatype Buf = Buf(valid: bool, dirty: bool, dev: nat, blockno: nat, refcnt: nat, data: Data)

  /**
    How many processes have a reference and wait for the buffer's lock, whether one holds
    it, and how many let it go but still have their reference. `touched`: the holder
    changed the data and neither logged nor wrote it yet.
   */
  datatype Users = Users(waiting: nat, held: bool, leaving: nat, touched: bool)

  /**
    `stamp` is when a buffer was last released by its last user, `at` which buffer has a
    block, and `cur` what was last stored in each block.
   */
  datatype State = State(bufs: seq<Buf>, users: seq<Users>, stamp: seq<int>, clock: int,
                         at: map<nat, nat>, disk: seq<Data>, cur: seq<Data>)

  datatype Label =
    | Get(blockno: nat, b: nat)
    | Lock(b: nat)
    | Fill(b: nat)
    | Store(b: nat, data: Data)
    | LogWrite(b: nat)
    | Write(b: nat)
    | Unlock(b: nat)
    | Put(b: nat)

  ghost predicate Shape(s: State) {
    |s.bufs| == |s.users| == |s.stamp| == NBUF && |s.cur| == |s.disk|
  }

  predicate Has(b: Buf, blockno: nat) {
    b.dev == 1 && b.blockno == blockno
  }

  /** May be recycled. */
  predicate Idle(b: Buf) {
    b.refcnt == 0 && !b.dirty
  }

  /** The least recently released idle buffer. */
  ghost predicate Victim(s: State, b: nat)
    requires Shape(s)
  {
    b < NBUF && Idle(s.bufs[b]) && forall c :: 0 <= c < NBUF && Idle(s.bufs[c]) ==> s.stamp[b] <= s.stamp[c]
  }

  ghost predicate Enabled(s: State, l: Label)
    requires Shape(s)
  {
    match l
    case Get(k, b) =>
      b < NBUF && (Has(s.bufs[b], k) || ((forall c :: 0 <= c < NBUF ==> !Has(s.bufs[c], k)) && Victim(s, b)))
    case Lock(b) => b < NBUF && s.users[b].waiting > 0 && !s.users[b].held
    case Fill(b) =>
      b < NBUF && s.users[b].held && !s.bufs[b].valid && s.bufs[b].dev == 1 && s.bufs[b].blockno < |s.disk|
    case Store(b, _) => b < NBUF && s.users[b].held && s.bufs[b].valid
    case LogWrite(b) => b < NBUF && s.users[b].held && s.bufs[b].valid
    case Write(b) =>
      b < NBUF && s.users[b].held && s.bufs[b].valid && s.bufs[b].dev == 1 && s.bufs[b].blockno < |s.disk|
    case Unlock(b) => b < NBUF && s.users[b].held && s.bufs[b].valid && !s.users[b].touched
    case Put(b) => b < NBUF && s.users[b].leaving > 0 && s.bufs[b].refcnt > 0
  }

  /** What a step does to the one buffer it is about. */
  function NextBuf(s: State, l: Label): Buf
    requires Shape(s) && l.b < NBUF
  {
    var x := s.bufs[l.b];
    match l
    case Get(k, b) => if Has(x, k) then x.(refcnt := x.refcnt + 1) else Buf(false, false, 1, k, 1, x.data)
    case Lock(_) => x
    case Fill(_) => if x.blockno < |s.disk| then x.(valid := true, data := s.disk[x.blockno]) else x
    case Store(_, d) => x.(data := d)
    case LogWrite(_) => x.(dirty := true)
    case Write(_) => x.(dirty := false)
    case Unlock(_) => x
    case Put(_) => if x.refcnt > 0 then x.(refcnt := x.refcnt - 1) else x
  }

  function NextUsers(u: Users, l: Label): Users {
    match l
    case Get(_, _) => u.(waiting := u.waiting + 1)
    case Lock(_) => if u.waiting > 0 then u.(waiting := u.waiting - 1, held := true) else u
    case Fill(_) => u
    case Store(_, _) => u.(touched := true)
    case LogWrite(_) => u.(touched := false)
    case Write(_) => u.(touched := false)
    case Unlock(_) => u.(held := false, leaving := u.leaving + 1)
    case Put(_) => if u.leaving > 0 then u.(leaving := u.leaving - 1) else u
  }

  function Apply(s: State, l: Label): (t: State)
    requires Shape(s) && l.b < NBUF
    ensures Shape(t)
  {
    var x := s.bufs[l.b];
    var t := s.(bufs := s.bufs[l.b := NextBuf(s, l)], users := s.users[l.b := NextUsers(s.users[l.b], l)]);
    match l
    case Get(k, b) => if Has(x, k) then t else t.(at := (if x.dev == 1 then s.at - {x.blockno} else s.at)[k := b])
    case Store(_, d) => if x.blockno < |s.cur| then t.(cur := s.cur[x.blockno := d]) else t
    case Write(_) => if x.blockno < |s.disk| then t.(disk := s.disk[x.blockno := x.data]) else t
    case Put(b) => if x.refcnt == 1 then t.(clock := s.clock + 1, stamp := s.stamp[b := s.clock + 1]) else t
    case _ => t
  }

  // ---------------------------------------------------------------------------
  // Invariant

  ghost predicate BufOk(s: State, b: nat)
    requires Shape(s) && b < NBUF
  {
    var x, u := s.bufs[b], s.users[b];
    && (x.dev == 0 || (x.dev == 1 && x.blockno in s.at && s.at[x.blockno] == b))
    && (x.dev == 0 ==> !x.valid && !x.dirty && x.refcnt == 0)
    && x.refcnt == u.waiting + u.leaving + (if u.held then 1 else 0)
    && (u.touched ==> u.held && x.valid) && (x.dirty ==> x.valid)
    && (x.valid ==> x.blockno < |s.cur| && x.data == s.cur[x.blockno])
  }

  /** A block that has a buffer is found in it. */
  ghost predicate AtOk(s: State)
    requires Shape(s)
  {
    forall k <- s.at :: s.at[k] < NBUF && Has(s.bufs[s.at[k]], k)
  }

  /** A block whose last contents are not on disk is in a buffer that cannot be recycled. */
  ghost predicate DiskOk(s: State)
    requires Shape(s)
  {
    forall k :: 0 <= k < |s.disk| && s.disk[k] != s.cur[k] ==>
      k in s.at && s.at[k] < NBUF && s.bufs[s.at[k]].valid && (s.bufs[s.at[k]].dirty || s.users[s.at[k]].touched)
  }

  ghost predicate StampsOk(s: State)
    requires Shape(s)
  {
    && (forall b :: 0 <= b < NBUF ==> s.stamp[b] <= s.clock)
    && (forall b, c :: 0 <= b < c < NBUF ==> s.stamp[b] != s.stamp[c])
  }

  ghost predicate Inv(s: State) {
    Shape(s) && (forall b :: 0 <= b < NBUF ==> BufOk(s, b)) && AtOk(s) && DiskOk(s) && StampsOk(s)
  }

  // ---------------------------------------------------------------------------
  // Every step keeps it

  /** Only Get moves blocks between buffers. */
  lemma BufStepGet(s: State, k: nat, b: nat, c: nat)
    requires Shape(s) && AtOk(s) && Enabled(s, Get(k, b)) && BufOk(s, b) && c < NBUF && BufOk(s, c)
    ensures BufOk(Apply(s, Get(k, b)), c)
  {
    assert k in s.at ==> Has(s.bufs[s.at[k]], k);
  }

  lemma BufStep(s: State, l: Label, c: nat)
    requires Shape(s) && Enabled(s, l) && !l.Get? && BufOk(s, l.b) && c < NBUF && BufOk(s, c)
    requires l.Fill? ==> DiskOk(s)
    ensures BufOk(Apply(s, l), c)
  {
  }

  lemma AtStep(s: State, l: Label)
    requires Shape(s) && AtOk(s) && Enabled(s, l) && BufOk(s, l.b)
    ensures AtOk(Apply(s, l))
  {
    if l.Get? {
      assert l.blockno in s.at ==> Has(s.bufs[s.at[l.blockno]], l.blockno);
    }
  }

  lemma DiskStep(s: State, l: Label)
    requires Shape(s) && AtOk(s) && DiskOk(s) && Enabled(s, l) && BufOk(s, l.b)
    ensures DiskOk(Apply(s, l))
  {
    var t := Apply(s, l);
    forall k | 0 <= k < |t.disk| && t.disk[k] != t.cur[k]
      ensures k in t.at && t.at[k] < NBUF && t.bufs[t.at[k]].valid
              && (t.bufs[t.at[k]].dirty || t.users[t.at[k]].touched)
    {
      assert s.disk[k] != s.cur[k] ==> k in s.at && Has(s.bufs[s.at[k]], k);
    }
  }

  lemma StampStep(s: State, l: Label)
    requires Shape(s) && StampsOk(s) && Enabled(s, l)
    ensures StampsOk(Apply(s, l))
  {
  }

  lemma StepInv(s: State, l: Label)
    requires Inv(s) && Enabled(s, l)
    ensures Inv(Apply(s, l))
  {
    hide AtOk, DiskOk, StampsOk, BufOk, Enabled, Apply;
    assert 0 <= l.b < NBUF by {
      LabelBuf(s, l);
    }
    assert BufOk(s, l.b);
    forall c | 0 <= c < NBUF
      ensures BufOk(Apply(s, l), c)
    {
      if l.Get? {
        BufStepGet(s, l.blockno, l.b, c);
      } else {
        BufStep(s, l, c);
      }
    }
    AtStep(s, l);
    DiskStep(s, l);
    StampStep(s, l);
  }

  lemma InvShape(s: State)
    requires Inv(s)
    ensures Shape(s) && StampsOk(s) && forall b :: 0 <= b < NBUF ==> BufOk(s, b)
  {
  }

  lemma StampBound(s: State)
    requires Inv(s)
    ensures Shape(s) && forall b :: 0 <= b < NBUF ==> s.stamp[b] <= s.clock
  {
  }

  lemma PutParts(s: State, b: nat)
    requires Shape(s) && Enabled(s, Put(b))
    ensures var x, u := s.bufs[b], s.users[b];
            && x.refcnt > 0 && u.leaving > 0
            && var bufs, users := s.bufs[b := x.(refcnt := x.refcnt - 1)], s.users[b := u.(leaving := u.leaving - 1)];
            && Apply(s, Put(b)) ==
               if x.refcnt == 1 then State(bufs, users, s.stamp[b := s.clock + 1], s.clock + 1, s.at, s.disk, s.cur)
               else State(bufs, users, s.stamp, s.clock, s.at, s.disk, s.cur)
  {
  }

  lemma LabelBuf(s: State, l: Label)
    requires Shape(s) && Enabled(s, l)
    ensures l.b < NBUF
  {
  }

  // ---------------------------------------------------------------------------
  // Runs

  /** After binit. */
  ghost predicate Init(s: State) {
    && Shape(s) && s.at == map[] && s.cur == s.disk && StampsOk(s)
    && forall b :: 0 <= b < NBUF ==>
         s.users[b] == Users(0, false, 0, false) && s.bufs[b].dev == 0 && s.bufs[b].refcnt == 0
         && !s.bufs[b].valid && !s.bufs[b].dirty
  }

  lemma InitInv(s: State)
    requires Init(s)
    ensures Inv(s)
  {
    assert forall b :: 0 <= b < NBUF ==> BufOk(s, b);
  }

  ghost predicate IsRun(s: State, ls: seq<Label>)
    decreases |ls|
  {
    Shape(s) && (ls == [] || (Enabled(s, ls[0]) && IsRun(Apply(s, ls[0]), ls[1..])))
  }

  ghost function RunEnd(s: State, ls: seq<Label>): State
    requires IsRun(s, ls)
    decreases |ls|
  {
    if ls == [] then s else RunEnd(Apply(s, ls[0]), ls[1..])
  }

  lemma {:induction false} RunInv(s: State, ls: seq<Label>)
    requires Inv(s) && IsRun(s, ls)
    ensures Inv(RunEnd(s, ls))
    decreases |ls|
  {
    if ls != [] {
      StepInv(s, ls[0]);
      RunInv(Apply(s, ls[0]), ls[1..]);
    }
  }

  predicate Live(x: Buf) {
    x.valid || x.dirty || x.refcnt > 0
  }

  /** Two live buffers with the same block. */
  predicate LiveTwins(x: Buf, y: Buf) {
    Live(x) && Live(y) && x.dev == y.dev && x.blockno == y.blockno
  }

  datatype Stored = Stored(blockno: nat, data: Data)

  /** What the holders of buffers stored during a run, in order. */
  ghost function History(s: State, ls: seq<Label>): seq<Stored>
    requires IsRun(s, ls)
    decreases |ls|
  {
    if ls == [] then []
    else (if ls[0].Store? then [Stored(s.bufs[ls[0].b].blockno, ls[0].data)] else [])
         + History(Apply(s, ls[0]), ls[1..])
  }

  /** The last of them for a block, or what was there before. */
  function Latest(before: Data, h: seq<Stored>, k: nat): Data
    decreases |h|
  {
    if h == [] then before
    else Latest(if h[0].blockno == k then h[0].data else before, h[1..], k)
  }

  lemma {:induction false} RunLatest(s: State, ls: seq<Label>, k: nat)
    requires Inv(s) && IsRun(s, ls) && k < |s.cur|
    ensures |RunEnd(s, ls).cur| == |s.cur| && RunEnd(s, ls).cur[k] == Latest(s.cur[k], History(s, ls), k)
    decreases |ls|
  {
    if ls != [] {
      var t := Apply(s, ls[0]);
      StepInv(s, ls[0]);
      RunLatest(t, ls[1..], k);
      if ls[0].Store? {
        assert BufOk(s, ls[0].b);
        assert History(s, ls)[1..] == History(t, ls[1..]);
      } else {
        assert History(s, ls) == History(t, ls[1..]);
      }
    }
  }

  /**
    In every state that any run from binit reaches: no block is in two live buffers; a
    process that holds a buffer sees the last contents stored in its block; a block not
    in a buffer has them on disk.
   */
  lemma CacheCoherent(s: State, ls: seq<Label>)
    requires Init(s) && IsRun(s, ls)
    ensures var t := RunEnd(s, ls);
            && Inv(t) && |t.disk| == |s.disk|
            && (forall b, c :: 0 <= b < NBUF && 0 <= c < NBUF && LiveTwins(t.bufs[b], t.bufs[c]) ==> b == c)
            && (forall b :: 0 <= b < NBUF && t.bufs[b].valid ==>
                  && t.bufs[b].blockno < |s.disk|
                  && t.bufs[b].data == Latest(s.disk[t.bufs[b].blockno], History(s, ls), t.bufs[b].blockno))
            && (forall k ::
                  0 <= k < |s.disk| && (forall b :: 0 <= b < NBUF ==> !(Has(t.bufs[b], k) && t.bufs[b].valid)) ==>
                  t.disk[k] == Latest(s.disk[k], History(s, ls), k))
  {
    InitInv(s);
    RunInv(s, ls);
    var t := RunEnd(s, ls);
    forall k | 0 <= k < |s.cur|
      ensures |t.cur| == |s.cur| && t.cur[k] == Latest(s.cur[k], History(s, ls), k)
    {
      RunLatest(s, ls, k);
    }
    RunDiskSize(s, ls);
    Coherent(t);
  }

  lemma {:induction false} RunDiskSize(s: State, ls: seq<Label>)
    requires IsRun(s, ls)
    ensures |RunEnd(s, ls).disk| == |s.disk|
    decreases |ls|
  {
    if ls != [] {
      RunDiskSize(Apply(s, ls[0]), ls[1..]);
    }
  }

  lemma Coherent(t: State)
    requires Inv(t)
    ensures forall b, c :: 0 <= b < NBUF && 0 <= c < NBUF && LiveTwins(t.bufs[b], t.bufs[c]) ==> b == c
    ensures forall b :: 0 <= b < NBUF && t.bufs[b].valid ==>
              t.bufs[b].blockno < |t.cur| && t.bufs[b].data == t.cur[t.bufs[b].blockno]
    ensures forall k :: 0 <= k < |t.disk| && (forall b :: 0 <= b < NBUF ==> !(Has(t.bufs[b], k) && t.bufs[b].valid)) ==>
              t.disk[k] == t.cur[k]
  {
    forall b | 0 <= b < NBUF
      ensures Live(t.bufs[b]) ==> t.bufs[b].dev == 1 && t.bufs[b].blockno in t.at && t.at[t.bufs[b].blockno] == b
      ensures t.bufs[b].valid ==> t.bufs[b].blockno < |t.cur| && t.bufs[b].data == t.cur[t.bufs[b].blockno]
    {
      assert BufOk(t, b);
    }
  }

  /** A buffer that is referenced or dirty keeps its block, whatever step comes next. */
  lemma NeverRecycled(s: State, l: Label, b: nat)
    requires Inv(s) && Enabled(s, l) && b < NBUF && (s.bufs[b].refcnt > 0 || s.bufs[b].dirty)
    ensures var t := Apply(s, l); t.bufs[b].dev == s.bufs[b].dev && t.bufs[b].blockno == s.bufs[b].blockno
  {
  }
}
