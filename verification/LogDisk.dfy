/**
  log.c over raw disk blocks. The class runs the loops of the source on a disk of
  numbered blocks and records every block write; the lemmas show that each prefix of
  those writes is a run of the state machine of LogModel.
 */
module LogDisk {
  import opened LogModel
  import opened LogProof

  /** Words of four bytes in one disk block (BSIZE / sizeof(int)). */
  const WORDS := 128

  /** The header at `start`, then `size - 1` slots. */
  ghost predicate LayoutWf(start: nat, size: nat, raw: seq<Block>) {
    && 1 <= size && start + size <= |raw|
    && forall i :: 0 <= i < |raw| ==> |raw[i]| == WORDS
  }

  predicate InLog(start: nat, size: nat, b: int) {
    start <= b < start + size
  }

  /** The block numbers a header block lists. */
  ghost function HeadOf(hb: Block): seq<int>
    requires |hb| == WORDS
  {
    if 0 <= hb[0] < WORDS then hb[1..1 + hb[0]] else []
  }

  /** What write_head stores: the count and the block numbers, over the old header block. */
  function PutHead(hb: Block, lh: seq<int>): (r: Block)
    requires |hb| == WORDS && |lh| < WORDS
    ensures |r| == WORDS
  {
    [|lh|] + lh + hb[1 + |lh|..]
  }

  ghost function View(start: nat, size: nat, raw: seq<Block>): Disk
    requires LayoutWf(start, size, raw)
  {
    Disk(HeadOf(raw[start]),
         raw[start + 1..start + size],
         map b | 0 <= b < |raw| && !InLog(start, size, b) :: raw[b])
  }

  // ---------------------------------------------------------------------------
  // Sequences of block writes

  datatype RawWrite = RawWrite(b: int, data: Block)

  ghost predicate WritesWf(raw: seq<Block>, ws: seq<RawWrite>) {
    forall i :: 0 <= i < |ws| ==> 0 <= ws[i].b < |raw| && |ws[i].data| == WORDS
  }

  /** The disk after some block writes, in order. */
  ghost function AfterWrites(raw: seq<Block>, ws: seq<RawWrite>): (r: seq<Block>)
    requires WritesWf(raw, ws)
    ensures |r| == |raw|
  {
    if ws == [] then raw
    else
      var w := ws[|ws| - 1];
      AfterWrites(raw, ws[..|ws| - 1])[w.b := w.data]
  }

  /** The cached contents of the logged blocks. */
  function Logged(cache: map<int, Buf>, lh: seq<int>): (r: seq<Block>)
    requires forall i :: 0 <= i < |lh| ==> lh[i] in cache
  {
    seq(|lh|, i requires 0 <= i < |lh| => cache[lh[i]].data)
  }

  /** write_log: slot `i` receives logged block `i`. */
  function LogWrites(start: nat, blocks: seq<Block>): seq<RawWrite> {
    seq(|blocks|, i requires 0 <= i < |blocks| => RawWrite(start + 1 + i, blocks[i]))
  }

  /** install_trans: home block `lh[i]` receives slot `i`. */
  function InstallWrites(lh: seq<int>, blocks: seq<Block>): seq<RawWrite>
    requires |lh| == |blocks|
  {
    seq(|lh|, i requires 0 <= i < |lh| => RawWrite(lh[i], blocks[i]))
  }

  /** Every block write of one commit: the slots, the header, the home blocks, the header again. */
  function CommitWrites(start: nat, hb: Block, lh: seq<int>, blocks: seq<Block>): seq<RawWrite>
    requires |lh| == |blocks| && |lh| < WORDS && |hb| == WORDS
  {
    LogWrites(start, blocks) + [RawWrite(start, PutHead(hb, lh))]
    + InstallWrites(lh, blocks) + [RawWrite(start, PutHead(PutHead(hb, lh), []))]
  }

  /** Every block write of one recovery. */
  function RecoverWrites(start: nat, hb: Block, lh: seq<int>, blocks: seq<Block>): seq<RawWrite>
    requires |lh| == |blocks| && |hb| == WORDS
  {
    InstallWrites(lh, blocks) + [RawWrite(start, PutHead(hb, []))]
  }

  lemma AfterWritesSnoc(raw: seq<Block>, ws: seq<RawWrite>, w: RawWrite)
    requires WritesWf(raw, ws) && 0 <= w.b < |raw| && |w.data| == WORDS
    ensures WritesWf(raw, ws + [w])
    ensures AfterWrites(raw, ws + [w]) == AfterWrites(raw, ws)[w.b := w.data]
  {
    assert (ws + [w])[..|ws|] == ws;
  }

  lemma ViewShape(start: nat, size: nat, raw: seq<Block>)
    requires LayoutWf(start, size, raw)
    ensures var d := View(start, size, raw);
            && |d.slots| == size - 1
            && (forall i :: 0 <= i < size - 1 ==> d.slots[i] == raw[start + 1 + i])
            && (forall b <- d.home :: 0 <= b < |raw| && !InLog(start, size, b))
  {
  }

  lemma ViewSlotWrite(start: nat, size: nat, raw: seq<Block>, i: nat, x: Block)
    requires LayoutWf(start, size, raw) && i < size - 1 && |x| == WORDS
    ensures LayoutWf(start, size, raw[start + 1 + i := x])
    ensures View(start, size, raw[start + 1 + i := x])
         == View(start, size, raw).(slots := View(start, size, raw).slots[i := x])
  {
    var r := raw[start + 1 + i := x];
    assert View(start, size, r).home == View(start, size, raw).home;
  }

  lemma ViewHomeWrite(start: nat, size: nat, raw: seq<Block>, b: int, x: Block)
    requires LayoutWf(start, size, raw) && 0 <= b < |raw| && !InLog(start, size, b) && |x| == WORDS
    ensures LayoutWf(start, size, raw[b := x])
    ensures View(start, size, raw[b := x])
         == View(start, size, raw).(home := View(start, size, raw).home[b := x])
  {
    var r := raw[b := x];
    assert View(start, size, r).slots == View(start, size, raw).slots;
    assert View(start, size, r).home == View(start, size, raw).home[b := x];
  }

  lemma ViewHeadWrite(start: nat, size: nat, raw: seq<Block>, hb: Block, lh: seq<int>)
    requires LayoutWf(start, size, raw) && |hb| == WORDS && |lh| < WORDS
    ensures LayoutWf(start, size, raw[start := PutHead(hb, lh)])
    ensures View(start, size, raw[start := PutHead(hb, lh)]) == View(start, size, raw).(head := lh)
  {
    var r := raw[start := PutHead(hb, lh)];
    assert PutHead(hb, lh)[1..1 + |lh|] == lh;
    assert View(start, size, r).slots == View(start, size, raw).slots;
    assert View(start, size, r).home == View(start, size, raw).home;
  }

  // ---------------------------------------------------------------------------
  // Crash points: every prefix of a commit's or a recovery's writes

  lemma {:induction false} AfterWritesConcat(raw: seq<Block>, ws: seq<RawWrite>, vs: seq<RawWrite>)
    requires WritesWf(raw, ws) && WritesWf(raw, vs)
    ensures WritesWf(raw, ws + vs)
    ensures AfterWrites(raw, ws + vs) == AfterWrites(AfterWrites(raw, ws), vs)
    decreases |vs|
  {
    if vs == [] {
      assert ws + vs == ws;
    } else {
      var n := |vs| - 1;
      AfterWritesConcat(raw, ws, vs[..n]);
      assert (ws + vs)[..|ws + vs| - 1] == ws + vs[..n];
    }
  }

  lemma SpliceStep(xs: seq<Block>, ys: seq<Block>, k: nat)
    requires k < |xs| <= |ys|
    ensures (xs[..k] + ys[k..])[k := xs[k]] == xs[..k + 1] + ys[k + 1..]
  {
  }

  /** After `k` writes of write_log only the first `k` slots have changed. */
  lemma {:induction false} SlotsPrefix(start: nat, size: nat, raw: seq<Block>, blocks: seq<Block>, k: nat)
    requires LayoutWf(start, size, raw) && k <= |blocks| <= size - 1
    requires forall i :: 0 <= i < |blocks| ==> |blocks[i]| == WORDS
    ensures var ws := LogWrites(start, blocks)[..k];
            && WritesWf(raw, ws) && LayoutWf(start, size, AfterWrites(raw, ws))
            && View(start, size, AfterWrites(raw, ws))
               == View(start, size, raw).(slots := blocks[..k] + View(start, size, raw).slots[k..])
  {
    hide View;
    ViewShape(start, size, raw);
    var ws := LogWrites(start, blocks);
    var d := View(start, size, raw);
    if k == 0 {
      assert ws[..0] == [] && blocks[..0] + d.slots[0..] == d.slots;
    } else {
      SlotsPrefix(start, size, raw, blocks, k - 1);
      assert ws[..k] == ws[..k - 1] + [ws[k - 1]];
      AfterWritesSnoc(raw, ws[..k - 1], ws[k - 1]);
      ViewSlotWrite(start, size, AfterWrites(raw, ws[..k - 1]), k - 1, blocks[k - 1]);
      SpliceStep(blocks, d.slots, k - 1);
    }
  }

  /** After `k` writes of install_trans the first `k` listed blocks are home. */
  lemma {:induction false} InstallPrefix(start: nat, size: nat, raw: seq<Block>, blocks: seq<Block>, k: nat)
    requires LayoutWf(start, size, raw) && DiskWf(View(start, size, raw))
    requires |View(start, size, raw).head| == |blocks| && blocks <= View(start, size, raw).slots
    requires k <= |blocks|
    ensures var d := View(start, size, raw);
            var ws := InstallWrites(d.head, blocks)[..k];
            && WritesWf(raw, ws) && LayoutWf(start, size, AfterWrites(raw, ws))
            && View(start, size, AfterWrites(raw, ws)) == d.(home := Installed(d, k))
  {
    hide View;
    ViewShape(start, size, raw);
    var d := View(start, size, raw);
    var ws := InstallWrites(d.head, blocks);
    if k == 0 {
      assert ws[..0] == [];
    } else {
      InstallPrefix(start, size, raw, blocks, k - 1);
      assert ws[..k] == ws[..k - 1] + [ws[k - 1]];
      assert d.head[k - 1] in d.home;
      assert blocks[k - 1] == d.slots[k - 1];
      AfterWritesSnoc(raw, ws[..k - 1], ws[k - 1]);
      ViewHomeWrite(start, size, AfterWrites(raw, ws[..k - 1]), d.head[k - 1], blocks[k - 1]);
    }
  }

  /** A group ready to commit: `blocks` are the new contents of the logged blocks `lh`. */
  ghost predicate CommitReady(d: Disk, lh: seq<int>, blocks: seq<Block>, dur: map<int, Block>, cur: map<int, Block>) {
    && DiskOk(d, dur) && d.head == [] && cur.Keys == dur.Keys
    && AllHome(d.home, lh) && Distinct(lh) && |lh| <= LOGSIZE && |lh| <= |d.slots|
    && |blocks| == |lh| && (forall i :: 0 <= i < |lh| ==> blocks[i] == cur[lh[i]] && |blocks[i]| == WORDS)
    && (forall b <- dur :: b !in lh ==> cur[b] == dur[b])
  }

  /** Every state in which the machine starts a commit is ready in this sense. */
  lemma CommitStartsReady(s: State, a: Abs)
    requires Inv(s, a) && s.phase == CopyLog(0) && forall b <- s.cache :: |s.cache[b].data| == WORDS
    ensures forall i :: 0 <= i < |s.lh| ==> s.lh[i] in s.cache
    ensures CommitReady(s.disk, s.lh, Logged(s.cache, s.lh), Durable(a), Current(a))
  {
    var cur := Current(a);
    forall i | 0 <= i < |s.lh|
      ensures s.lh[i] in s.cache && s.cache[s.lh[i]].data == cur[s.lh[i]]
    {
      var b := s.lh[i];
      assert b in s.lh;
    }
  }

  /** Stopped before the header write, a commit has changed nothing recovery can see. */
  lemma CrashBeforeHeader(start: nat, size: nat, raw: seq<Block>, lh: seq<int>, blocks: seq<Block>,
                          dur: map<int, Block>, cur: map<int, Block>, k: nat)
    requires LayoutWf(start, size, raw) && CommitReady(View(start, size, raw), lh, blocks, dur, cur)
    requires k <= |lh|
    ensures var ws := LogWrites(start, blocks)[..k];
            && WritesWf(raw, ws) && LayoutWf(start, size, AfterWrites(raw, ws))
            && var d := View(start, size, AfterWrites(raw, ws));
            DiskOk(d, dur) && Recovered(d) == d.(head := [], home := dur)
  {
    ViewShape(start, size, raw);
    SlotsPrefix(start, size, raw, blocks, k);
    var ws := LogWrites(start, blocks)[..k];
    var r := AfterWrites(raw, ws);
    assert LayoutWf(start, size, r);
    RecoveredIsDurable(View(start, size, r), dur);
  }

  /** The disk right after the header write holds the whole group. */
  lemma HeaderWriteCommits(start: nat, size: nat, raw: seq<Block>, lh: seq<int>, blocks: seq<Block>,
                           dur: map<int, Block>, cur: map<int, Block>)
    requires LayoutWf(start, size, raw) && CommitReady(View(start, size, raw), lh, blocks, dur, cur)
    ensures var ws := LogWrites(start, blocks) + [RawWrite(start, PutHead(raw[start], lh))];
            && WritesWf(raw, ws) && LayoutWf(start, size, AfterWrites(raw, ws))
            && var d := View(start, size, AfterWrites(raw, ws));
            DiskOk(d, cur) && d.head == lh && blocks <= d.slots
  {
    hide View;
    ViewShape(start, size, raw);
    var ws := LogWrites(start, blocks);
    SlotsPrefix(start, size, raw, blocks, |lh|);
    assert ws[..|lh|] == ws && blocks[..|lh|] == blocks;
    AfterWritesSnoc(raw, ws, RawWrite(start, PutHead(raw[start], lh)));
    ViewHeadWrite(start, size, AfterWrites(raw, ws), raw[start], lh);
  }

  /** Stopped anywhere after it, recovery completes the group. */
  lemma CrashAfterHeader(start: nat, size: nat, raw: seq<Block>, blocks: seq<Block>, cur: map<int, Block>, k: nat)
    requires LayoutWf(start, size, raw) && DiskOk(View(start, size, raw), cur)
    requires blocks <= View(start, size, raw).slots && |blocks| == |View(start, size, raw).head|
    requires k <= |blocks|
    ensures var ws := InstallWrites(View(start, size, raw).head, blocks)[..k];
            && WritesWf(raw, ws) && LayoutWf(start, size, AfterWrites(raw, ws))
            && var d := View(start, size, AfterWrites(raw, ws));
            DiskOk(d, cur) && Recovered(d) == d.(head := [], home := cur) && (k == |blocks| ==> d.home == cur)
  {
    InstallPrefix(start, size, raw, blocks, k);
    CrashDuringInstall(View(start, size, raw), cur, k);
    RecoveredIsDurable(View(start, size, raw), cur);
  }

  /** The end of a commit: everything is home and the header is empty. */
  lemma CrashAfterClear(start: nat, size: nat, raw: seq<Block>, cur: map<int, Block>, hb: Block)
    requires LayoutWf(start, size, raw) && View(start, size, raw).home == cur && |hb| == WORDS
    ensures LayoutWf(start, size, raw[start := PutHead(hb, [])])
    ensures var d := View(start, size, raw[start := PutHead(hb, [])]);
            DiskWf(d) && Recovered(d).head == [] && Recovered(d).home == cur
  {
    ViewHeadWrite(start, size, raw, hb, []);
  }

  /**
    Stop a commit after any `k` of its block writes and recover the disk it leaves: up to
    the header write nothing of the group shows, from the header write on all of it does.
   */
  lemma CommitCrashPoints(start: nat, size: nat, raw: seq<Block>, lh: seq<int>, blocks: seq<Block>,
                          dur: map<int, Block>, cur: map<int, Block>, k: nat)
    requires LayoutWf(start, size, raw) && CommitReady(View(start, size, raw), lh, blocks, dur, cur)
    requires k <= 2 * |lh| + 2
    ensures var ws := CommitWrites(start, raw[start], lh, blocks)[..k];
            && WritesWf(raw, ws) && LayoutWf(start, size, AfterWrites(raw, ws))
            && var d := View(start, size, AfterWrites(raw, ws));
            DiskWf(d) && Recovered(d).head == [] && Recovered(d).home == if k <= |lh| then dur else cur
  {
    hide View, CommitReady, AfterWrites, DiskOk;
    var n := ReadyShape(start, size, raw, lh, blocks, dur, cur);
    var all := CommitWrites(start, raw[start], lh, blocks);
    if k <= n {
      CrashBeforeHeader(start, size, raw, lh, blocks, dur, cur, k);
      assert all[..k] == LogWrites(start, blocks)[..k];
    } else {
      var ws := LogWrites(start, blocks) + [RawWrite(start, PutHead(raw[start], lh))];
      HeaderWriteCommits(start, size, raw, lh, blocks, dur, cur);
      var j := if k == 2 * n + 2 then n else k - n - 1;
      var vs := InstallWrites(lh, blocks)[..j];
      CrashAfterHeader(start, size, AfterWrites(raw, ws), blocks, cur, j);
      AfterWritesConcat(raw, ws, vs);
      if k < 2 * n + 2 {
        assert all[..k] == ws + vs;
      } else {
        var w := RawWrite(start, PutHead(PutHead(raw[start], lh), []));
        assert all[..k] == ws + vs + [w];
        AfterWritesSnoc(raw, ws + vs, w);
        CrashAfterClear(start, size, AfterWrites(raw, ws + vs), cur, PutHead(raw[start], lh));
      }
    }
  }

  /** Stop a recovery after any `k` of its block writes: recovering again leaves the same contents. */
  lemma RecoverCrashPoints(start: nat, size: nat, raw: seq<Block>, blocks: seq<Block>, dur: map<int, Block>, k: nat)
    requires LayoutWf(start, size, raw) && DiskOk(View(start, size, raw), dur)
    requires blocks <= View(start, size, raw).slots && |blocks| == |View(start, size, raw).head|
    requires k <= |blocks| + 1
    ensures var ws := RecoverWrites(start, raw[start], View(start, size, raw).head, blocks)[..k];
            && WritesWf(raw, ws) && LayoutWf(start, size, AfterWrites(raw, ws))
            && var d := View(start, size, AfterWrites(raw, ws));
            DiskWf(d) && Recovered(d).head == [] && Recovered(d).home == dur
  {
    hide View, AfterWrites, DiskOk;
    var n, lh := |blocks|, View(start, size, raw).head;
    var vs := InstallWrites(lh, blocks);
    var all := RecoverWrites(start, raw[start], lh, blocks);
    var j := if k <= n then k else n;
    CrashAfterHeader(start, size, raw, blocks, dur, j);
    if k <= n {
      assert all[..k] == vs[..k];
    } else {
      var w := RawWrite(start, PutHead(raw[start], []));
      assert all[..k] == vs[..n] + [w];
      AfterWritesSnoc(raw, vs[..n], w);
      CrashAfterClear(start, size, AfterWrites(raw, vs[..n]), dur, raw[start]);
    }
  }

  lemma ReadyShape(start: nat, size: nat, raw: seq<Block>, lh: seq<int>, blocks: seq<Block>, dur: map<int, Block>,
                   cur: map<int, Block>)
    returns (n: nat)
    requires LayoutWf(start, size, raw) && CommitReady(View(start, size, raw), lh, blocks, dur, cur)
    ensures n == |lh| == |blocks| <= LOGSIZE
  {
    n := |lh|;
  }

  /** log.c's state. `writes` records every block written since power-on, `first` the disk then. */
  class Log {
    const start: nat
    const size: nat
    var disk: seq<Block>
    var cache: map<int, Buf>
    var lh: seq<int>
    var outstanding: nat
    var committing: bool
    ghost var first: seq<Block>
    ghost var writes: seq<RawWrite>

    ghost predicate Valid()
      reads this
    {
      && LayoutWf(start, size, disk)
      && (forall b <- cache :: |cache[b].data| == WORDS)
      && |lh| <= LOGSIZE && |lh| <= size - 1
      && (forall i :: 0 <= i < |lh| ==> 0 <= lh[i] < |disk| && !InLog(start, size, lh[i]))
      && |first| == |disk| && WritesWf(first, writes) && disk == AfterWrites(first, writes)
    }

    /** Every logged block is pinned in the cache. */
    ghost predicate Pinned()
      reads this
    {
      forall i :: 0 <= i < |lh| ==> lh[i] in cache
    }

    /** The slots that belong to the blocks of the in-memory header. */
    ghost function SlotData(): seq<Block>
      reads this
      requires Valid()
    {
      disk[start + 1..start + 1 + |lh|]
    }

    /** One synchronous block write: memide.c's iderw on a dirty buffer. */
    method WriteBlock(b: int, data: Block)
      requires Valid() && 0 <= b < |disk| && |data| == WORDS
      modifies this`disk, this`writes
      ensures Valid() && disk == old(disk)[b := data]
      ensures writes == old(writes) + [RawWrite(b, data)]
    {
      AfterWritesSnoc(first, writes, RawWrite(b, data));
      disk := disk[b := data];
      writes := writes + [RawWrite(b, data)];
    }

    /** write_head: the in-memory header over the header block. */
    method WriteHead()
      requires Valid()
      modifies this`disk, this`writes
      ensures Valid() && disk == old(disk)[start := PutHead(old(disk)[start], lh)]
      ensures writes == old(writes) + [RawWrite(start, PutHead(old(disk)[start], lh))]
    {
      var hb := disk[start][0 := |lh|];
      for i := 0 to |lh|
        invariant hb == [|lh|] + lh[..i] + disk[start][1 + i..]
      {
        hb := hb[1 + i := lh[i]];
      }
      assert hb == PutHead(disk[start], lh) by {
        assert lh[..|lh|] == lh;
      }
      WriteBlock(start, hb);
    }

    /** read_head: the header block into memory. */
    method ReadHead()
      requires Valid() && DiskWf(View(start, size, disk))
      requires 0 <= disk[start][0] < WORDS
      modifies this`lh
      ensures Valid() && lh == HeadOf(disk[start])
    {
      ghost var h := HeadOf(disk[start]);
      var n := disk[start][0];
      lh := [];
      for i := 0 to n
        invariant lh == h[..i]
      {
        lh := lh + [disk[start][1 + i]];
      }
      assert lh == View(start, size, disk).head;
    }

    /** One turn of the loop in write_log. */
    method CopyBlock(tail: nat)
      requires Valid() && Pinned() && tail < |lh|
      modifies this`disk, this`writes
      ensures Valid() && disk == old(disk)[start + 1 + tail := cache[lh[tail]].data]
      ensures writes == old(writes) + [RawWrite(start + 1 + tail, cache[lh[tail]].data)]
    {
      WriteBlock(start + 1 + tail, cache[lh[tail]].data);
    }

    /** write_log: every logged block from its buffer to its slot. */
    method WriteLog()
      requires Valid() && Pinned()
      modifies this`disk, this`writes
      ensures Valid() && disk[start] == old(disk)[start] && SlotData() == Logged(cache, lh)
      ensures writes == old(writes) + LogWrites(start, Logged(cache, lh))
    {
      hide AfterWrites;
      var tail := 0;
      ghost var ws := LogWrites(start, Logged(cache, lh));
      while tail < |lh|
        invariant Valid() && tail <= |lh| && disk[start] == old(disk)[start]
        invariant forall i :: 0 <= i < tail ==> disk[start + 1 + i] == cache[lh[i]].data
        invariant writes == old(writes) + ws[..tail]
      {
        CopyBlock(tail);
        tail := tail + 1;
        assert ws[..tail] == ws[..tail - 1] + [ws[tail - 1]];
      }
      assert ws[..tail] == ws;
      assert SlotData() == Logged(cache, lh);
    }

    /** One turn of the loop in install_trans. */
    method InstallBlock(tail: nat)
      requires Valid() && tail < |lh|
      modifies this`disk, this`writes, this`cache
      ensures Valid() && disk[start] == old(disk)[start] && SlotData() == old(SlotData())
      ensures writes == old(writes) + [RawWrite(lh[tail], old(SlotData())[tail])]
      ensures cache == old(cache)[lh[tail] := Buf(old(SlotData())[tail], false)]
    {
      var lbuf := disk[start + 1 + tail];
      WriteBlock(lh[tail], lbuf);
      cache := cache[lh[tail] := Buf(lbuf, false)];
      assert SlotData() == old(SlotData());
    }

    /** install_trans: every slot to its home block. */
    method InstallTrans()
      requires Valid()
      modifies this`disk, this`writes, this`cache
      ensures Valid() && disk[start] == old(disk)[start] && SlotData() == old(SlotData())
      ensures writes == old(writes) + InstallWrites(lh, old(SlotData()))
      ensures forall i :: 0 <= i < |lh| ==> lh[i] in cache && !cache[lh[i]].dirty
    {
      hide AfterWrites;
      var tail := 0;
      ghost var d := SlotData();
      ghost var ws := InstallWrites(lh, d);
      while tail < |lh|
        invariant Valid() && tail <= |lh| && disk[start] == old(disk)[start]
        invariant SlotData() == d
        invariant writes == old(writes) + ws[..tail]
        invariant forall i :: 0 <= i < tail ==> lh[i] in cache && !cache[lh[i]].dirty
      {
        InstallBlock(tail);
        tail := tail + 1;
        assert ws[..tail] == ws[..tail - 1] + [ws[tail - 1]];
      }
      assert ws[..tail] == ws;
    }

    /** commit: exactly the writes CommitWrites lists, in that order. */
    method Commit()
      requires Valid() && Pinned()
      modifies this`disk, this`writes, this`cache, this`lh
      ensures Valid() && lh == []
      ensures old(lh) == [] ==> writes == old(writes)
      ensures old(lh) != [] ==>
                writes == old(writes) + CommitWrites(start, old(disk)[start], old(lh), Logged(old(cache), old(lh)))
    {
      hide AfterWrites;
      if |lh| > 0 {
        ghost var hb, h, d := disk[start], lh, Logged(cache, lh);
        WriteLog();
        WriteHead();
        ghost var ws := LogWrites(start, d) + [RawWrite(start, PutHead(hb, h))];
        assert writes == old(writes) + ws;
        InstallTrans();
        ws := ws + InstallWrites(h, d);
        assert writes == old(writes) + ws;
        lh := [];
        WriteHead();
        assert writes == old(writes) + (ws + [RawWrite(start, PutHead(PutHead(hb, h), []))]);
      }
    }

    /** recover_from_log: exactly the writes RecoverWrites lists, in that order. */
    method RecoverFromLog()
      requires Valid() && DiskWf(View(start, size, disk)) && 0 <= disk[start][0] < WORDS
      modifies this`disk, this`writes, this`cache, this`lh
      ensures Valid() && lh == []
      ensures var h := HeadOf(old(disk)[start]);
              && |h| <= size - 1
              && writes == old(writes)
                           + RecoverWrites(start, old(disk)[start], h, old(disk)[start + 1..start + 1 + |h|])
    {
      hide AfterWrites;
      ReadHead();
      ghost var h, d := lh, SlotData();
      InstallTrans();
      assert writes == old(writes) + InstallWrites(h, d);
      lh := [];
      WriteHead();
      assert writes == old(writes) + RecoverWrites(start, old(disk)[start], h, d);
    }

    /** begin_op, one turn of its loop: false means it would sleep. */
    method BeginOp() returns (ok: bool)
      modifies this`outstanding
      ensures ok <==> !committing && |lh| + (old(outstanding) + 1) * MAXOPBLOCKS <= LOGSIZE
      ensures outstanding == old(outstanding) + if ok then 1 else 0
    {
      if committing {
        return false;
      } else if |lh| + (outstanding + 1) * MAXOPBLOCKS > LOGSIZE {
        return false;
      } else {
        outstanding := outstanding + 1;
        return true;
      }
    }

    /** log_write on a cached buffer; true means it panicked. */
    method LogWrite(b: int) returns (panicked: bool)
      requires Valid() && b in cache && 0 <= b < |disk| && !InLog(start, size, b)
      modifies this`lh, this`cache
      ensures Valid()
      ensures panicked <==> TooBig(|old(lh)|, size) || outstanding < 1
      ensures panicked ==> lh == old(lh) && cache == old(cache)
      ensures !panicked ==>
                && lh == (if b in old(lh) then old(lh) else old(lh) + [b])
                && cache == old(cache)[b := old(cache)[b].(dirty := true)]
    {
      if |lh| >= LOGSIZE || |lh| >= size - 1 {
        return true;
      }
      if outstanding < 1 {
        return true;
      }
      var i := 0;
      while i < |lh|
        invariant 0 <= i <= |lh|
        invariant b !in lh[..i]
      {
        if lh[i] == b {
          break;
        }
        i := i + 1;
      }
      if i == |lh| {
        lh := lh + [b];
      } else {
        lh := lh[i := b];
      }
      cache := cache[b := cache[b].(dirty := true)];
      return false;
    }

    /** end_op; true means it panicked, which it does only when a commit is running. */
    method EndOp() returns (panicked: bool)
      requires Valid() && Pinned() && outstanding > 0
      modifies this
      ensures outstanding == old(outstanding) - 1
      ensures panicked <==> old(committing)
      ensures panicked || outstanding > 0 ==> writes == old(writes) && lh == old(lh) && committing == old(committing)
      ensures !panicked && outstanding == 0 ==>
                && Valid() && lh == [] && !committing
                && writes == old(writes)
                             + (if old(lh) == [] then []
                                else CommitWrites(start, old(disk)[start], old(lh), Logged(old(cache), old(lh))))
    {
      outstanding := outstanding - 1;
      if committing {
        return true;
      }
      if outstanding == 0 {
        committing := true;
        Commit();
        committing := false;
      }
      return false;
    }
  }
}
