/** The block writes of the code are the steps of the machine: commit, write by write. */
module LogSteps {
  import opened LogDisk
  import opened LogModel
  import opened LogProof

  /** The words of the header block: the count, then the block numbers, then what was there. */
  lemma HeaderWords(hb: Block, lh: seq<int>)
    requires |hb| == WORDS && |lh| < WORDS
    ensures PutHead(hb, lh)[0] == |lh| && HeadOf(PutHead(hb, lh)) == lh
    ensures forall i :: 0 <= i < |lh| ==> PutHead(hb, lh)[1 + i] == lh[i]
    ensures forall i :: |lh| < i < WORDS ==> PutHead(hb, lh)[i] == hb[i]
  {
    assert PutHead(hb, lh)[1..1 + |lh|] == lh;
  }

  lemma {:induction false} RunSnoc(s: State, ls: seq<Label>, l: Label)
    requires IsRun(s, ls) && Wf(RunEnd(s, ls)) && Enabled(RunEnd(s, ls), l)
    ensures IsRun(s, ls + [l]) && RunEnd(s, ls + [l]) == Apply(RunEnd(s, ls), l)
    decreases |ls|
  {
    if ls == [] {
      assert ls + [l] == [l] && [l][1..] == [];
    } else {
      RunSnoc(Apply(s, ls[0]), ls[1..], l);
      assert (ls + [l])[0] == ls[0] && (ls + [l])[1..] == ls[1..] + [l];
    }
  }

  /** The steps of a commit of `n` blocks that write to disk: one for each block write. */
  function StepOf(n: nat, k: nat): Label {
    if k < n then LCopyLog else if k == n then LWriteHead else if k <= 2 * n then LInstall else LClearHead
  }

  function Steps(n: nat, k: nat): (ls: seq<Label>)
    ensures |ls| == k
  {
    if k == 0 then [] else Steps(n, k - 1) + [StepOf(n, k - 1)]
  }

  function PhaseAt(n: nat, k: nat): Phase
    requires k <= 2 * n + 2
  {
    if k < n then CopyLog(k) else if k == n then WriteHead
    else if k <= 2 * n then Install(k - n - 1)
    else if k == 2 * n + 1 then ClearHead else Finish
  }

  function Least(a: nat, b: nat): nat {
    if a < b then a else b
  }

  /** A commit that starts in `s` has come to `e` after `k` writes. */
  ghost predicate CommitAt(s: State, e: State, blocks: seq<Block>, k: nat) {
    var n := |s.lh|;
    && k <= 2 * n + 2 && Wf(e) && e.phase == PhaseAt(n, k) && e.ops == s.ops && |e.disk.slots| == |s.disk.slots|
    && e.lh == (if k == 2 * n + 2 then [] else s.lh) && e.disk.home.Keys == s.disk.home.Keys
    && (k <= n ==> e.cache == s.cache)
    && |blocks| == n <= |e.disk.slots| && forall i :: 0 <= i < Least(k, n) ==> e.disk.slots[i] == blocks[i]
  }

  /** What one write of the commit does to the view of the disk. */
  ghost function DiskNext(d: Disk, lh: seq<int>, blocks: seq<Block>, k: nat): Disk
    requires |lh| == |blocks| <= |d.slots|
  {
    var n := |lh|;
    if k < n then d.(slots := d.slots[k := blocks[k]])
    else if k == n then d.(head := lh)
    else if k <= 2 * n then d.(home := d.home[lh[k - n - 1] := blocks[k - n - 1]])
    else d.(head := [])
  }

  /** The machine's step does that. */
  lemma MachineStep(s: State, e: State, blocks: seq<Block>, k: nat)
    requires Wf(s) && CommitAt(s, e, blocks, k) && k < 2 * |s.lh| + 2 && |s.lh| > 0
    requires forall i :: 0 <= i < |s.lh| ==> s.lh[i] in s.cache && s.cache[s.lh[i]].data == blocks[i]
    ensures Enabled(e, StepOf(|s.lh|, k))
    ensures var t := Apply(e, StepOf(|s.lh|, k));
            CommitAt(s, t, blocks, k + 1) && t.disk == DiskNext(e.disk, s.lh, blocks, k)
  {
  }

  /** And so does the code's block write. */
  lemma CodeStep(start: nat, size: nat, raw: seq<Block>, hb: Block, lh: seq<int>, blocks: seq<Block>, k: nat)
    requires LayoutWf(start, size, raw) && |hb| == WORDS && |lh| == |blocks| <= size - 1 && |lh| < WORDS
    requires k < 2 * |lh| + 2 && forall i :: 0 <= i < |lh| ==> |blocks[i]| == WORDS
    requires forall i :: 0 <= i < |lh| ==> 0 <= lh[i] < |raw| && !InLog(start, size, lh[i])
    ensures var w := CommitWrites(start, hb, lh, blocks)[k];
            && 0 <= w.b < |raw| && |w.data| == WORDS && LayoutWf(start, size, raw[w.b := w.data])
            && |lh| <= |View(start, size, raw).slots|
            && View(start, size, raw[w.b := w.data]) == DiskNext(View(start, size, raw), lh, blocks, k)
  {
    hide View;
    var n := |lh|;
    ViewShape(start, size, raw);
    if k < n {
      ViewSlotWrite(start, size, raw, k, blocks[k]);
    } else if k == n {
      ViewHeadWrite(start, size, raw, hb, lh);
    } else if k <= 2 * n {
      ViewHomeWrite(start, size, raw, lh[k - n - 1], blocks[k - n - 1]);
    } else {
      ViewHeadWrite(start, size, raw, PutHead(hb, lh), []);
    }
  }

  /** The machine is about to commit, and its disk is the view of the code's. */
  ghost predicate Ready(start: nat, size: nat, raw: seq<Block>, s: State) {
    && LayoutWf(start, size, raw) && s.disk == View(start, size, raw) && Wf(s) && s.phase == CopyLog(0)
    && forall i :: 0 <= i < |s.lh| ==> s.lh[i] in s.cache && |s.cache[s.lh[i]].data| == WORDS
  }

  ghost function Writes(start: nat, size: nat, raw: seq<Block>, s: State): (ws: seq<RawWrite>)
    requires Ready(start, size, raw, s)
    ensures |ws| == 2 * |s.lh| + 2
  {
    CommitWrites(start, raw[start], s.lh, Logged(s.cache, s.lh))
  }

  /** After `k` steps and `k` block writes the disks agree. */
  ghost predicate Agree(start: nat, size: nat, raw: seq<Block>, s: State, k: nat)
    requires Ready(start, size, raw, s) && k <= 2 * |s.lh| + 2
  {
    var ws := Writes(start, size, raw, s)[..k];
    && IsRun(s, Steps(|s.lh|, k)) && CommitAt(s, RunEnd(s, Steps(|s.lh|, k)), Logged(s.cache, s.lh), k)
    && WritesWf(raw, ws) && LayoutWf(start, size, AfterWrites(raw, ws))
    && RunEnd(s, Steps(|s.lh|, k)).disk == View(start, size, AfterWrites(raw, ws))
  }

  lemma ReadyShape(start: nat, size: nat, raw: seq<Block>, s: State)
    requires Ready(start, size, raw, s)
    ensures start < |raw| && |raw[start]| == WORDS && 0 < |s.lh| <= size - 1 && |s.lh| < WORDS && Wf(s)
    ensures forall i :: 0 <= i < |s.lh| ==> s.lh[i] in s.cache && |s.cache[s.lh[i]].data| == WORDS
    ensures forall i :: 0 <= i < |s.lh| ==> 0 <= s.lh[i] < |raw| && !InLog(start, size, s.lh[i])
  {
    ViewShape(start, size, raw);
    forall i | 0 <= i < |s.lh|
      ensures 0 <= s.lh[i] < |raw| && !InLog(start, size, s.lh[i])
    {
      assert s.lh[i] in s.disk.home;
    }
  }

  lemma CommitAtWf(s: State, e: State, blocks: seq<Block>, k: nat)
    requires CommitAt(s, e, blocks, k)
    ensures Wf(e)
  {
  }

  lemma AgreeStart(start: nat, size: nat, raw: seq<Block>, s: State)
    requires Ready(start, size, raw, s)
    ensures Agree(start, size, raw, s, 0)
  {
    ReadyShape(start, size, raw, s);
    hide View, LayoutWf, CommitWrites;
    assert Writes(start, size, raw, s)[..0] == [];
  }

  lemma AgreeStep(start: nat, size: nat, raw: seq<Block>, s: State, k: nat)
    requires Ready(start, size, raw, s) && k < 2 * |s.lh| + 2 && Agree(start, size, raw, s, k)
    ensures Agree(start, size, raw, s, k + 1)
  {
    hide View, AfterWrites, CommitAt, LayoutWf, Enabled, Apply, IsRun, RunEnd, DiskNext, Wf;
    hide WritesWf, StepOf;
    var n, blocks, all := |s.lh|, Logged(s.cache, s.lh), Writes(start, size, raw, s);
    ReadyShape(start, size, raw, s);
    var e, r := RunEnd(s, Steps(n, k)), AfterWrites(raw, all[..k]);
    CommitAtWf(s, e, blocks, k);
    MachineStep(s, e, blocks, k);
    RunSnoc(s, Steps(n, k), StepOf(n, k));
    CodeStep(start, size, r, raw[start], s.lh, blocks, k);
    hide CommitWrites;
    AfterWritesSnoc(raw, all[..k], all[k]);
    assert all[..k + 1] == all[..k] + [all[k]];
  }

  /**
    After the first `k` steps of a commit the machine's disk is what the code's disk shows
    after the first `k` block writes of commit, for every `k` up to the end.
   */
  lemma {:induction false} CommitIsRun(start: nat, size: nat, raw: seq<Block>, s: State, k: nat)
    requires Ready(start, size, raw, s) && k <= 2 * |s.lh| + 2
    ensures Agree(start, size, raw, s, k)
    decreases k
  {
    hide Ready, Agree;
    if k == 0 {
      AgreeStart(start, size, raw, s);
    } else {
      CommitIsRun(start, size, raw, s, k - 1);
      AgreeStep(start, size, raw, s, k - 1);
    }
  }

  lemma PinnedAll(s: State, cur: map<int, Block>)
    requires PinnedOk(s, cur)
    ensures forall i :: 0 <= i < |s.lh| ==> s.lh[i] in s.cache
  {
    forall i | 0 <= i < |s.lh|
      ensures s.lh[i] in s.cache
    {
      var b := s.lh[i];
      assert b in s.lh;
    }
  }

  lemma LoggedPinned(s: State, dur: map<int, Block>, cur: map<int, Block>)
    requires StateOk(s, dur, cur) && Gathering(s.phase)
    ensures Wf(s) && forall i :: 0 <= i < |s.lh| ==> s.lh[i] in s.cache
  {
    PinnedAll(s, cur);
  }

  /** The last end_op of a group with blocks makes the machine ready for it. */
  lemma EndStarts(start: nat, size: nat, raw: seq<Block>, s: State, a: Abs, op: nat)
    requires Inv(s, a) && Enabled(s, LEnd(op)) && s.ops.Keys == {op} && s.lh != []
    requires LayoutWf(start, size, raw) && s.disk == View(start, size, raw)
    requires forall b <- s.cache :: |s.cache[b].data| == WORDS
    ensures Ready(start, size, raw, Apply(s, LEnd(op)))
  {
    var rest := s.ops - {op};
    assert rest.Keys == {} && rest == map[];
    assert StateOk(s, Durable(a), Current(a)) && Gathering(s.phase);
    hide StateOk, Durable, Current;
    LoggedPinned(s, Durable(a), Current(a));
    var t := Apply(s, LEnd(op));
    assert t.phase == CopyLog(0) && t.cache == s.cache && t.lh == s.lh && t.disk == s.disk;
  }
}
