/**
  log_write can panic although every operation stays within MAXOPBLOCKS and begin_op has
  reserved room for it. mkfs gives the log LOGSIZE blocks, one of which is the header, so
  it does on the thirtieth block of a group; and it tests the size before it looks for the
  block, so on any log it does when a block of a group of LOGSIZE is logged again. This
  module exhibits the runs.
 */
module LogMkfs {
  import opened LogModel
  import opened LogProof

  predicate IsFileBlock(b: int) {
    0 <= b < LOGSIZE
  }

  /** Power-on of a disk with an empty log of some slots; mkfs makes LOGSIZE - 1. */
  ghost function Boot(slots: nat): (s: State)
    ensures Init(s) && |s.disk.slots| == slots
  {
    var home := map b | 0 <= b < LOGSIZE && IsFileBlock(b) :: [];
    State(Disk([], seq(slots, _ => []), home), map[], map[], [], map[], 0, ReadHead)
  }

  ghost function Turn(b: int): nat {
    if b < 10 then 0 else if b < 20 then 1 else 2
  }

  /** Blocks 0 to n - 1 were logged, the first ten by operation 0, the next by 1, the rest by 2. */
  ghost predicate Shared(ops: map<nat, set<int>>, n: nat) {
    && ops.Keys == {0, 1, 2}
    && (forall o <- ops :: |ops[o]| == if n <= 10 * o then 0 else if n >= 10 * o + 10 then 10 else n - 10 * o)
    && (forall o <- ops, b <- ops[o] :: b < n)
    && (forall b :: 0 <= b < n ==> b in ops[Turn(b)])
  }

  ghost predicate HasLogged(s: State, slots: nat, n: nat) {
    && s.phase == Running && s.disk == Boot(slots).disk && s.touched == map[]
    && |s.lh| == n && (forall i :: 0 <= i < n ==> s.lh[i] == i)
    && (forall b <- s.cache :: b < n)
    && Shared(s.ops, n)
  }

  /** A run within the bound can be extended by a step within the bound. */
  lemma {:induction false} Extend(s: State, ls: seq<Label>, l: Label) returns (ls': seq<Label>)
    requires IsBoundedRun(s, ls) && IsRun(s, ls)
    requires Wf(RunEnd(s, ls)) && Enabled(RunEnd(s, ls), l) && WithinBound(RunEnd(s, ls), l)
    ensures IsBoundedRun(s, ls') && IsRun(s, ls') && RunEnd(s, ls') == Apply(RunEnd(s, ls), l)
    decreases |ls|
  {
    if ls == [] {
      ls' := [l];
      assert ls'[1..] == [];
    } else {
      var rest := Extend(Apply(s, ls[0]), ls[1..], l);
      ls' := [ls[0]] + rest;
      assert ls'[1..] == rest;
    }
  }

  lemma BootUp(slots: nat) returns (ls: seq<Label>)
    ensures IsBoundedRun(Boot(slots), ls) && IsRun(Boot(slots), ls)
    ensures RunEnd(Boot(slots), ls) == Boot(slots).(phase := Running)
  {
    ls := [];
    ls := Extend(Boot(slots), ls, LReadHead);
    assert RunEnd(Boot(slots), ls) == Boot(slots).(phase := RecClear);
    ls := Extend(Boot(slots), ls, LRecClear);
  }

  lemma StartThree(slots: nat) returns (ls: seq<Label>)
    ensures IsBoundedRun(Boot(slots), ls) && IsRun(Boot(slots), ls) && HasLogged(RunEnd(Boot(slots), ls), slots, 0)
  {
    hide IsBoundedRun, IsRun, RunEnd;
    ls := BootUp(slots);
    ls := Extend(Boot(slots), ls, LBegin);
    assert RunEnd(Boot(slots), ls) == Boot(slots).(phase := Running, ops := map[0 := {}], nextOp := 1);
    ls := Extend(Boot(slots), ls, LBegin);
    assert RunEnd(Boot(slots), ls) == Boot(slots).(phase := Running, ops := map[0 := {}, 1 := {}], nextOp := 2);
    ls := Extend(Boot(slots), ls, LBegin);
  }

  /** One more block, logged by the operation whose turn it is. */
  lemma SharedNext(ops: map<nat, set<int>>, n: nat)
    requires Shared(ops, n) && n < LOGSIZE
    ensures |ops[Turn(n)] + {n}| <= MAXOPBLOCKS
    ensures Shared(ops[Turn(n) := ops[Turn(n)] + {n}], n + 1)
  {
    var x := ops[Turn(n)];
    assert n !in x;
    assert |x + {n}| == |x| + 1;
  }

  /** Block `n` is fetched, and the operation whose turn it is has changed it. */
  ghost function Edited(s: State, n: nat): State {
    s.(cache := s.cache[n := Buf([], false)], touched := map[n := Turn(n)])
  }

  lemma EditOne(s: State, slots: nat, n: nat)
    requires HasLogged(s, slots, n) && n < Capacity(slots)
    ensures Wf(s) && Enabled(s, LFetch(n))
    ensures var s1 := Apply(s, LFetch(n));
            && Wf(s1) && Enabled(s1, LModify(Turn(n), n, []))
            && Apply(s1, LModify(Turn(n), n, [])) == Edited(s, n)
  {
    assert Turn(n) in s.ops;
    hide Shared;
    assert IsFileBlock(n) && n in s.disk.home && n !in s.lh;
    assert Apply(s, LFetch(n)) == s.(cache := s.cache[n := Buf([], false)]);
  }

  lemma LogOneOk(s: State, slots: nat, n: nat)
    requires HasLogged(s, slots, n) && n < Capacity(slots)
    ensures var s2 := Edited(s, n);
            Wf(s2) && Enabled(s2, LLogWrite(Turn(n), n)) && WithinBound(s2, LLogWrite(Turn(n), n))
  {
    assert Turn(n) in s.ops;
    SharedNext(s.ops, n);
    hide Shared;
    assert IsFileBlock(n) && n in s.disk.home && n !in s.lh;
  }

  lemma LogOne(s: State, slots: nat, n: nat)
    requires HasLogged(s, slots, n) && n < Capacity(slots)
    ensures Wf(Edited(s, n)) && Enabled(Edited(s, n), LLogWrite(Turn(n), n))
    ensures HasLogged(Apply(Edited(s, n), LLogWrite(Turn(n), n)), slots, n + 1)
  {
    LogOneOk(s, slots, n);
    SharedNext(s.ops, n);
    hide Shared, Wf, Enabled, Boot;
    var s3 := Apply(Edited(s, n), LLogWrite(Turn(n), n));
    assert n !in s.lh && s3.lh == s.lh + [n];
    assert s3.touched == map[];
    assert s3.cache == s.cache[n := Buf([], true)];
  }

  lemma {:induction false} LogMany(slots: nat, n: nat) returns (ls: seq<Label>)
    requires n <= Capacity(slots)
    ensures IsBoundedRun(Boot(slots), ls) && IsRun(Boot(slots), ls) && HasLogged(RunEnd(Boot(slots), ls), slots, n)
  {
    hide IsBoundedRun, IsRun, RunEnd, HasLogged, Enabled, Apply;
    if n == 0 {
      ls := StartThree(slots);
    } else {
      ls := LogMany(slots, n - 1);
      EditOne(RunEnd(Boot(slots), ls), slots, n - 1);
      LogOneOk(RunEnd(Boot(slots), ls), slots, n - 1);
      LogOne(RunEnd(Boot(slots), ls), slots, n - 1);
      ls := Extend(Boot(slots), ls, LFetch(n - 1));
      ls := Extend(Boot(slots), ls, LModify(Turn(n - 1), n - 1, []));
      ls := Extend(Boot(slots), ls, LLogWrite(Turn(n - 1), n - 1));
    }
  }

  /**
    On the log mkfs makes, a run within the bound reaches a state where operation 2 has
    logged only nine blocks and still log_write panics on its tenth.
   */
  lemma MkfsLogPanics() returns (ls: seq<Label>)
    ensures var s := Boot(LOGSIZE - 1); Init(s) && IsBoundedRun(s, ls) && IsRun(s, ls)
    ensures var e := RunEnd(Boot(LOGSIZE - 1), ls);
            && 2 in e.ops && |e.ops[2]| == MAXOPBLOCKS - 1
            && |e.lh| < LOGSIZE && TooBig(|e.lh|, |e.disk.slots| + 1)
  {
    ls := LogMany(LOGSIZE - 1, LOGSIZE - 1);
  }

  /**
    However many slots the log has, if LOGSIZE or more: a run within the bound reaches a
    state where operation 2 has logged its ten blocks, and log_write panics on one of them.
   */
  lemma AbsorbedWritePanics(slots: nat) returns (ls: seq<Label>, b: int)
    requires slots >= LOGSIZE
    ensures Init(Boot(slots)) && IsBoundedRun(Boot(slots), ls) && IsRun(Boot(slots), ls)
    ensures var e := RunEnd(Boot(slots), ls);
            && |e.disk.slots| == slots && 2 in e.ops && b in e.ops[2] && b in e.lh
            && |e.ops[2]| == MAXOPBLOCKS && TooBig(|e.lh|, slots + 1)
  {
    ls := LogMany(slots, LOGSIZE);
    b := RunEnd(Boot(slots), ls).lh[LOGSIZE - 1];
    assert b == LOGSIZE - 1 && Turn(b) == 2;
  }
}
