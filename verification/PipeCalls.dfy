/**
  What one call of pipewrite puts in and one call of piperead takes out, read off whole runs:
  from the labels and the bytes that pass, not from what the machine notes about the call.
 */
module PipeCalls {
  import opened PipeModel

  /** The arguments of the last calls of a process, and the bytes its last write has put in so far. */
  datatype Calls = Calls(src: seq<Byte>, put: seq<Byte>, n: nat)

  /** The bytes a step puts into the pipe. */
  ghost function PutIn(s: State, l: Label): seq<Byte>
    requires Shape(s) && Enabled(s, l)
  {
    var t := Apply(s, l);
    if s.accepted <= t.accepted then t.accepted[|s.accepted|..] else []
  }

  /** The bytes a step takes out of it. */
  ghost function TakenOut(s: State, l: Label): seq<Byte>
    requires Shape(s) && Enabled(s, l)
  {
    var t := Apply(s, l);
    if s.returned <= t.returned then t.returned[|s.returned|..] else []
  }

  ghost function NextCalls(c: Calls, s: State, l: Label, p: nat): Calls
    requires Shape(s) && Enabled(s, l)
  {
    match l
    case BeginWrite(q, src) => if q == p then c.(src := src, put := []) else c
    case RunWrite(q) => if q == p then c.(put := c.put + PutIn(s, l)) else c
    case BeginRead(q, n) => if q == p then c.(n := n) else c
    case _ => c
  }

  ghost function CallsOf(c: Calls, s: State, ls: seq<Label>, p: nat): Calls
    requires IsRun(s, ls)
    decreases |ls|
  {
    if ls == [] then c else CallsOf(NextCalls(c, s, ls[0], p), Apply(s, ls[0]), ls[1..], p)
  }

  const NONE := Calls([], [], 0)

  /** The machine's notes about the calls of process `p` are right. */
  ghost predicate NotesOk(s: State, p: nat, c: Calls)
    requires Shape(s) && p < |s.procs|
  {
    var x := s.procs[p];
    && (InWrite(x) ==> x.src == c.src && c.put == c.src[..x.i])
    && (InRead(x) ==> x.n == c.n)
  }

  lemma RunWriteNotes(s: State, p: nat, c: Calls)
    requires Inv(s) && Enabled(s, RunWrite(p)) && NotesOk(s, p, c)
    ensures Inv(Apply(s, RunWrite(p))) && |Apply(s, RunWrite(p)).procs| == |s.procs|
    ensures var x, f := s.procs[p], Filled(s.ring, s.procs[p].src, s.procs[p].i);
            && x.i <= f.1 <= |x.src| && PutIn(s, RunWrite(p)) == x.src[x.i..f.1]
            && c.put + PutIn(s, RunWrite(p)) == c.src[..f.1]
    ensures NotesOk(Apply(s, RunWrite(p)), p, NextCalls(c, s, RunWrite(p), p))
  {
    var x := s.procs[p];
    FilledHolds(s.ring, s.accepted, |s.returned|, x.src, x.i);
    StepInv(s, RunWrite(p));
    hide Filled, Holds, Full, Empty, RingOk;
  }

  lemma OtherRunNotes(s: State, l: Label, p: nat, c: Calls)
    requires Inv(s) && Enabled(s, l) && p < |s.procs| && NotesOk(s, p, c)
    requires (l.RunWrite? && l.p != p) || l.RunRead?
    ensures Shape(Apply(s, l)) && |Apply(s, l).procs| == |s.procs| && NotesOk(Apply(s, l), p, c)
  {
    StepInv(s, l);
    hide Filled, Drained, Holds, Full, Empty, RingOk;
  }

  lemma NotesStep(s: State, l: Label, p: nat, c: Calls)
    requires Inv(s) && Enabled(s, l) && p < |s.procs| && NotesOk(s, p, c)
    ensures Inv(Apply(s, l)) && |Apply(s, l).procs| == |s.procs|
    ensures NotesOk(Apply(s, l), p, NextCalls(c, s, l, p))
  {
    hide Holds, RingOk, PutIn, WriteStep, ReadStep;
    StepInv(s, l);
    if l == RunWrite(p) {
      RunWriteNotes(s, p, c);
    } else if l.RunWrite? || l.RunRead? {
      OtherRunNotes(s, l, p, c);
    }
  }

  lemma {:induction false} RunNotes(s: State, ls: seq<Label>, p: nat, c: Calls)
    requires Inv(s) && IsRun(s, ls) && p < |s.procs| && NotesOk(s, p, c)
    ensures Inv(RunEnd(s, ls)) && |RunEnd(s, ls).procs| == |s.procs|
    ensures NotesOk(RunEnd(s, ls), p, CallsOf(c, s, ls, p))
    decreases |ls|
  {
    if ls != [] {
      NotesStep(s, ls[0], p, c);
      RunNotes(Apply(s, ls[0]), ls[1..], p, NextCalls(c, s, ls[0], p));
    }
  }

  /**
    In every run, a write call that goes on has put in exactly the first bytes of its own
    buffer, each once and in order. When it returns, it has put in all of them, or the
    pipe is full and has no reading end.
   */
  lemma WritesOwnBytes(s: State, ls: seq<Label>, p: nat)
    requires Init(s) && IsRun(s, ls) && p < |s.procs|
    requires Enabled(RunEnd(s, ls), RunWrite(p))
    ensures var e, c := RunEnd(s, ls), CallsOf(NONE, s, ls, p);
            var t, put := Apply(e, RunWrite(p)), c.put + PutIn(e, RunWrite(p));
            && |t.procs| == |s.procs| && put <= c.src && t.accepted == e.accepted + PutIn(e, RunWrite(p))
            && (t.procs[p].Idle? || t.procs[p].WriteAsleep?)
            && (t.procs[p].WriteAsleep? ==> put < c.src && t.procs[p] == WriteAsleep(c.src, |put|))
            && (t.procs[p].Idle? && put != c.src ==> Full(t.ring) && !e.readopen)
            && (t.procs[p].Idle? <==> put == c.src || !e.readopen)
  {
    RunNotes(s, ls, p, NONE);
    KilledNeverSeen(s, ls, p);
    var e, c := RunEnd(s, ls), CallsOf(NONE, s, ls, p);
    RunWriteNotes(e, p, c);
    var x := e.procs[p];
    FilledHolds(e.ring, e.accepted, |e.returned|, x.src, x.i);
    hide Filled, Holds, Empty, RingOk, Full, PutIn, CallsOf;
  }

  /**
    In every run, a read call of `n` bytes returns exactly the oldest bytes, as many as
    there are but at most `n`. It sleeps exactly on an empty pipe with a writing end, and
    has taken nothing out then.
   */
  lemma ReadsOldestBytes(s: State, ls: seq<Label>, p: nat)
    requires Init(s) && IsRun(s, ls) && p < |s.procs|
    requires Enabled(RunEnd(s, ls), RunRead(p))
    ensures var e, n := RunEnd(s, ls), CallsOf(NONE, s, ls, p).n;
            var t, got, there := Apply(e, RunRead(p)), TakenOut(e, RunRead(p)), |e.accepted| - |e.returned|;
            && |t.procs| == |s.procs| && t.returned == e.returned + got && t.accepted == e.accepted
            && (t.procs[p] == ReadAsleep(n) <==> there == 0 && e.writeopen)
            && (t.procs[p].ReadAsleep? ==> got == [])
            && (!t.procs[p].ReadAsleep? ==>
                  t.procs[p].Idle? && |got| == (if n <= there then n else there)
                  && got == e.accepted[|e.returned|..|e.returned| + |got|])
  {
    RunNotes(s, ls, p, NONE);
    KilledNeverSeen(s, ls, p);
    var e := RunEnd(s, ls);
    CountersTell(e.ring, e.accepted, |e.returned|);
    DrainedHolds(e.ring, e.accepted, |e.returned|, e.procs[p].n);
    StepInv(e, RunRead(p));
    hide Drained, Holds, Full, RingOk, Empty, CallsOf;
  }
}
