/**
  The pipe of pipe.c: a ring of 512 bytes with 32-bit counters that wrap around, used by
  any number of readers and writers. A process runs under the pipe's lock until it is done
  or goes to sleep, which gives the lock up in one step with going to sleep.
 */
module PipeModel {

  const PIPESIZE := 512
  const UINT := 0x1_0000_0000

  type Byte = x: int | 0 <= x < 256

  datatype Ring = Ring(data: seq<Byte>, nread: nat, nwrite: nat)

  predicate RingOk(r: Ring) {
    |r.data| == PIPESIZE && r.nread < UINT && r.nwrite < UINT
  }

  predicate Full(r: Ring) {
    r.nwrite == (r.nread + PIPESIZE) % UINT
  }

  predicate Empty(r: Ring) {
    r.nread == r.nwrite
  }

  function Put(r: Ring, b: Byte): Ring
    requires RingOk(r)
  {
    Ring(r.data[r.nwrite % PIPESIZE := b], r.nread, (r.nwrite + 1) % UINT)
  }

  function Got(r: Ring): Byte
    requires RingOk(r)
  {
    r.data[r.nread % PIPESIZE]
  }

  function Taken(r: Ring): Ring {
    r.(nread := (r.nread + 1) % UINT)
  }

  /**
    The ring after the bytes `all` were put in and the first `gone` of them taken out: the
    counters are the two lengths as 32-bit numbers, and the ring holds the bytes between.
   */
  ghost predicate Holds(r: Ring, all: seq<Byte>, gone: nat) {
    && RingOk(r) && gone <= |all| <= gone + PIPESIZE
    && r.nwrite == |all| % UINT && r.nread == gone % UINT
    && forall k :: gone <= k < |all| ==> r.data[k % PIPESIZE] == all[k]
  }

  lemma Multiple(q: int, m: nat)
    ensures (PIPESIZE * q + m) % PIPESIZE == m % PIPESIZE
  {
    assert PIPESIZE * q + m == PIPESIZE * (q + m / PIPESIZE) + m % PIPESIZE;
  }

  lemma NextWraps(n: nat)
    ensures (n + 1) % UINT == (n % UINT + 1) % UINT
  {
  }

  /** The ring's size divides 2^32, so a wrapped counter still gives the place in the ring. */
  lemma WrapsAgree(n: nat)
    ensures n % UINT % PIPESIZE == n % PIPESIZE && (n + 1) % UINT == (n % UINT + 1) % UINT
  {
    Multiple(n / UINT * 0x80_0000, n % UINT);
    NextWraps(n);
  }

  /** The tests of the counters say what they are meant to, across wrap-around. */
  lemma CountersTell(r: Ring, all: seq<Byte>, gone: nat)
    requires Holds(r, all, gone)
    ensures Full(r) <==> |all| == gone + PIPESIZE
    ensures Empty(r) <==> |all| == gone
  {
    var d := |all| - gone;
    assert gone == gone / UINT * UINT + r.nread;
    assert |all| == |all| / UINT * UINT + r.nwrite;
  }

  lemma DistinctPlaces(a: nat, b: nat)
    requires a < b < a + PIPESIZE
    ensures a % PIPESIZE != b % PIPESIZE
  {
  }

  lemma HoldsRing(r: Ring, all: seq<Byte>, gone: nat)
    requires Holds(r, all, gone)
    ensures RingOk(r) && gone <= |all| <= gone + PIPESIZE
  {
  }

  lemma PutHolds(r: Ring, all: seq<Byte>, gone: nat, b: Byte)
    requires Holds(r, all, gone) && !Full(r)
    ensures Holds(Put(r, b), all + [b], gone)
  {
    CountersTell(r, all, gone);
    WrapsAgree(|all|);
    forall k | gone <= k < |all|
      ensures k % PIPESIZE != |all| % PIPESIZE
    {
      DistinctPlaces(k, |all|);
    }
  }

  lemma TakeHolds(r: Ring, all: seq<Byte>, gone: nat)
    requires Holds(r, all, gone) && !Empty(r)
    ensures gone < |all| && Got(r) == all[gone] && Holds(Taken(r), all, gone + 1)
  {
    CountersTell(r, all, gone);
    WrapsAgree(gone);
  }

  // ---------------------------------------------------------------------------
  // The loops of pipewrite and piperead

  /** Bytes of `src` from `i` on, as many as fit: the ring and how far it got. */
  function Filled(r: Ring, src: seq<Byte>, i: nat): (Ring, nat)
    requires RingOk(r) && i <= |src|
    decreases |src| - i
  {
    if i == |src| || Full(r) then (r, i) else Filled(Put(r, src[i]), src, i + 1)
  }

  /** At most `n` bytes, as many as there are: the ring and the bytes. */
  function Drained(r: Ring, n: nat): (Ring, seq<Byte>)
    requires RingOk(r)
    decreases n
  {
    if n == 0 || Empty(r) then (r, [])
    else
      var d := Drained(Taken(r), n - 1);
      (d.0, [Got(r)] + d.1)
  }

  lemma DrainOne(r: Ring, n: nat, got: seq<Byte>)
    requires RingOk(r) && n > 0 && !Empty(r)
    ensures Drained(r, n).0 == Drained(Taken(r), n - 1).0
    ensures got + Drained(r, n).1 == got + [Got(r)] + Drained(Taken(r), n - 1).1
  {
  }

  lemma {:induction false} FilledHolds(r: Ring, all: seq<Byte>, gone: nat, src: seq<Byte>, i: nat)
    requires Holds(r, all, gone) && i <= |src|
    ensures var f := Filled(r, src, i);
            && i <= f.1 <= |src| && Holds(f.0, all + src[i..f.1], gone)
            && (f.1 < |src| ==> Full(f.0))
            && var room := PIPESIZE - (|all| - gone);
            f.1 - i == if |src| - i <= room then |src| - i else room
    decreases |src| - i
  {
    CountersTell(r, all, gone);
    if i == |src| || Full(r) {
      assert all + src[i..i] == all;
    } else {
      PutHolds(r, all, gone, src[i]);
      FilledHolds(Put(r, src[i]), all + [src[i]], gone, src, i + 1);
      var j := Filled(r, src, i).1;
      assert src[i..j] == [src[i]] + src[i + 1..j];
      assert all + src[i..j] == all + [src[i]] + src[i + 1..j];
    }
  }

  lemma {:induction false} DrainedHolds(r: Ring, all: seq<Byte>, gone: nat, n: nat)
    requires Holds(r, all, gone)
    ensures var d := Drained(r, n);
            && |d.1| == (if n <= |all| - gone then n else |all| - gone)
            && Holds(d.0, all, gone + |d.1|) && d.1 == all[gone..gone + |d.1|]
    decreases n
  {
    hide Holds, Empty, RingOk, Taken, Got;
    CountersTell(r, all, gone);
    HoldsRing(r, all, gone);
    if n > 0 && !Empty(r) {
      TakeHolds(r, all, gone);
      HoldsRing(Taken(r), all, gone + 1);
      DrainedHolds(Taken(r), all, gone + 1, n - 1);
      var rest := Drained(Taken(r), n - 1).1;
      assert all[gone..gone + 1 + |rest|] == [all[gone]] + all[gone + 1..gone + 1 + |rest|];
    }
  }

  // ---------------------------------------------------------------------------
  // Processes

  datatype Proc =
    | Idle
    | Writing(src: seq<Byte>, i: nat)
    | WriteAsleep(src: seq<Byte>, i: nat)
    | Reading(n: nat)
    | ReadAsleep(n: nat)
    | Gone

  /**
    `rrefs` and `wrefs` are the descriptors each process has of the two ends. `accepted` and
    `returned` are the bytes of all writes and of all reads so far, in order.
   */
  datatype State = State(ring: Ring, readopen: bool, writeopen: bool, procs: seq<Proc>, killed: seq<bool>,
                         rrefs: seq<nat>, wrefs: seq<nat>, accepted: seq<Byte>, returned: seq<Byte>)

  /**
    Besides the calls: dup or fork gives `q` a descriptor of `p`; a process closes one, or
    loses one on its way out; the last reference to an end gone, fileclose closes the end;
    a process exits, or is killed by a fault in user mode, which makes it exit; a sleeper
    is woken by wakeup for another process or by kill.
   */
  datatype Label =
    | BeginWrite(p: nat, src: seq<Byte>)
    | RunWrite(p: nat)
    | BeginRead(p: nat, n: nat)
    | RunRead(p: nat)
    | DupWrite(p: nat, q: nat)
    | DupRead(p: nat, q: nat)
    | DropWrite(p: nat)
    | DropRead(p: nat)
    | CloseWrite
    | CloseRead
    | Exit(p: nat)
    | Fault(p: nat)
    | Spurious(p: nat)

  /** wakeup(&p->nread) and wakeup(&p->nwrite). */
  function WakeReaders(ps: seq<Proc>): (r: seq<Proc>)
    ensures |r| == |ps|
    ensures forall p :: 0 <= p < |ps| ==> r[p] == if ps[p].ReadAsleep? then Reading(ps[p].n) else ps[p]
  {
    seq(|ps|, p requires 0 <= p < |ps| => if ps[p].ReadAsleep? then Reading(ps[p].n) else ps[p])
  }

  function WakeWriters(ps: seq<Proc>): (r: seq<Proc>)
    ensures |r| == |ps|
    ensures forall p :: 0 <= p < |ps| ==> r[p] == if ps[p].WriteAsleep? then Writing(ps[p].src, ps[p].i) else ps[p]
  {
    seq(|ps|, p requires 0 <= p < |ps| => if ps[p].WriteAsleep? then Writing(ps[p].src, ps[p].i) else ps[p])
  }

  function Awake(x: Proc): Proc {
    if x.ReadAsleep? then Reading(x.n) else if x.WriteAsleep? then Writing(x.src, x.i) else x
  }

  ghost predicate Shape(s: State) {
    && RingOk(s.ring) && |s.killed| == |s.rrefs| == |s.wrefs| == |s.procs|
    && forall p :: 0 <= p < |s.procs| && InWrite(s.procs[p]) ==> s.procs[p].i <= |s.procs[p].src|
  }

  predicate InWrite(x: Proc) {
    x.Writing? || x.WriteAsleep?
  }

  predicate InRead(x: Proc) {
    x.Reading? || x.ReadAsleep?
  }

  predicate AllZero(refs: seq<nat>) {
    forall p :: 0 <= p < |refs| ==> refs[p] == 0
  }

  ghost predicate Enabled(s: State, l: Label)
    requires Shape(s)
  {
    match l
    case BeginWrite(p, _) => p < |s.procs| && s.procs[p].Idle? && s.wrefs[p] > 0
    case RunWrite(p) => p < |s.procs| && s.procs[p].Writing?
    case BeginRead(p, _) => p < |s.procs| && s.procs[p].Idle? && s.rrefs[p] > 0
    case RunRead(p) => p < |s.procs| && s.procs[p].Reading?
    case DupWrite(p, q) => p < |s.procs| && q < |s.procs| && s.procs[p].Idle? && s.procs[q].Idle? && s.wrefs[p] > 0
    case DupRead(p, q) => p < |s.procs| && q < |s.procs| && s.procs[p].Idle? && s.procs[q].Idle? && s.rrefs[p] > 0
    case DropWrite(p) => p < |s.procs| && (s.procs[p].Idle? || s.procs[p].Gone?) && s.wrefs[p] > 0
    case DropRead(p) => p < |s.procs| && (s.procs[p].Idle? || s.procs[p].Gone?) && s.rrefs[p] > 0
    case CloseWrite => s.writeopen && AllZero(s.wrefs)
    case CloseRead => s.readopen && AllZero(s.rrefs)
    case Exit(p) => p < |s.procs| && s.procs[p].Idle?
    case Fault(p) => p < |s.procs| && s.procs[p].Idle?
    case Spurious(p) => p < |s.procs|
  }

  /** pipewrite from where it holds the lock: until all is written, or it gives up, or it sleeps. */
  ghost function WriteStep(s: State, p: nat): State
    requires Shape(s) && Enabled(s, RunWrite(p))
  {
    var x := s.procs[p];
    var f := Filled(s.ring, x.src, x.i);
    var t := s.(ring := f.0, accepted := s.accepted + if x.i <= f.1 <= |x.src| then x.src[x.i..f.1] else []);
    if f.1 == |x.src| then t.(procs := WakeReaders(s.procs)[p := Idle])
    else if !s.readopen || s.killed[p] then t.(procs := s.procs[p := Idle])
    else t.(procs := WakeReaders(s.procs)[p := WriteAsleep(x.src, f.1)])
  }

  /** piperead from where it holds the lock. */
  ghost function ReadStep(s: State, p: nat): State
    requires Shape(s) && Enabled(s, RunRead(p))
  {
    var n := s.procs[p].n;
    if Empty(s.ring) && s.writeopen then
      s.(procs := s.procs[p := if s.killed[p] then Idle else ReadAsleep(n)])
    else
      var d := Drained(s.ring, n);
      s.(ring := d.0, returned := s.returned + d.1, procs := WakeWriters(s.procs)[p := Idle])
  }

  ghost function Apply(s: State, l: Label): State
    requires Shape(s) && Enabled(s, l)
  {
    match l
    case BeginWrite(p, src) => s.(procs := s.procs[p := Writing(src, 0)])
    case RunWrite(p) => WriteStep(s, p)
    case BeginRead(p, n) => s.(procs := s.procs[p := Reading(n)])
    case RunRead(p) => ReadStep(s, p)
    case CloseWrite => s.(writeopen := false, procs := WakeReaders(s.procs))
    case CloseRead => s.(readopen := false, procs := WakeWriters(s.procs))
    case DupWrite(_, q) => s.(wrefs := s.wrefs[q := s.wrefs[q] + 1])
    case DupRead(_, q) => s.(rrefs := s.rrefs[q := s.rrefs[q] + 1])
    case DropWrite(p) => s.(wrefs := s.wrefs[p := s.wrefs[p] - 1])
    case DropRead(p) => s.(rrefs := s.rrefs[p := s.rrefs[p] - 1])
    case Exit(p) => s.(procs := s.procs[p := Gone])
    case Fault(p) => s.(killed := s.killed[p := true], procs := s.procs[p := Gone])
    case Spurious(p) => s.(procs := s.procs[p := Awake(s.procs[p])])
  }

  // ---------------------------------------------------------------------------
  // First in, first out

  ghost predicate Inv(s: State) {
    Shape(s) && Holds(s.ring, s.accepted, |s.returned|) && s.returned <= s.accepted
  }

  lemma WriteInv(s: State, p: nat)
    requires Inv(s) && Enabled(s, RunWrite(p))
    ensures Inv(WriteStep(s, p)) && |WriteStep(s, p).procs| == |s.procs|
  {
    var x := s.procs[p];
    var f := Filled(s.ring, x.src, x.i);
    FilledHolds(s.ring, s.accepted, |s.returned|, x.src, x.i);
    HoldsRing(f.0, s.accepted + x.src[x.i..f.1], |s.returned|);
    hide Holds, Filled, RingOk, Full;
  }

  lemma ReadInv(s: State, p: nat)
    requires Inv(s) && Enabled(s, RunRead(p))
    ensures Inv(ReadStep(s, p)) && |ReadStep(s, p).procs| == |s.procs|
  {
    var d := Drained(s.ring, s.procs[p].n);
    DrainedHolds(s.ring, s.accepted, |s.returned|, s.procs[p].n);
    HoldsRing(s.ring, s.accepted, |s.returned|);
    HoldsRing(d.0, s.accepted, |s.returned| + |d.1|);
    hide Holds, Drained, RingOk, Empty;
  }

  lemma StepInv(s: State, l: Label)
    requires Inv(s) && Enabled(s, l)
    ensures Inv(Apply(s, l)) && |Apply(s, l).procs| == |s.procs|
  {
    hide Holds, RingOk, WriteStep, ReadStep;
    match l
    case RunWrite(p) => WriteInv(s, p);
    case RunRead(p) => ReadInv(s, p);
    case _ =>
  }

  // ---------------------------------------------------------------------------
  // Runs

  /** After pipealloc: any processes, of which some have descriptors of the two ends. */
  ghost predicate Init(s: State) {
    && Shape(s) && s.accepted == s.returned == [] && s.ring.nread == s.ring.nwrite == 0 && s.readopen && s.writeopen
    && forall p :: 0 <= p < |s.procs| ==> s.procs[p].Idle? && !s.killed[p]
  }

  ghost predicate IsRun(s: State, ls: seq<Label>)
    decreases |ls|
  {
    Shape(s) && (ls == [] || (Enabled(s, ls[0]) && IsRun(Apply(s, ls[0]), ls[1..])))
  }

  ghost function RunEnd(s: State, ls: seq<Label>): (t: State)
    requires IsRun(s, ls)
    ensures Shape(t)
    decreases |ls|
  {
    if ls == [] then s else RunEnd(Apply(s, ls[0]), ls[1..])
  }

  lemma {:induction false} RunInv(s: State, ls: seq<Label>)
    requires Inv(s) && IsRun(s, ls)
    ensures Inv(RunEnd(s, ls))
    decreases |ls|
  {
    if ls != [] {
      StepInv(s, ls[0]);
      RunInv(Apply(s, ls[0]), ls[1..]);
    }
  }

  /**
    Under any interleaving of readers and writers, and however often the counters wrap
    around: what was read is a prefix of what was written, and at most PIPESIZE bytes are
    under way.
   */
  lemma FirstInFirstOut(s: State, ls: seq<Label>)
    requires Init(s) && IsRun(s, ls)
    ensures var t := RunEnd(s, ls); t.returned <= t.accepted && |t.accepted| - |t.returned| <= PIPESIZE
  {
    assert Inv(s);
    RunInv(s, ls);
  }

  // ---------------------------------------------------------------------------
  // Sleepers

  /** A writer sleeps only on a full pipe with a reading end. */
  ghost predicate WritersOk(s: State) {
    forall p :: 0 <= p < |s.procs| && s.procs[p].WriteAsleep? ==> Full(s.ring) && s.readopen
  }

  /** A reader sleeps only on an empty pipe with a writing end. */
  ghost predicate ReadersOk(s: State) {
    forall p :: 0 <= p < |s.procs| && s.procs[p].ReadAsleep? ==> Empty(s.ring) && s.writeopen
  }

  /**
    A process in a call has a descriptor of the end it uses, an end that anyone has a
    descriptor of is open, and a killed process is on its way out.
   */
  ghost predicate HeldBy(s: State, p: nat)
    requires Shape(s) && p < |s.procs|
  {
    && (InWrite(s.procs[p]) ==> s.wrefs[p] > 0) && (s.wrefs[p] > 0 ==> s.writeopen)
    && (InRead(s.procs[p]) ==> s.rrefs[p] > 0) && (s.rrefs[p] > 0 ==> s.readopen)
    && (s.killed[p] ==> s.procs[p].Gone?)
  }

  ghost predicate Held(s: State)
    requires Shape(s)
  {
    forall p :: 0 <= p < |s.procs| ==> HeldBy(s, p)
  }

  lemma HeldAt(s: State, p: nat)
    requires Shape(s) && Held(s) && p < |s.procs|
    ensures HeldBy(s, p)
  {
  }

  lemma InvShape(s: State)
    requires Inv(s)
    ensures Shape(s)
  {
  }

  lemma HeldByRuns(s: State, l: Label, p: nat)
    requires Inv(s) && Enabled(s, l) && p < |s.procs| && (l.RunWrite? || l.RunRead?) && HeldBy(s, p)
    ensures var t := Apply(s, l); Shape(t) && p < |t.procs| && HeldBy(t, p)
  {
    StepInv(s, l);
    hide Filled, Drained, Holds, Full, Empty, RingOk;
  }

  lemma HeldByKept(s: State, l: Label, p: nat)
    requires Inv(s) && Held(s) && Enabled(s, l) && p < |s.procs|
    ensures var t := Apply(s, l); Shape(t) && p < |t.procs| && HeldBy(t, p)
  {
    hide Inv, WriteStep, ReadStep, Held, RingOk;
    InvShape(s);
    StepInv(s, l);
    InvShape(Apply(s, l));
    HeldAt(s, p);
    match l
    case RunWrite(_) => HeldByRuns(s, l, p);
    case RunRead(_) => HeldByRuns(s, l, p);
    case DupWrite(q, _) => HeldAt(s, q);
    case DupRead(q, _) => HeldAt(s, q);
    case _ =>
  }

  lemma HeldKept(s: State, l: Label)
    requires Inv(s) && Held(s) && Enabled(s, l)
    ensures Shape(Apply(s, l)) && Held(Apply(s, l))
  {
    hide HeldBy, Inv, Apply;
    InvShape(s);
    StepInv(s, l);
    InvShape(Apply(s, l));
    forall p | 0 <= p < |Apply(s, l).procs|
      ensures HeldBy(Apply(s, l), p)
    {
      HeldByKept(s, l, p);
    }
  }

  lemma FullStays(s: State, src: seq<Byte>, i: nat)
    requires RingOk(s.ring) && i <= |src|
    ensures Full(s.ring) ==> Filled(s.ring, src, i) == (s.ring, i)
  {
  }

  /** Writers are always woken. */
  lemma WritersKept(s: State, l: Label)
    requires Inv(s) && WritersOk(s) && Enabled(s, l)
    ensures WritersOk(Apply(s, l))
  {
    if l.RunWrite? {
      var x := s.procs[l.p];
      FilledHolds(s.ring, s.accepted, |s.returned|, x.src, x.i);
      FullStays(s, x.src, x.i);
      hide Filled, Holds, Full, RingOk;
    } else if l.RunRead? {
      hide Drained, Full;
    }
  }

  /**
    Readers are always woken. pipewrite has a way out without a wakeup, but a process that
    takes it is killed or has no readers, and neither can be while a reader is asleep.
   */
  lemma ReadersKept(s: State, l: Label)
    requires Inv(s) && Held(s) && ReadersOk(s) && Enabled(s, l)
    ensures ReadersOk(Apply(s, l))
  {
    CountersTell(s.ring, s.accepted, |s.returned|);
    if l.RunWrite? {
      var x := s.procs[l.p];
      FilledHolds(s.ring, s.accepted, |s.returned|, x.src, x.i);
      var f := Filled(s.ring, x.src, x.i);
      CountersTell(f.0, s.accepted + x.src[x.i..f.1], |s.returned|);
      HeldAt(s, l.p);
      forall q | 0 <= q < |s.procs| && s.procs[q].ReadAsleep?
        ensures s.readopen
      {
        HeldAt(s, q);
      }
      hide Filled, Holds, Empty, Full, RingOk;
    } else if l.RunRead? {
      hide Drained, Holds, Full, RingOk;
    }
  }

  lemma {:induction false} RunKept(s: State, ls: seq<Label>)
    requires Inv(s) && Held(s) && WritersOk(s) && ReadersOk(s) && IsRun(s, ls)
    ensures var t := RunEnd(s, ls); Inv(t) && Held(t) && WritersOk(t) && ReadersOk(t)
    decreases |ls|
  {
    if ls != [] {
      StepInv(s, ls[0]);
      HeldKept(s, ls[0]);
      WritersKept(s, ls[0]);
      ReadersKept(s, ls[0]);
      RunKept(Apply(s, ls[0]), ls[1..]);
    }
  }

  /**
    In every run, no writer sleeps on a pipe with room or without a reading end, and no
    reader on one with bytes or without a writing end.
   */
  lemma RunSleepers(s: State, ls: seq<Label>)
    requires Init(s) && IsRun(s, ls)
    ensures WritersOk(RunEnd(s, ls)) && ReadersOk(RunEnd(s, ls))
  {
    RunKept(s, ls);
  }

  /**
    pipeclose frees the pipe when both ends are closed: in every run, no process is then in
    a call, and none ever begins one again.
   */
  lemma FreedUnused(s: State, ls: seq<Label>, l: Label)
    requires Init(s) && IsRun(s, ls) && !RunEnd(s, ls).readopen && !RunEnd(s, ls).writeopen
    requires Enabled(RunEnd(s, ls), l)
    ensures forall x <- RunEnd(s, ls).procs :: !InWrite(x) && !InRead(x)
    ensures l.Exit? || l.Fault? || l.Spurious?
  {
    RunKept(s, ls);
    var t := RunEnd(s, ls);
    forall p | 0 <= p < |t.procs|
      ensures (t.procs[p].Idle? || t.procs[p].Gone?) && t.rrefs[p] == t.wrefs[p] == 0
    {
      HeldAt(t, p);
    }
  }

  /** In every run, the tests of `killed` in pipewrite and piperead fail. */
  lemma KilledNeverSeen(s: State, ls: seq<Label>, p: nat)
    requires Init(s) && IsRun(s, ls) && p < |RunEnd(s, ls).procs|
    ensures InWrite(RunEnd(s, ls).procs[p]) || InRead(RunEnd(s, ls).procs[p]) ==> !RunEnd(s, ls).killed[p]
  {
    RunKept(s, ls);
    HeldAt(RunEnd(s, ls), p);
  }
}
