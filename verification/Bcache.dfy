/** bio.c: the list relinked in place, each method one step of CacheModel. */
module Bcache {
  import opened CacheList
  import opened CacheModel

  class Cache {
    var prev: seq<nat>
    var next: seq<nat>
    var bufs: seq<Buf>
    /** The memory disk of memide.c. */
    var disk: seq<Data>
    /** Whether a process holds the buffer's sleep lock. */
    var locked: seq<bool>
    ghost var order: seq<nat>
    ghost var users: seq<Users>
    ghost var stamp: seq<int>
    ghost var clock: int
    ghost var at: map<nat, nat>
    ghost var cur: seq<Data>

    ghost function Now(): State
      reads this
    {
      State(bufs, users, stamp, clock, at, disk, cur)
    }

    ghost predicate Valid()
      reads this
    {
      && Inv(Now()) && Ring(prev, next, order) && Sorted(order, stamp)
      && |locked| == NBUF && forall b :: 0 <= b < NBUF ==> locked[b] == users[b].held
    }

    /** binit: thirty empty buffers on the ring. */
    constructor (image: seq<Data>)
      ensures Valid() && Init(Now()) && disk == image
    {
      bufs := seq(NBUF, _ => Buf(false, false, 0, 0, 0, []));
      disk, cur := image, image;
      locked := seq(NBUF, _ => false);
      users := seq(NBUF, _ => Users(0, false, 0, false));
      stamp := seq(NBUF, i => i);
      clock, at := NBUF, map[];
      var p, n;
      ghost var o;
      p, n, o := LinkAll();
      prev, next, order := p, n, o;
      new;
      InitInv(Now());
    }

    static method LinkAll() returns (p: seq<nat>, n: seq<nat>, ghost o: seq<nat>)
      ensures Ring(p, n, o) && Sorted(o, seq(NBUF, i => i))
    {
      p := seq(NBUF + 1, _ => HEAD);
      n := seq(NBUF + 1, _ => HEAD);
      o := [];
      for b := 0 to NBUF
        invariant Ring(p, n, o) && |o| == b
        invariant forall i :: 0 <= i < b ==> o[i] == b - 1 - i
      {
        Pushed(p, n, o, b);
        n := n[b := n[HEAD]];
        p := p[b := HEAD];
        p := p[n[HEAD] := b];
        n := n[HEAD := b];
        o := [b] + o;
      }
      CountedDown(o);
    }

    /**
      bget for device 1, up to the wait for the buffer's lock: the buffer that has the
      block, or else the least recently released idle one, recycled. False is the panic
      that no buffer is idle.
     */
    method Bget(blockno: nat) returns (ok: bool, b: nat)
      requires Valid()
      modifies this`bufs, this`users, this`at
      ensures Valid()
      ensures ok ==> Enabled(old(Now()), Get(blockno, b)) && b < NBUF && Now() == Apply(old(Now()), Get(blockno, b))
      ensures !ok ==> Now() == old(Now()) && forall c :: 0 <= c < NBUF ==> !Has(bufs[c], blockno) && !Idle(bufs[c])
    {
      ghost var s := Now();
      InvShape(s);
      hide Inv, StampsOk, BufOk, Ring, Sorted;
      b := Lookup(blockno);
      if b == HEAD {
        b := Recycle();
        if b == HEAD {
          return false, 0;
        }
        StepInv(s, Get(blockno, b));
        ghost var k := bufs[b].blockno;
        at := (if bufs[b].dev == 1 then at - {k} else at)[blockno := b];
        bufs := bufs[b := Buf(false, false, 1, blockno, 1, bufs[b].data)];
      } else {
        StepInv(s, Get(blockno, b));
        bufs := bufs[b := bufs[b].(refcnt := bufs[b].refcnt + 1)];
      }
      users := users[b := users[b].(waiting := users[b].waiting + 1)];
      assert Now() == Apply(s, Get(blockno, b));
      return true, b;
    }

    /** The first loop of bget: the buffer that has the block, or the head. */
    method Lookup(blockno: nat) returns (b: nat)
      requires Valid()
      ensures b <= NBUF
      ensures if b == HEAD then forall c :: 0 <= c < NBUF ==> !Has(bufs[c], blockno) else Has(bufs[b], blockno)
    {
      InvShape(Now());
      hide Inv, BufOk, StampsOk;
      b := next[HEAD];
      ghost var i := 1;
      assert next[Node(order, 0)] == Node(order, 1);
      while b != HEAD
        invariant 1 <= i <= NBUF + 1 && b == Node(order, i)
        invariant forall j :: 0 <= j < i - 1 ==> !Has(bufs[order[j]], blockno)
        decreases NBUF + 1 - i
      {
        if bufs[b].dev == 1 && bufs[b].blockno == blockno {
          return;
        }
        b := next[b];
        i := i + 1;
      }
      NoneHas(order, stamp, bufs, blockno);
    }

    /** The second loop of bget: the least recently released idle buffer, or the head. */
    method Recycle() returns (b: nat)
      requires Valid()
      ensures b <= NBUF
      ensures if b == HEAD then forall c :: 0 <= c < NBUF ==> !Idle(bufs[c]) else Victim(Now(), b)
    {
      InvShape(Now());
      hide Inv, BufOk, StampsOk, Victim;
      b := prev[HEAD];
      ghost var i := NBUF;
      assert prev[Node(order, NBUF + 1)] == Node(order, NBUF);
      while b != HEAD
        invariant 0 <= i <= NBUF && b == Node(order, i)
        invariant forall j :: i <= j < NBUF ==> !Idle(bufs[order[j]])
        decreases i
      {
        FirstFromBack(order, Now(), i);
        if bufs[b].refcnt == 0 && !bufs[b].dirty {
          return;
        }
        b := prev[b];
        i := i - 1;
      }
      FirstFromBack(order, Now(), i);
    }

    /** acquiresleep on a buffer after bget, when its lock is free. */
    method Lock(b: nat)
      requires Valid() && Enabled(Now(), CacheModel.Lock(b)) && b < NBUF
      modifies this`users, this`locked
      ensures Valid() && Now() == Apply(old(Now()), CacheModel.Lock(b))
    {
      ghost var s := Now();
      StepInv(s, CacheModel.Lock(b));
      InvShape(s);
      hide Inv, StampsOk, BufOk, Ring, Sorted;
      locked := locked[b := true];
      users := users[b := users[b].(waiting := users[b].waiting - 1, held := true)];
      assert Now() == Apply(s, CacheModel.Lock(b));
    }

    /** iderw of memide.c; false is one of its panics. */
    method Iderw(b: nat) returns (ok: bool)
      requires b < |bufs| == |locked|
      modifies this`bufs, this`disk
      ensures ok <==>
                old(locked[b] && !(bufs[b].valid && !bufs[b].dirty) && bufs[b].dev == 1 && bufs[b].blockno < |disk|)
      ensures !ok ==> bufs == old(bufs) && disk == old(disk)
      ensures ok ==> |bufs| == |old(bufs)| && bufs == old(bufs)[b := bufs[b]] && |disk| == |old(disk)|
      ensures ok && old(bufs[b].dirty) ==>
                && bufs[b] == old(bufs[b]).(dirty := false, valid := true)
                && disk == old(disk)[old(bufs[b]).blockno := old(bufs[b]).data]
      ensures ok && !old(bufs[b].dirty) ==>
                bufs[b] == old(bufs[b]).(data := disk[old(bufs[b]).blockno], valid := true) && disk == old(disk)
    {
      if !locked[b] || (bufs[b].valid && !bufs[b].dirty) || bufs[b].dev != 1 || bufs[b].blockno >= |disk| {
        return false;
      }
      if bufs[b].dirty {
        bufs := bufs[b := bufs[b].(dirty := false)];
        disk := disk[bufs[b].blockno := bufs[b].data];
      } else {
        bufs := bufs[b := bufs[b].(data := disk[bufs[b].blockno])];
      }
      bufs := bufs[b := bufs[b].(valid := true)];
      return true;
    }

    /** The rest of bread: a buffer that is not valid is read. False is the panic for a block beyond the disk. */
    method Bread(b: nat) returns (ok: bool)
      requires Valid() && b < NBUF && users[b].held
      modifies this`bufs, this`disk
      ensures ok <==> old(bufs)[b].valid || old(bufs)[b].blockno < |old(disk)|
      ensures !ok ==> Now() == old(Now())
      ensures ok ==> Valid() && bufs[b].valid
      ensures ok ==> Now() == if old(bufs)[b].valid then old(Now()) else Apply(old(Now()), Fill(b))
    {
      ghost var s := Now();
      InvShape(s);
      assert BufOk(s, b);
      hide Inv, BufOk, StampsOk, Ring, Sorted;
      ok := true;
      if !bufs[b].valid {
        if bufs[b].blockno < |disk| {
          StepInv(s, Fill(b));
        }
        ok := Iderw(b);
        assert ok ==> Now() == Apply(s, Fill(b));
      }
    }

    /** bwrite on a buffer that bread gave; false is its panic when the buffer is not locked. */
    method Bwrite(b: nat) returns (ok: bool)
      requires Valid() && b < NBUF && bufs[b].valid
      modifies this`bufs, this`disk, this`users
      ensures Valid() && (ok <==> old(users)[b].held)
      ensures if ok then Enabled(old(Now()), Write(b)) && Now() == Apply(old(Now()), Write(b)) else Now() == old(Now())
    {
      ghost var s := Now();
      InvShape(s);
      assert BufOk(s, b);
      hide Inv, BufOk, StampsOk, Ring, Sorted;
      if !locked[b] {
        return false;
      }
      assert Enabled(s, Write(b));
      hide Enabled;
      StepInv(s, Write(b));
      bufs := bufs[b := bufs[b].(dirty := true)];
      ok := Iderw(b);
      users := users[b := users[b].(touched := false)];
      assert Now() == Apply(s, Write(b));
    }

    /** The pin of log_write, log.c:229: a dirty buffer is not recycled. */
    method Pin(b: nat)
      requires Valid() && Enabled(Now(), LogWrite(b)) && b < NBUF
      modifies this`bufs, this`users
      ensures Valid() && Now() == Apply(old(Now()), LogWrite(b))
    {
      ghost var s := Now();
      StepInv(s, LogWrite(b));
      InvShape(s);
      hide Inv, StampsOk, BufOk, Ring, Sorted;
      bufs := bufs[b := bufs[b].(dirty := true)];
      users := users[b := users[b].(touched := false)];
      assert Now() == Apply(s, LogWrite(b));
    }

    /** brelse up to releasesleep; false is its panic when the buffer is not locked. */
    method Unlock(b: nat) returns (ok: bool)
      requires Valid() && b < NBUF && bufs[b].valid && !users[b].touched
      modifies this`users, this`locked
      ensures Valid() && (ok <==> old(users)[b].held)
      ensures if ok then Now() == Apply(old(Now()), CacheModel.Unlock(b)) else Now() == old(Now())
    {
      if !locked[b] {
        return false;
      }
      ghost var s := Now();
      StepInv(s, CacheModel.Unlock(b));
      InvShape(s);
      hide Inv, StampsOk, BufOk, Ring, Sorted;
      locked := locked[b := false];
      users := users[b := users[b].(held := false, leaving := users[b].leaving + 1)];
      assert Now() == Apply(s, CacheModel.Unlock(b));
      return true;
    }

    /** The rest of brelse: drop the reference; the last one moves the buffer to the front. */
    method Put(b: nat)
      requires Valid() && b < NBUF && Enabled(Now(), CacheModel.Put(b))
      modifies this`bufs, this`users, this`stamp, this`clock, this`prev, this`next, this`order
      ensures Valid() && Now() == Apply(old(Now()), CacheModel.Put(b))
    {
      ghost var s := Now();
      hide Inv, Ring, Sorted, Enabled, Apply;
      StampBound(s);
      PutParts(s, b);
      StepInv(s, CacheModel.Put(b));
      bufs := bufs[b := bufs[b].(refcnt := bufs[b].refcnt - 1)];
      users := users[b := users[b].(leaving := users[b].leaving - 1)];
      if bufs[b].refcnt == 0 {
        MoveFirst(b);
        stamp, clock := stamp[b := clock + 1], clock + 1;
      }
      assert Now() == Apply(s, CacheModel.Put(b));
    }

    /** The relinking of brelse. */
    method MoveFirst(b: nat)
      requires Ring(prev, next, order) && Sorted(order, stamp) && b < NBUF
      requires forall c :: 0 <= c < NBUF ==> stamp[c] <= clock
      modifies this`prev, this`next, this`order
      ensures Ring(prev, next, order) && Sorted(order, stamp[b := clock + 1]) && |order| == NBUF && order[0] == b
              && next[HEAD] == b
    {
      ghost var i := Position(order, stamp, b);
      assert |stamp| == NBUF;
      hide Ring, Sorted;
      ReleasedFirst(order, stamp, i, clock + 1);
      Unlinked(prev, next, order, i);
      ghost var rest := Without(order, i);
      prev := prev[next[b] := prev[b]];
      next := next[prev[b] := next[b]];
      Pushed(prev, next, rest, b);
      next := next[b := next[HEAD]];
      prev := prev[b := HEAD];
      prev := prev[next[HEAD] := b];
      next := next[HEAD := b];
      order := [b] + rest;
    }
  }
}
