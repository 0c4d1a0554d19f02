/** The copying loops of pipe.c on the ring itself. */
module Pipe {
  import opened PipeModel

  class Buffer {
    const data: array<Byte>
    var nread: nat
    var nwrite: nat

    ghost function Now(): Ring
      reads this, data
    {
      Ring(data[..], nread, nwrite)
    }

    /** pipealloc. */
    constructor ()
      ensures RingOk(Now()) && Holds(Now(), [], 0) && fresh(data)
    {
      data := new Byte[PIPESIZE](_ => 0);
      nread, nwrite := 0, 0;
    }

    /** The loop of pipewrite up to where it is done or the ring is full. */
    method WriteSome(src: seq<Byte>, i: nat) returns (j: nat)
      requires RingOk(Now()) && i <= |src|
      modifies this, data
      ensures RingOk(Now()) && (Now(), j) == Filled(old(Now()), src, i)
    {
      j := i;
      while j < |src| && nwrite != (nread + PIPESIZE) % UINT
        invariant j <= |src| && RingOk(Now()) && Filled(Now(), src, j) == Filled(old(Now()), src, i)
      {
        ghost var r := Now();
        data[nwrite % PIPESIZE] := src[j];
        nwrite := (nwrite + 1) % UINT;
        assert Now() == Put(r, src[j]);
        j := j + 1;
      }
    }

    /** The loop of piperead into the reader's buffer. */
    method ReadSome(dst: array<Byte>, n: nat) returns (k: nat)
      requires RingOk(Now()) && n <= dst.Length && dst != data
      modifies this`nread, dst
      ensures RingOk(Now()) && k <= n && Now() == Drained(old(Now()), n).0 && dst[..k] == Drained(old(Now()), n).1
      ensures dst[k..] == old(dst[k..])
    {
      k := 0;
      ghost var got, all := [], Drained(Now(), n);
      assert all.1 == got + all.1;
      while k < n && nread != nwrite
        invariant k <= n && RingOk(Now()) && dst[..k] == got
        invariant Drained(Now(), n - k).0 == all.0 && got + Drained(Now(), n - k).1 == all.1
        invariant forall j :: k <= j < dst.Length ==> dst[j] == old(dst[j])
      {
        ghost var r := Now();
        DrainOne(r, n - k, got);
        dst[k] := data[nread % PIPESIZE];
        nread := (nread + 1) % UINT;
        assert Now() == Taken(r);
        hide Drained, Taken;
        got := got + [Got(r)];
        k := k + 1;
      }
      assert got + [] == got;
      assert dst[k..] == old(dst[k..]);
    }
  }
}
