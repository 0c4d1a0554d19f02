/** umalloc.c: the ring walked and relinked in place. */
module Umalloc {
  import opened HeapModel

  const HEADER := 16
  const CHUNK := 4096

  /** Header units for a request of `nbytes`. */
  function UnitsFor(nbytes: nat): (n: nat)
    ensures n >= 1 && (n - 1) * HEADER >= nbytes && (n >= 2 ==> (n - 2) * HEADER < nbytes)
  {
    (nbytes + HEADER - 1) / HEADER + 1
  }

  function Max(a: nat, b: nat): nat {
    if a > b then a else b
  }

  class Allocator {
    var mem: map<nat, Header>
    /** 0 before the first call of malloc. */
    var freep: nat
    /** The end of the process's memory, and how far sbrk can move it. */
    var brk: nat
    const limit: nat
    ghost var free: set<nat>
    ghost var live: map<nat, nat>
    ghost var cover: map<nat, nat>

    ghost function Now(): Heap
      reads this
    {
      Heap(mem, free, live, cover)
    }

    ghost predicate Valid()
      reads this
    {
      && BASE < brk && (forall u <- cover :: u < brk)
      && if freep == 0 then live == map[] && cover == map[] else HeapOk(Now()) && freep in free
    }

    constructor (start: nat, limit: nat)
      requires BASE < start
      ensures Valid() && live == map[] && brk == start && this.limit == limit
    {
      mem, freep, brk := map[], 0, start;
      this.limit := limit;
      free, live, cover := {}, map[], map[];
    }

    /** The loop of free: the free block right below `bp`. */
    method FindBelow(bp: nat) returns (p: nat)
      requires Valid() && freep != 0 && bp !in free && BASE < bp
      ensures Below(Now(), p, bp)
    {
      BlocksBelow(Now(), brk);
      hide CoverOk, LiveOk, Apart;
      p := freep;
      while !(bp > p && bp < mem[p].ptr)
        invariant p in free
        decreases if p > bp then 1 else 0, brk - p
      {
        assert mem[p].ptr == Next(mem, p) && Next(mem, p) in free;
        if p >= mem[p].ptr && (bp > p || bp < mem[p].ptr) {
          break;
        }
        p := mem[p].ptr;
      }
      assert mem[p].ptr == Next(mem, p);
    }

    /** free: the block goes back; it is then the only one that is no longer live. */
    method Free(ap: nat)
      requires Valid() && ap > 0 && ap - 1 in live
      modifies this`mem, this`freep, this`free, this`live, this`cover
      ensures Valid() && freep != 0 && live == old(live) - {ap - 1} && cover.Keys == old(cover.Keys)
      ensures Below(old(Now()), freep, ap - 1) && Now() == Coalesced(old(Now()), freep, ap - 1)
    {
      hide HeapOk, Coalesced, Below;
      ghost var h := Now();
      var bp := ap - 1;
      LiveBlock(h, bp);
      var p := FindBelow(bp);
      CoalescedOk(h, p, bp);
      CoalescedParts(h, p, bp);
      BelowFree(h, p, bp);
      var n := mem[p].ptr;
      if bp + mem[bp].size == n {
        mem := mem[bp := Header(mem[n].ptr, mem[bp].size + mem[n].size)];
      } else {
        mem := mem[bp := Header(n, mem[bp].size)];
      }
      if p + mem[p].size == bp {
        mem := mem[p := Header(mem[bp].ptr, mem[p].size + mem[bp].size)];
      } else {
        mem := mem[p := Header(bp, mem[p].size)];
      }
      freep := p;
      ghost var g := Coalesced(h, p, bp);
      assert mem == g.mem;
      free, live, cover := g.free, g.live, g.cover;
    }

    /** The search of malloc, once around the ring from `freep`: the first block with room, and the one before it. */
    method Search(n: nat) returns (found: bool, prevp: nat, p: nat)
      requires Valid() && freep != 0
      ensures found ==> prevp in free && p in free && Next(mem, prevp) == p && Size(mem, p) >= n
      ensures !found ==> NoRoom(Now(), n)
    {
      BlocksBelow(Now(), brk);
      hide CoverOk, LiveOk, Apart;
      prevp := freep;
      assert Next(mem, freep) in free;
      p := mem[prevp].ptr;
      ghost var around := p <= freep;
      while true
        invariant prevp in free && p in free && Next(mem, prevp) == p
        invariant around <==> p <= freep
        invariant forall c <- free :: (if around then c > freep || c < p else freep < c < p) ==> Size(mem, c) < n
        decreases if around then 0 else 1, brk - p
      {
        assert mem[p].size == Size(mem, p);
        if mem[p].size >= n {
          return true, prevp, p;
        }
        if p == freep {
          return false, prevp, p;
        }
        assert Next(mem, p) in free;
        prevp, p := p, mem[p].ptr;
        around := p <= freep;
      }
    }

    /** morecore: at least `CHUNK` units from sbrk, given to free; 0 if sbrk refuses. */
    method Morecore(nu: nat) returns (p: nat)
      requires Valid() && freep != 0 && nu > 0
      modifies this`mem, this`freep, this`free, this`live, this`cover, this`brk
      ensures Valid() && freep != 0 && live == old(live)
      ensures p == (if old(brk) + Max(nu, CHUNK) > limit then 0 else freep)
      ensures p == 0 ==> Now() == old(Now()) && freep == old(freep) && brk == old(brk)
      ensures p != 0 ==> cover.Keys == old(cover.Keys) + Units(old(brk), Max(nu, CHUNK)) && !NoRoom(Now(), nu)
    {
      hide HeapOk, Coalesced, Below;
      var n := Max(nu, CHUNK);
      if brk + n > limit {
        return 0;
      }
      var hp := brk;
      ghost var h := Now();
      ObtainedOk(h, hp, n);
      ObtainedUnits(h, hp, n);
      brk := brk + n;
      mem := mem[hp := Header(if hp in mem then mem[hp].ptr else 0, n)];
      live, cover := live[hp := n], cover + Region(hp, n);
      ghost var g := Now();
      LiveBlock(g, hp);
      Free(hp + 1);
      ghost var a := CoalescedRoom(g, freep, hp);
      assert live == old(live);
      p := freep;
    }

    /**
      malloc: a block of the units that `nbytes` and a header need, which was not live before;
      at most one morecore, and only when no free block is large enough. 0 if sbrk refuses.
     */
    method Malloc(nbytes: nat) returns (r: nat)
      requires Valid()
      modifies this
      ensures Valid() && freep != 0
      ensures r == 0 ==> live == old(live) && cover.Keys == old(cover.Keys)
                         && NoRoom(Now(), UnitsFor(nbytes)) && old(brk) + Max(UnitsFor(nbytes), CHUNK) > limit
      ensures r != 0 ==> r - 1 !in old(live) && live == old(live)[r - 1 := UnitsFor(nbytes)]
      ensures r != 0 ==> || cover.Keys == old(cover.Keys)
                         || cover.Keys == old(cover.Keys) + Units(old(brk), Max(UnitsFor(nbytes), CHUNK))
    {
      hide HeapOk, NoRoom;
      var n := UnitsFor(nbytes);
      if freep == 0 {
        BaseOnly(mem);
        mem := mem[BASE := Header(BASE, 0)];
        freep, free := BASE, {BASE};
      }
      var found, prevp, p := Search(n);
      if !found {
        var more := Morecore(n);
        if more == 0 {
          return 0;
        }
        found, prevp, p := Search(n);
      }
      r := Carve(prevp, p, n);
    }

    /** The part of malloc that takes the block, whole or its tail. */
    method Carve(prevp: nat, p: nat, n: nat) returns (r: nat)
      requires Valid() && freep != 0 && prevp in free && p in free && Next(mem, prevp) == p && Size(mem, p) >= n
               && n > 0
      modifies this`mem, this`freep, this`free, this`live, this`cover
      ensures Valid() && r > 0 && freep != 0 && r - 1 !in old(live) && live == old(live)[r - 1 := n]
              && cover.Keys == old(cover.Keys)
    {
      hide HeapOk;
      RoomyBlock(Now(), prevp, p, n);
      if mem[p].size == n {
        TakeWhole(prevp, p);
        r := p + 1;
      } else {
        r := TakeTail(p, n);
      }
      freep := prevp;
    }

    method TakeWhole(prevp: nat, p: nat)
      requires HeapOk(Now()) && prevp in free && p in free && p != BASE && prevp in mem && p in mem
               && Next(mem, prevp) == p
      modifies this`mem, this`free, this`live
      ensures HeapOk(Now()) && free == old(free) - {p} && live == old(live)[p := old(Size(mem, p))]
    {
      UnlinkedOk(Now(), prevp, p);
      hide HeapOk;
      ghost var g := Unlinked(Now(), prevp, p);
      mem := mem[prevp := Header(mem[p].ptr, mem[prevp].size)];
      free, live := g.free, g.live;
    }

    method TakeTail(p: nat, n: nat) returns (r: nat)
      requires HeapOk(Now()) && p in free && p in mem && 0 < n < Size(mem, p)
      modifies this`mem, this`live, this`cover
      ensures HeapOk(Now()) && r > 0 && r - 1 !in old(live) && live == old(live)[r - 1 := n]
              && cover.Keys == old(cover.Keys)
    {
      ghost var h := Now();
      SplitOk(h, p, n);
      hide HeapOk;
      mem := mem[p := Header(mem[p].ptr, mem[p].size - n)];
      var b := p + mem[p].size;
      mem := mem[b := Header(if b in mem then mem[b].ptr else 0, n)];
      live, cover := live[b := n], Split(h, p, n).cover;
      assert Now() == Split(h, p, n);
      r := b + 1;
    }

    /** Giving a block straight back leaves the free list as it was, unless malloc had to ask sbrk. */
    method MallocThenFree(nbytes: nat) returns (r: nat)
      requires Valid() && freep != 0
      modifies this
      ensures Valid() && live == old(live)
      ensures cover.Keys == old(cover.Keys) ==>
                free == old(free) && forall a <- free :: Size(mem, a) == old(Size(mem, a))
    {
      hide HeapOk, NoRoom;
      ghost var h := Now();
      r := Malloc(nbytes);
      if r != 0 {
        Free(r);
        assert live == h.live;
      }
      if cover.Keys == h.cover.Keys {
        Canonical(h, Now());
      }
    }
  }
}
