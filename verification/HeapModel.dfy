/**
  The free list of umalloc.c on values. Addresses count header units; the static header
  `base` lies below all memory that sbrk gives. A block is a header and the units after it
  that its size counts, the header's own unit included.
 */
module HeapModel {

  const BASE := 1

  datatype Header = Header(ptr: nat, size: nat)

  /**
    `free` are the nodes of the free list, `live` the blocks in use with their sizes, and
    `cover` maps each unit obtained from sbrk to the block it belongs to.
   */
  datatype Heap = Heap(mem: map<nat, Header>, free: set<nat>, live: map<nat, nat>, cover: map<nat, nat>)

  function Next(mem: map<nat, Header>, a: nat): nat {
    if a in mem then mem[a].ptr else 0
  }

  function Size(mem: map<nat, Header>, a: nat): nat {
    if a in mem then mem[a].size else 0
  }

  /** From each free block `ptr` leads to the next higher one, and from the highest back to the base. */
  ghost predicate RingOk(mem: map<nat, Header>, free: set<nat>) {
    && BASE in free
    && (forall a <- free :: a in mem && BASE <= a)
    && (forall a {:trigger Next(mem, a)} :: a in free ==>
          Next(mem, a) in free && (Next(mem, a) <= a ==> Next(mem, a) == BASE))
    && (forall a, c {:trigger Next(mem, a), c in free} :: a in free && c in free && a < c ==> a < Next(mem, a) <= c)
    && (forall a {:trigger Size(mem, a)} :: a in free ==> (Size(mem, a) == 0 <==> a == BASE))
  }

  ghost predicate LiveOk(h: Heap) {
    forall b <- h.live :: BASE < b && b !in h.free && b in h.mem && Size(h.mem, b) == h.live[b] && h.live[b] > 0
  }

  predicate IsBlock(h: Heap, b: nat) {
    b in h.free || b in h.live
  }

  /** Unit `u` is in block `b`. */
  ghost predicate In(h: Heap, b: nat, u: nat) {
    IsBlock(h, b) && b <= u < b + Size(h.mem, b)
  }

  /** The units obtained from sbrk are those in blocks, and each is in one block only. */
  ghost predicate CoverOk(h: Heap) {
    && (forall u <- h.cover :: In(h, h.cover[u], u))
    && (forall b, u {:trigger In(h, b, u)} :: In(h, b, u) ==> u in h.cover && h.cover[u] == b)
  }

  ghost predicate ListOk(h: Heap) {
    RingOk(h.mem, h.free) && LiveOk(h) && CoverOk(h)
  }

  /** No free block ends where another begins. */
  ghost predicate Apart(mem: map<nat, Header>, free: set<nat>) {
    forall a, c {:trigger Size(mem, a), c in free} :: a in free && c in free && a < c ==> a + Size(mem, a) != c
  }

  ghost predicate HeapOk(h: Heap) {
    ListOk(h) && Apart(h.mem, h.free)
  }

  /** Blocks do not overlap. */
  lemma Disjoint(h: Heap, a: nat, b: nat)
    requires ListOk(h) && IsBlock(h, a) && IsBlock(h, b) && a < b
    ensures a + Size(h.mem, a) <= b
  {
    assert Size(h.mem, b) > 0;
    assert In(h, b, b);
    assert b < a + Size(h.mem, a) ==> In(h, a, b);
  }

  /** Only one free block leads to another. */
  lemma OnePredecessor(mem: map<nat, Header>, free: set<nat>, a: nat, b: nat)
    requires RingOk(mem, free) && a in free && b in free && Next(mem, a) == Next(mem, b)
    ensures a == b
  {
  }

  // ---------------------------------------------------------------------------
  // Taking a block for use

  /** A whole free block becomes live: its predecessor skips it. */
  ghost function Unlinked(h: Heap, prev: nat, p: nat): Heap
    requires prev in h.mem && p in h.mem
  {
    Heap(h.mem[prev := Header(h.mem[p].ptr, h.mem[prev].size)], h.free - {p}, h.live[p := h.mem[p].size], h.cover)
  }

  lemma UnlinkedNode(mem: map<nat, Header>, free: set<nat>, prev: nat, p: nat, a: nat, c: nat)
    requires RingOk(mem, free) && prev in free && p in free && p != BASE && Next(mem, prev) == p
    requires a in free && c in free && a != p && c != p
    ensures var n := if a == prev then Next(mem, p) else Next(mem, a);
            n in free && n != p && (n <= a ==> n == BASE) && (a < c ==> a < n <= c)
  {
    if a == prev {
      assert Next(mem, p) > p || Next(mem, p) == BASE;
    } else if Next(mem, a) == p {
      OnePredecessor(mem, free, a, prev);
    }
  }

  lemma UnlinkedRing(mem: map<nat, Header>, free: set<nat>, prev: nat, p: nat)
    requires RingOk(mem, free) && prev in free && p in free && p != BASE && Next(mem, prev) == p
    ensures RingOk(mem[prev := Header(mem[p].ptr, mem[prev].size)], free - {p})
  {
    var m, f := mem[prev := Header(mem[p].ptr, mem[prev].size)], free - {p};
    forall a <- f, c <- f
      ensures Size(m, a) == Size(mem, a)
      ensures Next(m, a) in f && (Next(m, a) <= a ==> Next(m, a) == BASE)
      ensures a < c ==> a < Next(m, a) <= c
    {
      UnlinkedNode(mem, free, prev, p, a, c);
    }
    assert BASE in f;
  }

  lemma UnlinkedOk(h: Heap, prev: nat, p: nat)
    requires HeapOk(h) && prev in h.free && p in h.free && p != BASE && Next(h.mem, prev) == p
    ensures HeapOk(Unlinked(h, prev, p))
  {
    UnlinkedRing(h.mem, h.free, prev, p);
    var g := Unlinked(h, prev, p);
    forall b
      ensures Size(g.mem, b) == Size(h.mem, b) && (IsBlock(g, b) <==> IsBlock(h, b))
    {
    }
    SameCover(h, g);
  }

  /** The same blocks with the same sizes have the same units. */
  lemma SameCover(h: Heap, g: Heap)
    requires CoverOk(h) && g.cover == h.cover
    requires forall b :: IsBlock(g, b) ==> IsBlock(h, b) && Size(g.mem, b) == Size(h.mem, b)
    requires forall b :: IsBlock(h, b) ==> IsBlock(g, b)
    ensures CoverOk(g)
  {
    assert forall b, u :: In(g, b, u) ==> In(h, b, u);
  }

  /** Units `lo` to `lo + n - 1` move from block `a` to block `b`, and no other unit moves. */
  lemma MovedCover(h: Heap, g: Heap, lo: nat, n: nat, a: nat, b: nat)
    requires CoverOk(h) && g.cover == Recovered(h.cover, lo, n, b)
    requires forall x: nat, u: nat :: In(g, x, u) <==> if lo <= u < lo + n then x == b && In(h, a, u) else In(h, x, u)
    requires forall u :: lo <= u < lo + n ==> In(h, a, u)
    ensures CoverOk(g)
  {
    forall u <- g.cover
      ensures In(g, g.cover[u], u)
    {
      assert In(h, h.cover[u], u);
    }
  }

  /** The units from `a` to `a + n - 1` go to block `b`. */
  ghost function Recovered(cover: map<nat, nat>, a: nat, n: nat, b: nat): (r: map<nat, nat>)
    ensures r.Keys == cover.Keys && forall u <- cover :: r[u] == if a <= u < a + n then b else cover[u]
  {
    map u | u in cover :: if a <= u < a + n then b else cover[u]
  }

  /** The tail of a larger free block becomes live. */
  ghost function Split(h: Heap, p: nat, n: nat): Heap
    requires n < Size(h.mem, p)
  {
    var q := p + Size(h.mem, p) - n;
    Heap(h.mem[p := Header(Next(h.mem, p), Size(h.mem, p) - n)][q := Header(Next(h.mem, q), n)],
         h.free, h.live[q := n], Recovered(h.cover, q, n, q))
  }

  lemma SplitOk(h: Heap, p: nat, n: nat)
    requires HeapOk(h) && p in h.free && 0 < n < Size(h.mem, p)
    ensures !IsBlock(h, p + Size(h.mem, p) - n) && HeapOk(Split(h, p, n))
  {
    var q, g := p + Size(h.mem, p) - n, Split(h, p, n);
    SplitPlace(h, p, n);
    SplitCover(h, p, n);
    forall b: nat
      ensures Next(g.mem, b) == Next(h.mem, b)
      ensures Size(g.mem, b) == if b == p then Size(h.mem, p) - n else if b == q then n else Size(h.mem, b)
    {
    }
    hide CoverOk;
  }

  lemma SplitPlace(h: Heap, p: nat, n: nat)
    requires ListOk(h) && p in h.free && 0 < n < Size(h.mem, p)
    ensures !IsBlock(h, p + Size(h.mem, p) - n)
  {
    var q := p + Size(h.mem, p) - n;
    if IsBlock(h, q) {
      Disjoint(h, p, q);
    }
  }

  lemma SplitCover(h: Heap, p: nat, n: nat)
    requires CoverOk(h) && p in h.free && 0 < n < Size(h.mem, p) && !IsBlock(h, p + Size(h.mem, p) - n)
    ensures CoverOk(Split(h, p, n))
  {
    var q, g := p + Size(h.mem, p) - n, Split(h, p, n);
    forall b: nat
      ensures Size(g.mem, b) == if b == p then Size(h.mem, p) - n else if b == q then n else Size(h.mem, b)
      ensures IsBlock(g, b) <==> IsBlock(h, b) || b == q
    {
    }
    forall x: nat, u: nat
      ensures In(g, x, u) <==> if q <= u < q + n then x == q && In(h, p, u) else In(h, x, u)
    {
      if q <= u < q + n {
        assert In(h, p, u);
        assert In(h, x, u) ==> x == p;
      }
    }
    MovedCover(h, g, q, n, p, q);
  }

  // ---------------------------------------------------------------------------
  // Giving a block back

  /** `p` is the free block right below `b`. */
  ghost predicate Below(h: Heap, p: nat, b: nat) {
    p in h.free && p < b && forall c <- h.free :: c <= p || c > b
  }

  /** A live block goes on the ring after `p`. */
  ghost function Inserted(h: Heap, p: nat, b: nat): Heap {
    Heap(h.mem[b := Header(Next(h.mem, p), Size(h.mem, b))][p := Header(b, Size(h.mem, p))],
         h.free + {b}, h.live - {b}, h.cover)
  }

  lemma InsertedOk(h: Heap, p: nat, b: nat)
    requires ListOk(h) && b in h.live && Below(h, p, b)
    ensures ListOk(Inserted(h, p, b))
  {
    var g := Inserted(h, p, b);
    forall x: nat
      ensures Size(g.mem, x) == Size(h.mem, x) && (IsBlock(g, x) <==> IsBlock(h, x))
    {
    }
    SameCover(h, g);
    InsertedRing(h, p, b);
    hide CoverOk, RingOk;
  }

  lemma InsertedRing(h: Heap, p: nat, b: nat)
    requires RingOk(h.mem, h.free) && LiveOk(h) && b in h.live && Below(h, p, b)
    ensures RingOk(Inserted(h, p, b).mem, Inserted(h, p, b).free)
  {
    var g := Inserted(h, p, b);
    forall a <- g.free, c <- g.free
      ensures Next(g.mem, a) in g.free && (Next(g.mem, a) <= a ==> Next(g.mem, a) == BASE)
      ensures a < c ==> a < Next(g.mem, a) <= c
    {
      InsertedNode(h, p, b, a, c);
    }
    forall a <- g.free
      ensures Size(g.mem, a) == 0 <==> a == BASE
    {
      assert Size(g.mem, a) == Size(h.mem, a);
    }
    hide Next, Size;
  }

  lemma InsertedNode(h: Heap, p: nat, b: nat, a: nat, c: nat)
    requires RingOk(h.mem, h.free) && LiveOk(h) && b in h.live && Below(h, p, b)
    requires a in h.free + {b} && c in h.free + {b}
    ensures var n := Next(Inserted(h, p, b).mem, a);
            n in h.free + {b} && (n <= a ==> n == BASE) && (a < c ==> a < n <= c)
  {
    var g := Inserted(h, p, b);
    assert Next(g.mem, a) == if a == p then b else if a == b then Next(h.mem, p) else Next(h.mem, a);
    assert a in h.free ==> Next(h.mem, a) in h.free;
    assert Next(h.mem, p) in h.free;
  }

  /** A free block takes in the next one, which begins where it ends. */
  ghost function Merged(h: Heap, a: nat): Heap {
    var n := Next(h.mem, a);
    Heap(h.mem[a := Header(Next(h.mem, n), Size(h.mem, a) + Size(h.mem, n))], h.free - {n}, h.live,
         Recovered(h.cover, n, Size(h.mem, n), a))
  }

  lemma MergedOk(h: Heap, a: nat)
    requires ListOk(h) && a in h.free && a + Size(h.mem, a) == Next(h.mem, a) && a < Next(h.mem, a)
    ensures ListOk(Merged(h, a))
  {
    var n, g := Next(h.mem, a), Merged(h, a);
    assert n in h.free && n != BASE && a != BASE;
    UnlinkedRing(h.mem, h.free, a, n);
    var m := h.mem[a := Header(h.mem[n].ptr, h.mem[a].size)];
    forall x
      ensures Size(g.mem, x) == if x == a then Size(h.mem, a) + Size(h.mem, n) else Size(h.mem, x)
      ensures Next(g.mem, x) == Next(m, x) && (x != a ==> Size(m, x) == Size(g.mem, x))
      ensures IsBlock(g, x) <==> IsBlock(h, x) && x != n
    {
    }
    assert RingOk(g.mem, g.free);
    MergedCover(h, a);
  }

  lemma MergedCover(h: Heap, a: nat)
    requires ListOk(h) && a in h.free && a + Size(h.mem, a) == Next(h.mem, a) && a < Next(h.mem, a)
    ensures CoverOk(Merged(h, a))
  {
    var n, g := Next(h.mem, a), Merged(h, a);
    assert n in h.free && n != BASE;
    hide RingOk;
    forall x: nat
      ensures Size(g.mem, x) == if x == a then Size(h.mem, a) + Size(h.mem, n) else Size(h.mem, x)
      ensures IsBlock(g, x) <==> IsBlock(h, x) && x != n
    {
    }
    var k := Size(h.mem, n);
    forall x: nat, u: nat
      ensures In(g, x, u) <==> if n <= u < n + k then x == a && In(h, n, u) else In(h, x, u)
    {
      if n <= u < n + k {
        assert In(h, n, u);
        assert In(h, x, u) ==> x == n;
      }
    }
    MovedCover(h, g, n, k, n, a);
  }

  /** Two free blocks that touch. */
  ghost predicate Touch(h: Heap, x: nat, y: nat) {
    x in h.free && y in h.free && x < y && x + Size(h.mem, x) == y
  }

  lemma InsertedTouch(h: Heap, p: nat, b: nat, x: nat, y: nat)
    requires HeapOk(h) && b in h.live && Below(h, p, b) && Touch(Inserted(h, p, b), x, y)
    ensures (x == b && y == Next(h.mem, p)) || (x == p && y == b)
  {
    InsertedOk(h, p, b);
    var g := Inserted(h, p, b);
    assert Size(g.mem, x) == Size(h.mem, x);
    if x == b {
      assert Next(g.mem, b) == Next(h.mem, p);
      if Next(g.mem, b) < y {
        Disjoint(g, b, Next(g.mem, b));
      }
    } else if y == b {
      if x < p {
        Disjoint(h, x, p);
      }
    }
  }

  lemma MergedTouch(h: Heap, a: nat, x: nat, y: nat)
    requires ListOk(h) && Touch(h, a, Next(h.mem, a)) && Touch(Merged(h, a), x, y)
    ensures Touch(h, if x == a then Next(h.mem, a) else x, y)
  {
    var n := Next(h.mem, a);
    MergedOk(h, a);
    assert Size(Merged(h, a).mem, x) == if x == a then Size(h.mem, a) + Size(h.mem, n) else Size(h.mem, x);
    assert Size(h.mem, n) > 0;
  }

  /** What free does: the block goes on the ring and takes in its neighbours that it touches. */
  ghost function Coalesced(h: Heap, p: nat, b: nat): Heap {
    var i := Inserted(h, p, b);
    var j := if b + Size(h.mem, b) == Next(h.mem, p) then Merged(i, b) else i;
    if p + Size(h.mem, p) == b then Merged(j, p) else j
  }

  /** free keeps the list in order and its blocks apart; the block is the only one that stops being live. */
  lemma CoalescedOk(h: Heap, p: nat, b: nat)
    requires HeapOk(h) && b in h.live && Below(h, p, b)
    ensures HeapOk(Coalesced(h, p, b))
    ensures Coalesced(h, p, b).live == h.live - {b} && Coalesced(h, p, b).cover.Keys == h.cover.Keys
  {
    var i := Inserted(h, p, b);
    InsertedOk(h, p, b);
    assert Next(i.mem, b) == Next(h.mem, p) && Size(i.mem, b) == Size(h.mem, b) > 0;
    assert Next(i.mem, p) == b && Size(i.mem, p) == Size(h.mem, p) && Next(h.mem, p) in h.free;
    var j := if b + Size(h.mem, b) == Next(h.mem, p) then Merged(i, b) else i;
    if b + Size(h.mem, b) == Next(h.mem, p) {
      MergedOk(i, b);
    }
    assert Next(j.mem, p) == b && Size(j.mem, p) == Size(h.mem, p) && ListOk(j) && p in j.free && b in j.free;
    hide ListOk;
    forall x, y | Touch(j, x, y)
      ensures x == p && y == b
    {
      UpperApart(h, p, b, x, y);
    }
    hide Merged, Inserted;
    if p + Size(h.mem, p) == b {
      MergedOk(j, p);
      forall x, y
        ensures !Touch(Merged(j, p), x, y)
      {
        if Touch(Merged(j, p), x, y) {
          MergedTouch(j, p, x, y);
        }
      }
      ApartByTouch(Merged(j, p));
    } else {
      ApartByTouch(j);
    }
  }

  lemma ApartByTouch(h: Heap)
    requires forall x, y :: !Touch(h, x, y)
    ensures Apart(h.mem, h.free)
  {
    forall a, c | a in h.free && c in h.free && a < c
      ensures a + Size(h.mem, a) != c
    {
      assert !Touch(h, a, c);
    }
  }

  /** After the merge with the upper neighbour, only the lower one may still touch. */
  lemma UpperApart(h: Heap, p: nat, b: nat, x: nat, y: nat)
    requires HeapOk(h) && b in h.live && Below(h, p, b)
    requires Touch(if b + Size(h.mem, b) == Next(h.mem, p) then Merged(Inserted(h, p, b), b)
                   else Inserted(h, p, b), x, y)
    ensures x == p && y == b
  {
    var i := Inserted(h, p, b);
    InsertedOk(h, p, b);
    assert Next(i.mem, b) == Next(h.mem, p) && Size(i.mem, b) == Size(h.mem, b) > 0;
    if b + Size(h.mem, b) == Next(h.mem, p) {
      MergedTouch(i, b, x, y);
      InsertedTouch(h, p, b, if x == b then Next(i.mem, b) else x, y);
    } else {
      InsertedTouch(h, p, b, x, y);
    }
  }

  // ---------------------------------------------------------------------------
  // More memory

  ghost function Region(a: nat, n: nat): (r: map<nat, nat>)
    ensures forall u: nat :: u in r <==> a <= u < a + n
    ensures forall u: nat :: u in r ==> r[u] == a
    decreases n
  {
    map u: nat | u in Units(a, n) :: a
  }

  ghost function Units(a: nat, n: nat): (r: set<nat>)
    ensures forall u: nat :: u in r <==> a <= u < a + n
  {
    if n == 0 then {} else Units(a, n - 1) + {a + n - 1}
  }

  /** `n` units at `a` from sbrk, above all that was obtained before, as one live block. */
  ghost function Obtained(h: Heap, a: nat, n: nat): Heap {
    Heap(h.mem[a := Header(Next(h.mem, a), n)], h.free, h.live[a := n], h.cover + Region(a, n))
  }

  lemma ObtainedOk(h: Heap, a: nat, n: nat)
    requires HeapOk(h) && BASE < a && 0 < n && forall u <- h.cover :: u < a
    ensures !IsBlock(h, a) && HeapOk(Obtained(h, a, n))
  {
    var g := Obtained(h, a, n);
    assert IsBlock(h, a) ==> In(h, a, a);
    forall b: nat
      ensures Size(g.mem, b) == if b == a then n else Size(h.mem, b)
      ensures b != a ==> Next(g.mem, b) == Next(h.mem, b)
      ensures IsBlock(g, b) <==> IsBlock(h, b) || b == a
    {
    }
    forall u <- g.cover
      ensures In(g, g.cover[u], u)
    {
      assert u in h.cover ==> In(h, h.cover[u], u);
    }
    forall b: nat, u: nat | In(g, b, u)
      ensures u in g.cover && g.cover[u] == b
    {
      assert b != a ==> In(h, b, u);
    }
    ObtainedRing(h, a, n);
    hide RingOk;
  }

  lemma ObtainedRing(h: Heap, a: nat, n: nat)
    requires RingOk(h.mem, h.free) && Apart(h.mem, h.free) && a !in h.free
    ensures RingOk(Obtained(h, a, n).mem, h.free) && Apart(Obtained(h, a, n).mem, h.free)
  {
    var m := h.mem[a := Header(Next(h.mem, a), n)];
    forall b <- h.free, c <- h.free
      ensures Size(m, b) == Size(h.mem, b)
      ensures Next(m, b) in h.free && (Next(m, b) <= b ==> Next(m, b) == BASE)
      ensures b < c ==> b < Next(m, b) <= c && b + Size(m, b) != c
    {
      assert Next(m, b) == Next(h.mem, b);
    }
  }

  // ---------------------------------------------------------------------------
  // What the invariant means

  /** `k` steps along the ring. */
  ghost function Walk(mem: map<nat, Header>, a: nat, k: nat): nat
    decreases k
  {
    if k == 0 then a else Walk(mem, Next(mem, a), k - 1)
  }

  /** The list is one ring: every free block is reached from every lower one, and so from the base. */
  lemma {:induction false} Reached(mem: map<nat, Header>, free: set<nat>, a: nat, c: nat) returns (k: nat)
    requires RingOk(mem, free) && a in free && c in free && a <= c
    ensures Walk(mem, a, k) == c
    decreases c - a
  {
    if a == c {
      k := 0;
    } else {
      var j := Reached(mem, free, Next(mem, a), c);
      k := j + 1;
    }
  }

  /** A unit is free when it was obtained and is in no live block. */
  ghost predicate FreeUnit(h: Heap, u: nat) {
    u in h.cover && h.cover[u] in h.free
  }

  /** The free blocks are the longest runs of free units, so they are determined by what is live. */
  lemma Canonical(h: Heap, g: Heap)
    requires HeapOk(h) && HeapOk(g) && h.live == g.live && h.cover.Keys == g.cover.Keys
    ensures h.free == g.free && forall a <- h.free :: Size(h.mem, a) == Size(g.mem, a)
  {
    forall u: nat
      ensures FreeUnit(h, u) <==> FreeUnit(g, u)
    {
      SameFreeUnit(h, g, u);
      SameFreeUnit(g, h, u);
    }
    forall a: nat
      ensures a in h.free <==> a in g.free
    {
      if a in h.free {
        SameStart(h, g, a);
      }
      if a in g.free {
        SameStart(g, h, a);
      }
    }
    forall a <- h.free
      ensures Size(h.mem, a) == Size(g.mem, a)
    {
      SameEnd(h, g, a);
      SameEnd(g, h, a);
    }
  }

  lemma SameFreeUnit(h: Heap, g: Heap, u: nat)
    requires HeapOk(h) && HeapOk(g) && h.live == g.live && h.cover.Keys == g.cover.Keys
    ensures FreeUnit(h, u) ==> FreeUnit(g, u)
  {
    if FreeUnit(h, u) {
      var b := g.cover[u];
      assert In(g, b, u);
      assert b in g.live ==> In(h, b, u);
    }
  }

  lemma SameStart(h: Heap, g: Heap, a: nat)
    requires HeapOk(h) && HeapOk(g) && a in h.free && forall u: nat :: FreeUnit(h, u) <==> FreeUnit(g, u)
    ensures a in g.free
  {
    if a != BASE {
      assert In(h, a, a) && FreeUnit(h, a);
      assert FreeUnit(g, a);
      var b := g.cover[a];
      assert In(g, b, a);
      if b < a {
        assert In(g, b, a - 1) && FreeUnit(g, a - 1);
        assert FreeUnit(h, a - 1);
        var c := h.cover[a - 1];
        assert In(h, c, a - 1);
        Disjoint(h, c, a);
      }
    }
  }

  lemma SameEnd(h: Heap, g: Heap, a: nat)
    requires HeapOk(h) && HeapOk(g) && a in h.free && a in g.free && forall u: nat :: FreeUnit(h, u) <==> FreeUnit(g, u)
    ensures Size(h.mem, a) <= Size(g.mem, a)
  {
    var e := a + Size(g.mem, a);
    if a != BASE && e < a + Size(h.mem, a) {
      assert In(h, a, e) && FreeUnit(h, e);
      assert FreeUnit(g, e);
      var b := g.cover[e];
      assert In(g, b, e);
      if b < a {
        Disjoint(g, b, a);
      } else if b > a {
        Disjoint(g, a, b);
      }
    }
  }

  // ---------------------------------------------------------------------------
  // What the code uses

  lemma BaseOnly(mem: map<nat, Header>)
    ensures HeapOk(Heap(mem[BASE := Header(BASE, 0)], {BASE}, map[], map[]))
  {
    var h := Heap(mem[BASE := Header(BASE, 0)], {BASE}, map[], map[]);
    assert Next(h.mem, BASE) == BASE && Size(h.mem, BASE) == 0;
  }

  /** After free there is a free block at least as large as the one given back. */
  lemma CoalescedRoom(h: Heap, p: nat, b: nat) returns (a: nat)
    requires HeapOk(h) && b in h.live && Below(h, p, b)
    ensures a in Coalesced(h, p, b).free && Size(Coalesced(h, p, b).mem, a) >= Size(h.mem, b)
  {
    CoalescedParts(h, p, b);
    a := if p + Size(h.mem, p) == b then p else b;
  }

  /** The headers after free, written out. */
  lemma CoalescedParts(h: Heap, p: nat, b: nat)
    requires HeapOk(h) && b in h.live && Below(h, p, b)
    ensures var n := Next(h.mem, p);
            var upper, lower := b + Size(h.mem, b) == n, p + Size(h.mem, p) == b;
            var hb := if upper then Header(Next(h.mem, n), Size(h.mem, b) + Size(h.mem, n))
                      else Header(n, Size(h.mem, b));
            && n in h.free && p in h.mem && b in h.mem && n in h.mem && p < b && (upper ==> n > b)
            && Coalesced(h, p, b).mem ==
               h.mem[b := hb][p := if lower then Header(hb.ptr, Size(h.mem, p) + hb.size)
                                   else Header(b, Size(h.mem, p))]
            && Coalesced(h, p, b).free ==
               h.free + (if lower then {} else {b}) - (if upper then {n} else {})
  {
    var n := Next(h.mem, p);
    assert n in h.free;
    if b + Size(h.mem, b) == n {
      assert n > b > p;
    }
  }

  lemma BlocksBelow(h: Heap, top: nat)
    requires ListOk(h) && BASE < top && forall u <- h.cover :: u < top
    ensures forall a <- h.free :: a < top
  {
    forall a <- h.free
      ensures a < top
    {
      assert Size(h.mem, a) > 0 ==> In(h, a, a);
    }
  }

  /** No free block is large enough. */
  ghost predicate NoRoom(h: Heap, n: nat) {
    forall a <- h.free :: Size(h.mem, a) < n
  }

  lemma LiveBlock(h: Heap, b: nat)
    requires HeapOk(h) && b in h.live
    ensures b !in h.free && BASE < b && Size(h.mem, b) == h.live[b]
  {
  }

  lemma BelowFree(h: Heap, p: nat, b: nat)
    requires HeapOk(h) && b in h.live && Below(h, p, b)
    ensures p in Coalesced(h, p, b).free && p != 0
  {
    CoalescedParts(h, p, b);
  }

  lemma ObtainedUnits(h: Heap, a: nat, n: nat)
    ensures Obtained(h, a, n).cover.Keys == h.cover.Keys + Units(a, n)
    ensures forall u <- Obtained(h, a, n).cover :: u in h.cover || u < a + n
  {
  }

  lemma RoomyBlock(h: Heap, prev: nat, p: nat, n: nat)
    requires HeapOk(h) && prev in h.free && p in h.free && Next(h.mem, prev) == p && Size(h.mem, p) >= n && n > 0
    ensures p != BASE && prev != p && p in h.mem && prev in h.mem && p !in h.live && prev != 0
  {
  }
}
