/** Growing and shrinking user memory page by page, on the values of PtModel. */
module PtShrink {
  import opened PtCopy
  import opened PtModel

  // ---------------------------------------------------------------------------
  // Taking one page out

  /** Memory after the frame of page `pn` got the contents `page` and its entry became 0. */
  ghost function Cut(mem: Mem, root: nat, pn: nat, page: seq<nat>): Mem
    requires MemOk(mem) && FrameAt(mem, root, TablePath(pn)) < |mem| && FrameOf(Pte(mem, root, pn)) < |mem|
    requires |page| == ENTRIES
  {
    SetWord(mem[FrameOf(Pte(mem, root, pn)) := page], FrameAt(mem, root, TablePath(pn)), pn % 512, 0)
  }

  /** A mapped page: its table, its frame, and that they differ. */
  lemma MappedParts(h: Heap, t: Tree, pn: nat)
    requires InHeap(h, t) && pn < NPAGES && Present(Pte(h.mem, t.root, pn))
    ensures var f, a := FrameAt(h.mem, t.root, TablePath(pn)), FrameOf(Pte(h.mem, t.root, pn));
            && f != 0 && f in t.owner && t.owner[f] == TablePath(pn) && f < |h.mem| && f !in h.free
            && a in t.owner && t.owner[a] == PagePath(pn) && a < |h.mem| && a !in h.free && a != f
            && h.lo <= a && FrameAt(h.mem, t.root, PagePath(pn)) == a && Depth(PagePath(pn)) == 4
            && Depth(TablePath(pn)) == 3
            && |h.mem[f]| == ENTRIES && Pte(h.mem, t.root, pn) == h.mem[f][pn % 512]
  {
    PathOfPage(pn);
    PageFrame(h, t, pn);
    var f := FrameAt(h.mem, t.root, TablePath(pn));
    assert f in t.owner && t.owner[f] == TablePath(pn);
  }

  lemma {:induction false} CutFrames(h: Heap, t: Tree, pn: nat, page: seq<nat>, q: Path)
    requires InHeap(h, t) && pn < NPAGES && Present(Pte(h.mem, t.root, pn)) && PathOk(q) && |page| == ENTRIES
    ensures FrameAt(h.mem, t.root, TablePath(pn)) < |h.mem| && FrameOf(Pte(h.mem, t.root, pn)) < |h.mem|
    ensures FrameAt(Cut(h.mem, t.root, pn, page), t.root, q) ==
            if q == PagePath(pn) then 0 else FrameAt(h.mem, t.root, q)
  {
    MappedParts(h, t, pn);
    if q.Down? {
      CutFrames(h, t, pn, page, q.up);
      assert Depth(q) == Depth(q.up) + 1 <= 4;
      var f := FrameAt(h.mem, t.root, q.up);
      assert f != 0 ==> f in t.owner && t.owner[f] == q.up;
      hide TreeOk, Pte;
    }
  }

  ghost function CutTree(h: Heap, t: Tree, pn: nat): Tree {
    Tree(t.root, t.owner - {FrameOf(Pte(h.mem, t.root, pn))})
  }

  ghost function CutHeap(h: Heap, root: nat, pn: nat, page: seq<nat>): Heap
    requires MemOk(h.mem) && FrameAt(h.mem, root, TablePath(pn)) < |h.mem| && FrameOf(Pte(h.mem, root, pn)) < |h.mem|
    requires |page| == ENTRIES
  {
    Heap(h.lo, Cut(h.mem, root, pn, page), h.free + {FrameOf(Pte(h.mem, root, pn))})
  }

  /** The frame is back on the free list and the tree is the tree without it. */
  lemma CutOk(h: Heap, t: Tree, pn: nat, page: seq<nat>)
    requires InHeap(h, t) && pn < NPAGES && Present(Pte(h.mem, t.root, pn)) && |page| == ENTRIES
    ensures FrameAt(h.mem, t.root, TablePath(pn)) < |h.mem| && FrameOf(Pte(h.mem, t.root, pn)) < |h.mem|
    ensures InHeap(CutHeap(h, t.root, pn, page), CutTree(h, t, pn))
  {
    MappedParts(h, t, pn);
    var g, u := CutHeap(h, t.root, pn, page), CutTree(h, t, pn);
    forall q | PathOk(q)
      ensures FrameAt(g.mem, t.root, q) == if q == PagePath(pn) then 0 else FrameAt(h.mem, t.root, q)
    {
      CutFrames(h, t, pn, page, q);
    }
    hide FrameAt, Pte;
    CutTreeOk(h, t, pn, g, u);
  }

  lemma CutTreeOk(h: Heap, t: Tree, pn: nat, g: Heap, u: Tree)
    requires InHeap(h, t) && pn < NPAGES && u == CutTree(h, t, pn)
    requires var f, a := FrameAt(h.mem, t.root, TablePath(pn)), FrameOf(Pte(h.mem, t.root, pn));
             && f in t.owner && f < |h.mem| && a in t.owner && t.owner[a] == PagePath(pn) && a != f
             && Depth(PagePath(pn)) == 4
             && g.lo == h.lo && g.free == h.free + {a} && |g.mem| == |h.mem| && |h.mem[f]| == ENTRIES
             && |g.mem[a]| == ENTRIES && g.mem[f] == h.mem[f][pn % 512 := 0]
             && forall x :: 0 <= x < |h.mem| && x != a && x != f ==> g.mem[x] == h.mem[x]
    requires forall q :: PathOk(q) ==>
               FrameAt(g.mem, t.root, q) == if q == PagePath(pn) then 0 else FrameAt(h.mem, t.root, q)
    ensures InHeap(g, u)
  {
    hide FrameAt, Pte, PathOk, Depth;
    var a := FrameOf(Pte(h.mem, t.root, pn));
    forall x <- u.owner
      ensures FrameAt(g.mem, t.root, u.owner[x]) == x
    {
      assert x != a && x in t.owner;
    }
  }

  lemma CutPte(h: Heap, t: Tree, pn: nat, page: seq<nat>, m: nat)
    requires InHeap(h, t) && pn < NPAGES && Present(Pte(h.mem, t.root, pn)) && |page| == ENTRIES && m < NPAGES
    ensures FrameAt(h.mem, t.root, TablePath(pn)) < |h.mem| && FrameOf(Pte(h.mem, t.root, pn)) < |h.mem|
    ensures Pte(Cut(h.mem, t.root, pn, page), t.root, m) == if m == pn then 0 else Pte(h.mem, t.root, m)
  {
    MappedParts(h, t, pn);
    PathOfPage(m);
    CutFrames(h, t, pn, page, TablePath(m));
    assert TablePath(m) != PagePath(pn);
    var f := FrameAt(h.mem, t.root, TablePath(m));
    assert f != 0 ==> f in t.owner && t.owner[f] == TablePath(m);
    if TablePath(m) == TablePath(pn) && m % 512 == pn % 512 {
      PagesApart(m, pn);
    }
    hide FrameAt, PathOk, TreeOk, Depth;
  }

  // ---------------------------------------------------------------------------
  // deallocuvm

  /**
    From `h` to `g` the tree `t` became `u`: of the pages from `first`, `n` of them, those
    that were mapped are not, their frames are free, and nothing else changed.
   */
  ghost predicate Shrunk(h: Heap, t: Tree, g: Heap, u: Tree, first: nat, n: nat) {
    && InHeap(g, u) && g.lo == h.lo && |g.mem| == |h.mem| && u.root == t.root
    && (forall f <- u.owner :: f in t.owner && u.owner[f] == t.owner[f])
    && g.free == h.free + (t.owner.Keys - u.owner.Keys)
    && (forall f <- t.owner :: f !in u.owner ==> Depth(t.owner[f]) == 4)
    && (forall f :: 0 <= f < |h.mem| && (f in t.owner ==> f in u.owner && Depth(t.owner[f]) == 4) ==>
           g.mem[f] == h.mem[f])
    && (forall pn :: 0 <= pn < NPAGES ==>
          Pte(g.mem, t.root, pn) ==
          if first <= pn < first + n && Present(Pte(h.mem, t.root, pn)) then 0 else Pte(h.mem, t.root, pn))
    && KernelKept(h.mem, g.mem, t.root)
  }

  lemma NothingShrunk(h: Heap, t: Tree, first: nat)
    requires InHeap(h, t)
    ensures Shrunk(h, t, h, t, first, 0)
  {
    RootOwned(h.mem, h.lo, t.root, t.owner);
    assert t.owner.Keys - t.owner.Keys == {};
  }

  lemma ShrunkOk(h: Heap, t: Tree, g: Heap, u: Tree, first: nat, n: nat)
    requires Shrunk(h, t, g, u, first, n)
    ensures InHeap(g, u) && u.root == t.root && |g.mem| == |h.mem|
  {
  }

  lemma ShrunkPast(h: Heap, t: Tree, g: Heap, u: Tree, first: nat, n: nat)
    requires Shrunk(h, t, g, u, first, n) && first + n < NPAGES && !Present(Pte(g.mem, t.root, first + n))
    ensures Shrunk(h, t, g, u, first, n + 1)
  {
    hide Pte, InHeap;
  }

  lemma ShrunkOne(h: Heap, t: Tree, g: Heap, u: Tree, first: nat, n: nat, page: seq<nat>)
    requires Shrunk(h, t, g, u, first, n) && first + n < NPAGES && Present(Pte(g.mem, t.root, first + n))
             && |page| == ENTRIES
    ensures FrameAt(g.mem, u.root, TablePath(first + n)) < |g.mem| && FrameOf(Pte(g.mem, u.root, first + n)) < |g.mem|
    ensures MemOk(g.mem) && Shrunk(h, t, CutHeap(g, u.root, first + n, page), CutTree(g, u, first + n), first, n + 1)
  {
    hide Pte, FrameAt, TreeOk, InHeap, Cut, Shrunk, MemOk, TablePath;
    ShrunkOk(h, t, g, u, first, n);
    MappedParts(g, u, first + n);
    CutChanges(g, u, first + n, page);
    ShrunkStep(h, t, g, u, first, n, CutHeap(g, u.root, first + n, page), FrameOf(Pte(g.mem, u.root, first + n)),
               FrameAt(g.mem, u.root, TablePath(first + n)));
  }

  /** What one page taken out changes. */
  lemma CutChanges(g: Heap, u: Tree, pn: nat, page: seq<nat>)
    requires InHeap(g, u) && pn < NPAGES && Present(Pte(g.mem, u.root, pn)) && |page| == ENTRIES
    ensures FrameAt(g.mem, u.root, TablePath(pn)) < |g.mem| && FrameOf(Pte(g.mem, u.root, pn)) < |g.mem| && MemOk(g.mem)
    ensures var k, f, a := CutHeap(g, u.root, pn, page), FrameAt(g.mem, u.root, TablePath(pn)),
                            FrameOf(Pte(g.mem, u.root, pn));
            && InHeap(k, CutTree(g, u, pn)) && |k.mem| == |g.mem|
            && (forall x :: 0 <= x < |g.mem| && x != a && x != f ==> k.mem[x] == g.mem[x])
            && KernelKept(g.mem, k.mem, u.root)
            && (forall m :: 0 <= m < NPAGES ==> Pte(k.mem, u.root, m) == if m == pn then 0 else Pte(g.mem, u.root, m))
  {
    CutOk(g, u, pn, page);
    MappedParts(g, u, pn);
    RootOwned(g.mem, g.lo, u.root, u.owner);
    var k := CutHeap(g, u.root, pn, page);
    forall m | 0 <= m < NPAGES
      ensures Pte(k.mem, u.root, m) == if m == pn then 0 else Pte(g.mem, u.root, m)
    {
      CutPte(g, u, pn, page, m);
    }
    hide Pte, FrameAt, TreeOk, InHeap;
  }

  lemma ShrunkStep(h: Heap, t: Tree, g: Heap, u: Tree, first: nat, n: nat, k: Heap, a: nat, f: nat)
    requires Shrunk(h, t, g, u, first, n) && first + n < NPAGES && Present(Pte(g.mem, t.root, first + n))
    requires InHeap(k, Tree(u.root, u.owner - {a})) && k.lo == g.lo && |k.mem| == |g.mem| && k.free == g.free + {a}
    requires a in u.owner && Depth(u.owner[a]) == 4 && f in u.owner && Depth(u.owner[f]) == 3
    requires forall x :: 0 <= x < |g.mem| && x != a && x != f ==> k.mem[x] == g.mem[x]
    requires KernelKept(g.mem, k.mem, u.root)
    requires forall m :: 0 <= m < NPAGES ==>
               Pte(k.mem, u.root, m) == if m == first + n then 0 else Pte(g.mem, u.root, m)
    ensures Shrunk(h, t, k, Tree(u.root, u.owner - {a}), first, n + 1)
  {
    hide Pte, InHeap, Depth;
    var v := Tree(u.root, u.owner - {a});
    assert t.owner.Keys - v.owner.Keys == (t.owner.Keys - u.owner.Keys) + {a};
  }

  // ---------------------------------------------------------------------------
  // allocuvm

  /** Page `pn`, not mapped before, is a zeroed frame off the free list that the user may read and write. */
  ghost predicate FreshPage(h: Heap, root: nat, g: Heap, u: Tree, pn: nat) {
    var e := Pte(g.mem, root, pn);
    && !Present(Pte(h.mem, root, pn)) && Present(e) && FlagsOf(e) == 7
    && FrameOf(e) in h.free && FrameOf(e) in u.owner && FrameOf(e) < |g.mem| && g.mem[FrameOf(e)] == ZeroPage()
  }

  /** From `h` to `g` the tree gained the pages from `first`, `n` of them, all fresh, and no others. */
  ghost predicate Enlarged(h: Heap, t: Tree, g: Heap, u: Tree, first: nat, n: nat) {
    && Grown(h, t, g, u, {})
    && (forall pn :: first <= pn < first + n && pn < NPAGES ==> FreshPage(h, t.root, g, u, pn))
    && (forall pn :: 0 <= pn < NPAGES && !(first <= pn < first + n) ==>
           Pte(g.mem, t.root, pn) == Pte(h.mem, t.root, pn))
  }

  /** The heap when a frame off the free list is zeroed. */
  ghost function WithZero(g: Heap, c: nat): Heap
    requires c < |g.mem|
  {
    g.(mem := g.mem[c := ZeroPage()], free := g.free - {c})
  }

  lemma ZeroReady(g: Heap, u: Tree, c: nat)
    requires InHeap(g, u) && c in g.free
    ensures c < |g.mem| && InHeap(WithZero(g, c), u) && Spare(WithZero(g, c), u, c, 1)
    ensures SamePages(g.mem, WithZero(g, c).mem, u.root)
  {
    hide TreeOk, SamePages;
    TreeKept(g, u, WithZero(g, c));
    assert Frames(c, 1) == {c};
  }

  lemma RootTaken(g: Heap, u: Tree)
    requires InHeap(g, u)
    ensures u.root in u.owner && u.root !in g.free
  {
    RootOwned(g.mem, g.lo, u.root, u.owner);
  }

  lemma EnlargedGrown(h: Heap, t: Tree, g: Heap, u: Tree, c: nat, k: Heap, v: Tree)
    requires Grown(h, t, g, u, {}) && c in g.free && c < |g.mem| && Grown(WithZero(g, c), u, k, v, Frames(c, 1))
    ensures Grown(h, t, k, v, {})
  {
    hide InHeap, Depth;
    RootTaken(g, u);
    assert Frames(c, 1) == {c};
    assert v.owner.Keys == t.owner.Keys + (h.free - k.free);
  }

  /** A fresh page stays as it is while the next one is mapped. */
  lemma FreshStays(h: Heap, t: Tree, g: Heap, u: Tree, c: nat, k: Heap, v: Tree, pn: nat)
    requires Grown(h, t, g, u, {}) && c in g.free && c < |g.mem| && Grown(WithZero(g, c), u, k, v, Frames(c, 1))
    requires pn < NPAGES && FreshPage(h, t.root, g, u, pn) && Pte(k.mem, t.root, pn) == Pte(g.mem, t.root, pn)
    ensures FreshPage(h, t.root, k, v, pn)
  {
    PageFrame(g, u, pn);
    hide Pte, InHeap, Depth;
  }

  /** One page of allocuvm: `k`, `v` are what mappages made of the zeroed frame. */
  lemma EnlargedOne(h: Heap, t: Tree, g: Heap, u: Tree, first: nat, n: nat, c: nat, k: Heap, v: Tree)
    requires InHeap(h, t) && Enlarged(h, t, g, u, first, n) && first + n < NPAGES && c in g.free && c < |g.mem|
    requires PagesMapped(WithZero(g, c), u, k, v, first + n, 1, c, 6) && u.root == t.root
    requires SamePages(g.mem, WithZero(g, c).mem, u.root)
    ensures Enlarged(h, t, k, v, first, n + 1)
  {
    hide Pte, InHeap, FreshPage, Leaf, Grown;
    EnlargedGrown(h, t, g, u, c, k, v);
    forall pn | first <= pn < first + n + 1 && pn < NPAGES
      ensures FreshPage(h, t.root, k, v, pn)
    {
      if pn < first + n {
        FreshStays(h, t, g, u, c, k, v, pn);
      } else {
        FreshMade(h, t, g, u, first, n, c, k, v);
      }
    }
  }

  lemma FreshMade(h: Heap, t: Tree, g: Heap, u: Tree, first: nat, n: nat, c: nat, k: Heap, v: Tree)
    requires InHeap(h, t) && Enlarged(h, t, g, u, first, n) && first + n < NPAGES && c in g.free && c < |g.mem|
    requires PagesMapped(WithZero(g, c), u, k, v, first + n, 1, c, 6) && u.root == t.root
    requires SamePages(g.mem, WithZero(g, c).mem, u.root)
    ensures FreshPage(h, t.root, k, v, first + n)
  {
    hide Pte, InHeap, Depth, FreshPage, ZeroPage, Leaf;
    LeafEntry(c, 6);
    assert c in Frames(c, 1);
    FreshIs(h, t.root, k, v, first + n, c);
  }

  lemma FreshIs(h: Heap, root: nat, k: Heap, v: Tree, pn: nat, c: nat)
    requires !Present(Pte(h.mem, root, pn)) && Present(Pte(k.mem, root, pn)) && FlagsOf(Pte(k.mem, root, pn)) == 7
    requires FrameOf(Pte(k.mem, root, pn)) == c && c in h.free && c in v.owner && c < |k.mem|
    requires k.mem[c] == ZeroPage()
    ensures FreshPage(h, root, k, v, pn)
  {
  }

  // ---------------------------------------------------------------------------
  // What the loops use

  /** PGROUNDUP, as a page number. */
  function PageUp(sz: nat): nat {
    (sz + PGSIZE - 1) / PGSIZE
  }

  /** The pages below it are exactly those with an address below `sz`. */
  lemma PagesBelow(sz: nat, pn: nat)
    ensures pn < PageUp(sz) <==> pn * PGSIZE < sz
  {
  }

  lemma NothingEnlarged(h: Heap, t: Tree, first: nat)
    requires InHeap(h, t)
    ensures Enlarged(h, t, h, t, first, 0)
  {
    NoneGrown(h, t);
  }

  lemma EnlargedOk(h: Heap, t: Tree, g: Heap, u: Tree, first: nat, n: nat)
    requires Enlarged(h, t, g, u, first, n)
    ensures InHeap(g, u) && u.root == t.root && |g.mem| == |h.mem|
    ensures first + n < NPAGES ==> Pte(g.mem, t.root, first + n) == Pte(h.mem, t.root, first + n)
  {
    hide InHeap, Pte;
  }

  lemma KfreedPage(h: Heap, f: nat)
    requires HeapOk(h) && f < |h.mem|
    ensures |h.mem[f]| == ENTRIES
  {
  }

  lemma CutIs(g: Heap, u: Tree, pn: nat, page: seq<nat>, mid: Mem, end: Mem)
    requires InHeap(g, u) && pn < NPAGES && Present(Pte(g.mem, u.root, pn)) && |page| == ENTRIES && |mid| == |g.mem|
    requires var f, a := FrameAt(g.mem, u.root, TablePath(pn)), FrameOf(Pte(g.mem, u.root, pn));
             && f < |g.mem| && a < |g.mem| && a != f && |mid[f]| == ENTRIES
             && mid[a] == page && (forall x :: 0 <= x < |g.mem| && x != a ==> mid[x] == g.mem[x])
             && end == SetWord(mid, f, pn % 512, 0)
    ensures MemOk(g.mem) && end == Cut(g.mem, u.root, pn, page)
  {
    hide FrameAt, Pte, TreeOk;
    assert mid == g.mem[FrameOf(Pte(g.mem, u.root, pn)) := page];
  }

  // ---------------------------------------------------------------------------
  // Growing and shrinking back

  /** Every mapped page of a tree is the page of some address. */
  lemma LeafPage(h: Heap, t: Tree, f: nat) returns (pn: nat)
    requires InHeap(h, t) && f in t.owner && Depth(t.owner[f]) == 4
    ensures pn < NPAGES && t.owner[f] == PagePath(pn) && Present(Pte(h.mem, t.root, pn))
            && FrameOf(Pte(h.mem, t.root, pn)) == f
  {
    var p := t.owner[f];
    pn := PageOf(p);
    assert FrameAt(h.mem, t.root, p) == f;
    var b := FrameAt(h.mem, t.root, p.up);
    assert b != 0 && b < |h.mem|;
  }

  lemma PageOf(p: Path) returns (pn: nat)
    requires PathOk(p) && Depth(p) == 4
    ensures pn < NPAGES && p == PagePath(pn)
  {
    var c := p.up;
    assert Depth(c) == 3 && PathOk(c);
    var b := c.up;
    assert Depth(b) == 2 && PathOk(b);
    var a := b.up;
    assert Depth(a) == 1 && PathOk(a);
    assert Depth(a.up) == 0 && a.up == Root && p.x < 512 && c.x < 512 && b.x < 512 && a.x < 256;
    pn := ((a.x * 512 + b.x) * 512 + c.x) * 512 + p.x;
    DigitsBack(a.x, b.x, c.x, p.x);
  }

  lemma DigitsBack(a: nat, b: nat, c: nat, d: nat)
    requires a < 256 && b < 512 && c < 512 && d < 512
    ensures var pn := ((a * 512 + b) * 512 + c) * 512 + d;
            pn < NPAGES && pn % 512 == d && pn / 512 % 512 == c && pn / 0x4_0000 % 512 == b && pn / 0x800_0000 == a
  {
    var x := a * 512 + b;
    var y := x * 512 + c;
    var pn := y * 512 + d;
    assert pn / 512 == y && y / 512 == x && x / 512 == a;
    assert pn / 0x4_0000 == pn / 512 / 512 && pn / 0x800_0000 == pn / 512 / 512 / 512;
  }

  /**
    Growing and shrinking back maps the same pages to the same frames as before, and all
    frames that are not free again are tables of the tree.
   */
  lemma GrowThenShrink(h: Heap, t: Tree, g: Heap, u: Tree, k: Heap, v: Tree, first: nat, n: nat)
    requires InHeap(h, t) && Enlarged(h, t, g, u, first, n) && Shrunk(g, u, k, v, first, n) && first + n <= NPAGES
    ensures forall pn :: 0 <= pn < NPAGES && Present(Pte(h.mem, t.root, pn)) ==>
              Pte(k.mem, t.root, pn) == Pte(h.mem, t.root, pn)
    ensures forall pn :: 0 <= pn < NPAGES && Present(Pte(k.mem, t.root, pn)) ==> Present(Pte(h.mem, t.root, pn))
    ensures k.free <= h.free && forall f <- h.free - k.free :: f in v.owner && Depth(v.owner[f]) != 4
  {
    PagesBack(h, t, g, u, k, v, first, n);
    forall f <- k.free
      ensures f in h.free
    {
      FreedWasFree(h, t, g, u, k, v, first, n, f);
    }
    forall f <- h.free - k.free
      ensures f in v.owner && Depth(v.owner[f]) != 4
    {
      StillTaken(h, t, g, u, k, v, first, n, f);
    }
  }

  lemma PagesBack(h: Heap, t: Tree, g: Heap, u: Tree, k: Heap, v: Tree, first: nat, n: nat)
    requires Enlarged(h, t, g, u, first, n) && Shrunk(g, u, k, v, first, n)
    ensures forall pn :: 0 <= pn < NPAGES && Present(Pte(h.mem, t.root, pn)) ==>
              Pte(k.mem, t.root, pn) == Pte(h.mem, t.root, pn)
    ensures forall pn :: 0 <= pn < NPAGES && Present(Pte(k.mem, t.root, pn)) ==> Present(Pte(h.mem, t.root, pn))
  {
    hide Pte, InHeap;
    forall pn | 0 <= pn < NPAGES
      ensures Present(Pte(h.mem, t.root, pn)) ==> Pte(k.mem, t.root, pn) == Pte(h.mem, t.root, pn)
      ensures Present(Pte(k.mem, t.root, pn)) ==> Present(Pte(h.mem, t.root, pn))
    {
      assert first <= pn < first + n ==> FreshPage(h, t.root, g, u, pn);
    }
  }

  lemma FreedWasFree(h: Heap, t: Tree, g: Heap, u: Tree, k: Heap, v: Tree, first: nat, n: nat, f: nat)
    requires InHeap(h, t) && Enlarged(h, t, g, u, first, n) && Shrunk(g, u, k, v, first, n) && f in k.free
    ensures f in h.free
  {
    hide Pte, FrameAt, TreeOk;
    if f !in g.free && f in t.owner {
      var pn := LeafPage(h, t, f);
      PagesBack(h, t, g, u, k, v, first, n);
      PageFrame(k, v, pn);
    }
  }

  lemma StillTaken(h: Heap, t: Tree, g: Heap, u: Tree, k: Heap, v: Tree, first: nat, n: nat, f: nat)
    requires InHeap(h, t) && Enlarged(h, t, g, u, first, n) && Shrunk(g, u, k, v, first, n) && f in h.free
             && f !in k.free
    ensures f in v.owner && Depth(v.owner[f]) != 4
  {
    hide Pte, FrameAt, TreeOk;
    if f in v.owner && Depth(v.owner[f]) == 4 {
      var pn := LeafPage(k, v, f);
      PagesBack(h, t, g, u, k, v, first, n);
      PageFrame(h, t, pn);
    }
  }
}
