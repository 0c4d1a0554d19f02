/** Copying the pages of one tree to another, on the values of PtModel. */
module PtCopy {
  import opened PtFree
  import opened PtModel

  /** Nothing but the upper half of the top level is set. */
  ghost predicate EmptyTop(page: seq<nat>) {
    |page| == ENTRIES && forall x :: 0 <= x < ENTRIES / 2 ==> page[x] == 0
  }

  lemma {:induction false} EmptyFrames(mem: Mem, d: nat, p: Path)
    requires 0 < d < |mem| && EmptyTop(mem[d]) && PathOk(p) && p.Down?
    ensures FrameAt(mem, d, p) == 0
  {
    if p.up.Down? {
      EmptyFrames(mem, d, p.up);
    }
  }

  /** setupkvm: a top level of its own and no pages. */
  lemma EmptyTree(h: Heap, d: nat)
    requires HeapOk(h) && h.lo <= d < |h.mem| && d !in h.free && EmptyTop(h.mem[d])
    ensures InHeap(h, Tree(d, map[d := Root])) && forall pn :: 0 <= pn < NPAGES ==> Pte(h.mem, d, pn) == 0
  {
    assert FrameAt(h.mem, d, Root) == d && PathOk(Root);
    forall p | PathOk(p) && p.Down?
      ensures FrameAt(h.mem, d, p) == 0
    {
      EmptyFrames(h.mem, d, p);
    }
    forall pn | 0 <= pn < NPAGES
      ensures Pte(h.mem, d, pn) == 0
    {
      PathOfPage(pn);
    }
  }

  /** The child's page has the flags and the contents of the parent's, on a frame of the child's own. */
  ghost predicate PageCopied(h: Heap, root: nat, g: Heap, u: Tree, pn: nat) {
    var e, c := Pte(h.mem, root, pn), Pte(g.mem, u.root, pn);
    && Present(e) && Present(c) && FlagsOf(c) == FlagsOf(e)
    && FrameOf(c) in u.owner && FrameOf(c) < |g.mem| && FrameOf(e) < |h.mem|
    && g.mem[FrameOf(c)] == h.mem[FrameOf(e)]
  }

  /** From `h` to `g` a tree `u` was made of frames from the free list alone; nothing else changed. */
  ghost predicate Made(h: Heap, g: Heap, u: Tree) {
    && InHeap(g, u) && g.lo == h.lo && |g.mem| == |h.mem| && g.free <= h.free && u.owner.Keys == h.free - g.free
    && (forall f :: 0 <= f < |h.mem| && f !in h.free ==> g.mem[f] == h.mem[f])
  }

  /** The tree made has copies of pages 1 to `n - 1` of the tree at `root`, and no other pages. */
  ghost predicate Copying(h: Heap, root: nat, g: Heap, u: Tree, n: nat) {
    && Made(h, g, u)
    && (forall pn :: 1 <= pn < n && pn < NPAGES ==> PageCopied(h, root, g, u, pn))
    && (forall pn :: 0 <= pn < NPAGES && !(1 <= pn < n) ==> Pte(g.mem, u.root, pn) == 0)
  }

  /** A tree outside the frames that changed is as it was. */
  lemma TreeKept(h: Heap, t: Tree, g: Heap)
    requires InHeap(h, t) && HeapOk(g) && g.lo == h.lo && |g.mem| == |h.mem| && g.free <= h.free
    requires forall f :: 0 <= f < |h.mem| && f in t.owner ==> g.mem[f] == h.mem[f]
    ensures InHeap(g, t) && SamePages(h.mem, g.mem, t.root)
  {
    SameTree(h.mem, g.mem, h.lo, t.root, t.owner);
    hide FrameAt;
    forall pn | 0 <= pn < NPAGES
      ensures Pte(g.mem, t.root, pn) == Pte(h.mem, t.root, pn)
    {
      PathOfPage(pn);
      var f := FrameAt(h.mem, t.root, TablePath(pn));
      assert f != 0 ==> f in t.owner;
    }
  }

  /** The frame of a mapped page is a leaf of the tree. */
  lemma PageFrame(h: Heap, t: Tree, pn: nat)
    requires InHeap(h, t) && pn < NPAGES && Present(Pte(h.mem, t.root, pn))
    ensures var f := FrameOf(Pte(h.mem, t.root, pn));
            f in t.owner && t.owner[f] == PagePath(pn) && Depth(t.owner[f]) == 4 && f < |h.mem| && f !in h.free
  {
    PathOfPage(pn);
    var b := FrameAt(h.mem, t.root, TablePath(pn));
    assert b in t.owner && t.owner[b] == TablePath(pn);
    assert FrameAt(h.mem, t.root, PagePath(pn)) == FrameOf(Pte(h.mem, t.root, pn));
    assert FrameOf(h.mem[b][pn % 512]) != 0;
  }

  /** The heap when a fresh frame `c` holds the copy of the frame `f`. */
  ghost function WithCopy(g: Heap, c: nat, f: nat): Heap
    requires c < |g.mem| && f < |g.mem|
  {
    g.(mem := g.mem[c := g.mem[f]], free := g.free - {c})
  }

  lemma CopyReady(h: Heap, t: Tree, g: Heap, u: Tree, n: nat, c: nat)
    requires InHeap(h, t) && Copying(h, t.root, g, u, n) && n < NPAGES && Present(Pte(h.mem, t.root, n)) && c in g.free
    ensures var f := FrameOf(Pte(h.mem, t.root, n));
            && f < |g.mem| && c < |g.mem| && g.mem[f] == h.mem[f]
            && InHeap(WithCopy(g, c, f), u) && Spare(WithCopy(g, c, f), u, c, 1)
            && SamePages(g.mem, WithCopy(g, c, f).mem, u.root)
            && Pte(WithCopy(g, c, f).mem, u.root, n) == 0
  {
    PageFrame(h, t, n);
    hide Pte, FrameAt, TreeOk;
    TreeKept(g, u, WithCopy(g, c, FrameOf(Pte(h.mem, t.root, n))));
    assert Frames(c, 1) == {c};
  }

  /** One page of copyuvm: `k`, `v` are what mappages made of the fresh copy. */
  lemma CopyStep(h: Heap, t: Tree, g: Heap, u: Tree, n: nat, c: nat, k: Heap, v: Tree)
    requires InHeap(h, t) && Copying(h, t.root, g, u, n) && 1 <= n < NPAGES && Present(Pte(h.mem, t.root, n))
             && c in g.free
    requires FrameOf(Pte(h.mem, t.root, n)) < |g.mem| && c < |g.mem|
    requires PagesMapped(WithCopy(g, c, FrameOf(Pte(h.mem, t.root, n))), u, k, v, n, 1, c,
                         FlagsOf(Pte(h.mem, t.root, n)))
    ensures Copying(h, t.root, k, v, n + 1) && v.root == u.root
  {
    hide PageCopied, Pte, InHeap, Grown, Leaf, Made, Spare;
    CopyReady(h, t, g, u, n, c);
    CopyMade(h, g, u, c, FrameOf(Pte(h.mem, t.root, n)), k, v);
    PageMade(h, t, g, u, n, c, k, v);
    forall pn | 1 <= pn < n + 1
      ensures PageCopied(h, t.root, k, v, pn)
    {
      if pn < n {
        PageStays(h, t, g, u, n, c, k, v, pn);
      }
    }
  }

  lemma CopyMade(h: Heap, g: Heap, u: Tree, c: nat, f: nat, k: Heap, v: Tree)
    requires Made(h, g, u) && c in g.free && c < |g.mem| && f < |g.mem|
             && Grown(WithCopy(g, c, f), u, k, v, Frames(c, 1))
    ensures Made(h, k, v) && v.root == u.root
  {
    hide InHeap;
    assert Frames(c, 1) == {c};
  }

  lemma PageMade(h: Heap, t: Tree, g: Heap, u: Tree, n: nat, c: nat, k: Heap, v: Tree)
    requires InHeap(h, t) && Copying(h, t.root, g, u, n) && 1 <= n < NPAGES && Present(Pte(h.mem, t.root, n))
             && c in g.free
    requires FrameOf(Pte(h.mem, t.root, n)) < |g.mem| && c < |g.mem|
    requires PagesMapped(WithCopy(g, c, FrameOf(Pte(h.mem, t.root, n))), u, k, v, n, 1, c,
                         FlagsOf(Pte(h.mem, t.root, n)))
    ensures PageCopied(h, t.root, k, v, n)
  {
    var e := Pte(h.mem, t.root, n);
    CopyReady(h, t, g, u, n, c);
    LeafEntry(c, FlagsOf(e));
    FlagsPresent(e);
    hide Pte, InHeap;
    assert c in Frames(c, 1);
  }

  lemma FlagsPresent(e: nat)
    ensures Present(e) <==> FlagsOf(e) % 2 == 1
  {
    assert e == 2 * (2048 * (e / PGSIZE)) + e % PGSIZE;
  }

  lemma PageStays(h: Heap, t: Tree, g: Heap, u: Tree, n: nat, c: nat, k: Heap, v: Tree, pn: nat)
    requires InHeap(h, t) && Copying(h, t.root, g, u, n) && 1 <= pn < n < NPAGES && Present(Pte(h.mem, t.root, n))
             && c in g.free
    requires FrameOf(Pte(h.mem, t.root, n)) < |g.mem| && c < |g.mem|
    requires PagesMapped(WithCopy(g, c, FrameOf(Pte(h.mem, t.root, n))), u, k, v, n, 1, c,
                         FlagsOf(Pte(h.mem, t.root, n)))
    ensures PageCopied(h, t.root, k, v, pn)
  {
    CopyReady(h, t, g, u, n, c);
    assert PageCopied(h, t.root, g, u, pn);
    PageFrame(g, u, pn);
    hide Pte, InHeap, FrameAt, TreeOk;
  }

  // ---------------------------------------------------------------------------
  // What the loop of copyuvm uses

  lemma CopyStarts(h: Heap, root: nat, g: Heap, d: nat)
    requires HeapOk(h) && HeapOk(g) && d in h.free && g.free == h.free - {d} && g.lo == h.lo && |g.mem| == |h.mem|
    requires EmptyTop(g.mem[d]) && forall f :: 0 <= f < |h.mem| && f != d ==> g.mem[f] == h.mem[f]
    ensures Copying(h, root, g, Tree(d, map[d := Root]), 1)
  {
    EmptyTree(g, d);
    hide InHeap, Pte;
    assert h.free - g.free == {d};
  }

  /** The parent is as it was, and outside the child and the free list. */
  lemma ParentKept(h: Heap, t: Tree, g: Heap, u: Tree, n: nat)
    requires InHeap(h, t) && Copying(h, t.root, g, u, n)
    ensures InHeap(g, t) && SamePages(h.mem, g.mem, t.root) && InHeap(g, u) && t.owner.Keys !! u.owner.Keys
  {
    TreeKept(h, t, g);
  }

  /** Giving the copy back leaves the free frames and everything outside them as before the copy. */
  lemma CopyUndone(h: Heap, t: Tree, g: Heap, u: Tree, n: nat, k: Heap)
    requires InHeap(h, t) && Copying(h, t.root, g, u, n) && Freeing(g, u, k, u.owner.Keys) && HeapOk(k)
    ensures k.free == h.free && InHeap(k, t) && |k.mem| == |h.mem|
    ensures forall f :: 0 <= f < |h.mem| && f !in h.free ==> k.mem[f] == h.mem[f]
  {
    TreeKept(h, t, k);
  }
}
