/**
  What the user may do with a page: the hardware grants a right only if all four entries on
  the way to the page do. What a top level says about the kernel's half.
 */
module PtRights {
  import opened PtCopy
  import opened PtModel
  import opened PtShrink

  /** The entry through which a path leads to its end; 0 where there is no table for it. */
  function EntryAt(mem: Mem, root: nat, p: Path): nat
    requires p.Down?
  {
    var f := FrameAt(mem, root, p.up);
    if 0 < f < |mem| && p.x < |mem[f]| then mem[f][p.x] else 0
  }

  /** Every entry on the way is present and has right `b`. */
  predicate AllGrant(mem: Mem, root: nat, p: Path, b: nat)
    requires b > 0
  {
    p.Root? || (AllGrant(mem, root, p.up, b) && Present(EntryAt(mem, root, p)) && Grants(EntryAt(mem, root, p), b))
  }

  predicate UserReadable(mem: Mem, root: nat, pn: nat) {
    AllGrant(mem, root, PagePath(pn), USER)
  }

  predicate UserWritable(mem: Mem, root: nat, pn: nat) {
    AllGrant(mem, root, PagePath(pn), USER) && AllGrant(mem, root, PagePath(pn), WRITE)
  }

  /** The tables on the way to a frame of the tree grant everything. */
  lemma {:induction false} TablesGrant(h: Heap, t: Tree, p: Path, b: nat)
    requires InHeap(h, t) && PathOk(p) && Depth(p) <= 3 && FrameAt(h.mem, t.root, p) != 0 && (b == WRITE || b == USER)
    ensures AllGrant(h.mem, t.root, p, b)
  {
    if p.Down? {
      TablesGrant(h, t, p.up, b);
      var f := FrameAt(h.mem, t.root, p.up);
      assert f in t.owner && t.owner[f] == p.up && Depth(p.up) < 3;
      assert Present(h.mem[f][p.x]) ==> Open(h.mem[f][p.x]);
    }
  }

  /** So the rights of a mapped page are those of its own entry. */
  lemma RightsAre(h: Heap, t: Tree, pn: nat, b: nat)
    requires InHeap(h, t) && pn < NPAGES && Present(Pte(h.mem, t.root, pn)) && (b == WRITE || b == USER)
    ensures AllGrant(h.mem, t.root, PagePath(pn), b) <==> Grants(Pte(h.mem, t.root, pn), b)
  {
    PathOfPage(pn);
    MappedParts(h, t, pn);
    TablesGrant(h, t, TablePath(pn), b);
    hide FrameAt, InHeap, Pte;
    assert PagePath(pn).up == TablePath(pn) && PagePath(pn).x == pn % 512;
  }

  /** The rights are among the flags. */
  lemma FlagsGrant(e: nat, b: nat)
    requires b == WRITE || b == USER
    ensures Grants(e, b) <==> Grants(FlagsOf(e), b)
  {
    var q, f := e / PGSIZE, FlagsOf(e);
    assert e == PGSIZE * q + f;
    if b == WRITE {
      assert e / 2 == 2048 * q + f / 2;
      assert e / 2 == 2 * (1024 * q) + f / 2;
    } else {
      assert e / 4 == 1024 * q + f / 4;
      assert e / 4 == 2 * (512 * q) + f / 4;
    }
  }

  // ---------------------------------------------------------------------------
  // allocuvm and copyuvm

  /** The user may read and write every page that allocuvm adds. */
  lemma NewPagesOpen(h: Heap, t: Tree, g: Heap, u: Tree, first: nat, n: nat)
    requires Enlarged(h, t, g, u, first, n) && first + n <= NPAGES
    ensures forall pn :: first <= pn < first + n ==> UserWritable(g.mem, t.root, pn)
  {
    hide InHeap, Pte, AllGrant;
    EnlargedOk(h, t, g, u, first, n);
    forall pn | first <= pn < first + n
      ensures UserWritable(g.mem, t.root, pn)
    {
      assert FreshPage(h, t.root, g, u, pn);
      FlagsGrant(Pte(g.mem, t.root, pn), USER);
      FlagsGrant(Pte(g.mem, t.root, pn), WRITE);
      RightsAre(g, u, pn, USER);
      RightsAre(g, u, pn, WRITE);
    }
  }

  /** The user may do with pages 1 to `n - 1` of the child what the user may do with the parent's. */
  ghost predicate RightsCopied(mem: Mem, root: nat, mem': Mem, d: nat, n: nat) {
    forall pn :: 1 <= pn < n && pn < NPAGES ==>
      && (UserReadable(mem', d, pn) <==> UserReadable(mem, root, pn))
      && (UserWritable(mem', d, pn) <==> UserWritable(mem, root, pn))
  }

  lemma CopiedRights(h: Heap, t: Tree, g: Heap, u: Tree, n: nat)
    requires InHeap(h, t) && Copying(h, t.root, g, u, n)
    ensures RightsCopied(h.mem, t.root, g.mem, u.root, n)
  {
    hide InHeap, Pte, AllGrant;
    assert InHeap(g, u);
    forall pn, b | 1 <= pn < n && pn < NPAGES && (b == WRITE || b == USER)
      ensures AllGrant(g.mem, u.root, PagePath(pn), b) <==> AllGrant(h.mem, t.root, PagePath(pn), b)
    {
      assert PageCopied(h, t.root, g, u, pn);
      FlagsGrant(Pte(g.mem, u.root, pn), b);
      FlagsGrant(Pte(h.mem, t.root, pn), b);
      RightsAre(g, u, pn, b);
      RightsAre(h, t, pn, b);
    }
  }

  // ---------------------------------------------------------------------------
  // The kernel's half

  /** Entry 256 leads to the kernel's table, for the kernel alone, and no other entry of that half is set. */
  ghost predicate MapsKernel(page: seq<nat>, kernel: nat) {
    && |page| == ENTRIES && Present(page[256]) && FrameOf(page[256]) == kernel
    && Grants(page[256], WRITE) && !Grants(page[256], USER)
    && forall x :: 256 < x < ENTRIES ==> page[x] == 0
  }

  lemma KernelMapped(mem: Mem, mem': Mem, root: nat, kernel: nat)
    requires KernelKept(mem, mem', root) && MapsKernel(mem[root], kernel)
    ensures MapsKernel(mem'[root], kernel)
  {
    forall x | 256 <= x < ENTRIES
      ensures mem'[root][x] == mem[root][x]
    {
      assert mem'[root][ENTRIES / 2..][x - 256] == mem[root][ENTRIES / 2..][x - 256];
    }
  }

  /** A round of copyuvm keeps it: `k` is `g` with the copied frame, `v` what mappages made of the tree. */
  lemma MappedKeepsKernel(g: Heap, u: Tree, k: Heap, c: nat, m: Heap, v: Tree, n: nat, perm: nat)
    requires InHeap(g, u) && c in g.free && |k.mem| == |g.mem| && perm < PGSIZE
    requires forall f :: 0 <= f < |g.mem| && f != c ==> k.mem[f] == g.mem[f]
    requires PagesMapped(k, u, m, v, n, 1, c, perm)
    ensures KernelKept(g.mem, m.mem, u.root)
  {
    RootOwned(g.mem, g.lo, u.root, u.owner);
    hide TreeOk, Pte;
  }
}
