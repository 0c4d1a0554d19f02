/** vm.c and kalloc.c: page tables changed in place, on frames from a free list kept in the frames themselves. */
module PageTable {
  import opened PtCopy
  import opened PtFree
  import opened PtModel
  import opened PtRights
  import opened PtShrink

  const PTE_P := 1
  const PTE_W := 2
  const PTE_U := 4

  /** What following one entry gives; `NoMemory` is the panic of kalloc. */
  datatype Step = To(f: nat) | Missing | NoMemory

  /** How mappages ends: `Remap` and `Exhausted` are panics. */
  datatype MapEnd = Mapped | Remap | Exhausted

  /** How copyuvm ends: `Absent` is its panic for a parent page that is not mapped. */
  datatype CopyEnd = Copied(d: nat) | Absent(pn: nat) | OutOfFrames

  /** How allocuvm ends; `AllocRemap` and `AllocExhausted` are panics. */
  datatype AllocEnd = Grew(sz: nat) | AllocRemap | AllocExhausted

  const KERNBASE := 0xFFFF_8000_0000_0000

  /** The free list from `head` goes once through exactly the frames `free`: each holds the next in its first word. */
  ghost predicate Chain(mem: Mem, head: nat, free: set<nat>)
    decreases free
  {
    if head == 0 then free == {}
    else head in free && head < |mem| && |mem[head]| == ENTRIES && Chain(mem, mem[head][0], free - {head})
  }

  /** Frames that are not free can change without harm to the free list. */
  lemma {:induction false} ChainKept(mem: Mem, mem': Mem, head: nat, free: set<nat>)
    requires Chain(mem, head, free) && |mem'| == |mem| && forall f <- free :: f < |mem| ==> mem'[f] == mem[f]
    ensures Chain(mem', head, free)
    decreases free
  {
    if head != 0 {
      ChainKept(mem, mem', mem[head][0], free - {head});
    }
  }

  class Vm {
    const lo: nat
    /** The frame of the kernel's table, shared by all address spaces. */
    const kpdpt: nat
    var mem: seq<seq<nat>>
    var freelist: nat
    ghost var free: set<nat>

    ghost function Now(): Heap
      reads this
    {
      Heap(lo, mem, free)
    }

    ghost predicate Valid()
      reads this
    {
      HeapOk(Now()) && Chain(mem, freelist, free)
    }

    /** Memory before kinit1: no frame is on the free list. */
    constructor (first: nat, frames: nat, shared: nat)
      requires 0 < first
      ensures Valid() && free == {} && |mem| == frames && lo == first
    {
      lo, kpdpt := first, shared;
      mem := seq(frames, _ => ZeroPage());
      freelist, free := 0, {};
    }

    /** freerange: every whole frame from `start` up to `end` becomes free. False is a panic of kfree. */
    method Freerange(start: nat, end: nat) returns (ok: bool)
      requires Valid() && forall f :: PageUp(start) <= f < end / PGSIZE ==> f !in free
      modifies this
      ensures Valid() && |mem| == |old(mem)|
      ensures ok <==> PageUp(start) >= end / PGSIZE || (lo <= PageUp(start) && end / PGSIZE <= |mem|)
      ensures ok ==> forall f: nat :: f in free <==> f in old(free) || PageUp(start) <= f < end / PGSIZE
    {
      hide HeapOk, Chain;
      var p := PageUp(start) * PGSIZE;
      ghost var n := PageUp(start);
      while p + PGSIZE <= end
        invariant Valid() && |mem| == |old(mem)| && p == n * PGSIZE && n >= PageUp(start)
        invariant n > PageUp(start) ==> lo <= PageUp(start) && n <= |mem| && n <= end / PGSIZE
        invariant forall f: nat :: f in free <==> f in old(free) || PageUp(start) <= f < n
      {
        assert p / PGSIZE == n < end / PGSIZE;
        ok := Kfree(p / PGSIZE);
        if !ok {
          return;
        }
        p := p + PGSIZE;
        n := n + 1;
      }
      ok := true;
    }

    /** kalloc; false is the panic that memory is out. */
    method Kalloc() returns (ok: bool, f: nat)
      requires Valid()
      modifies this`freelist, this`free
      ensures Valid() && (ok <==> old(free) != {})
      ensures if ok then f in old(free) && free == old(free) - {f} else Now() == old(Now())
    {
      f := freelist;
      if f == 0 {
        return false, 0;
      }
      freelist := mem[f][0];
      free := free - {f};
      return true, f;
    }

    /** kfree; false is the panic for a frame that is not allocatable memory. */
    method Kfree(f: nat) returns (ok: bool)
      requires Valid() && f !in free
      modifies this`mem, this`freelist, this`free
      ensures Valid() && (ok <==> lo <= f < |old(mem)|)
      ensures |mem| == |old(mem)| && forall g :: 0 <= g < |mem| && g != f ==> mem[g] == old(mem)[g]
      ensures if ok then free == old(free) + {f} else Now() == old(Now())
    {
      if f < lo || f >= |mem| {
        return false;
      }
      var junk: seq<nat> := seq(ENTRIES, _ => 0x0101_0101_0101_0101);
      junk := junk[0 := freelist];
      ChainKept(mem, mem[f := junk], freelist, free);
      assert free + {f} - {f} == free;
      mem := mem[f := junk];
      freelist := f;
      free := free + {f};
      return true;
    }
  
    /** One level of walkpgdir: follow entry `x` of the table `f`, making the next table if `alloc`. */
    method NextTable(f: nat, x: nat, alloc: bool, ghost t: Tree, ghost p: Path) returns (r: Step, ghost u: Tree)
      requires Valid() && InHeap(Now(), t) && PathOk(Down(p, x)) && Depth(p) < 3 && f == FrameAt(mem, t.root, p)
               && f != 0
      modifies this
      ensures Valid() && (!alloc ==> Now() == old(Now()) && u == t)
      ensures r.To? ==> TablesGrown(old(Now()), t, Now(), u) && r.f == FrameAt(mem, t.root, Down(p, x)) && r.f != 0
      ensures r.Missing? ==> !alloc && FrameAt(mem, t.root, Down(p, x)) == 0
      ensures r.NoMemory? ==> alloc && free == {}
    {
      hide Chain, TablesGrown;
      assert f in t.owner && t.owner[f] == p;
      u := t;
      if Present(mem[f][x]) {
        NoneGrown(Now(), t);
        r := To(FrameOf(mem[f][x]));
      } else if !alloc {
        r := Missing;
      } else {
        r, u := MakeTable(f, x, t, p);
      }
    }

    /** The allocating branch of one level. */
    method MakeTable(f: nat, x: nat, ghost t: Tree, ghost p: Path) returns (r: Step, ghost u: Tree)
      requires Valid() && InHeap(Now(), t) && PathOk(Down(p, x)) && Depth(p) < 3 && f == FrameAt(mem, t.root, p)
               && f != 0
      requires FrameAt(mem, t.root, Down(p, x)) == 0
      modifies this
      ensures Valid()
      ensures r.To? ==> TablesGrown(old(Now()), t, Now(), u) && r.f == FrameAt(mem, t.root, Down(p, x)) && r.f != 0
      ensures r.NoMemory? ==> free == {}
      ensures !r.Missing?
    {
      hide Chain;
      ghost var h := Now();
      assert f in t.owner && f !in h.free && f < |mem|;
      var ok, g := Kalloc();
      if !ok {
        return NoMemory, t;
      }
      var e := g * PGSIZE + (PTE_P + PTE_W + PTE_U);
      var page := ZeroPage();
      assert FrameOf(e) == g && Present(e);
      TableGrown(h, t, p, x, e, page);
      hide CanLink, TablesGrown, TreeOk, FrameAt;
      mem := mem[g := page];
      mem := SetWord(mem, f, x, e);
      assert mem == Linked(h.mem, f, x, e, page);
      ChainKept(h.mem, mem, freelist, free);
      return To(g), Tree(t.root, t.owner[g := Down(p, x)]);
    }

    /** walkpgdir: the bottom table for page `pn`, whose entry is at `pn % 512` of it. */
    method Walk(root: nat, pn: nat, alloc: bool, ghost t: Tree) returns (r: Step, ghost u: Tree)
      requires Valid() && InHeap(Now(), t) && root == t.root && pn < NPAGES
      modifies this
      ensures Valid() && (!alloc ==> Now() == old(Now()) && u == t)
      ensures r.To? ==> TablesGrown(old(Now()), t, Now(), u) && r.f == FrameAt(mem, root, TablePath(pn)) && r.f != 0
      ensures r.Missing? ==> !alloc && FrameAt(mem, root, TablePath(pn)) == 0
      ensures r.NoMemory? ==> alloc && free == {}
    {
      hide InHeap, TablesGrown, Chain, HeapOk, PathOk, Depth;
      ghost var h := Now();
      TablePaths(pn);
      RootThere(h, t);
      r, u := NextTable(root, pn / 0x800_0000, alloc, t, Root);
      if !r.To? {
        return;
      }
      TablesGrownOk(h, t, Now(), u);
      ghost var g, v := Now(), u;
      r, v := NextTable(r.f, pn / 0x4_0000 % 512, alloc, u, TablePath(pn).up.up);
      if !r.To? {
        u := v;
        return;
      }
      TablesTwice(h, t, g, u, Now(), v);
      TablesGrownOk(h, t, Now(), v);
      g := Now();
      r, u := NextTable(r.f, pn / 512 % 512, alloc, v, TablePath(pn).up);
      if r.To? {
        TablesTwice(h, t, g, v, Now(), u);
      }
    }

    /**
      mappages: the pages that [va, va + size) touches are mapped to the frames from `a` on
      with `perm`, and no other page's entry changes. It panics where a page is mapped already.
     */
    method Mappages(root: nat, va: nat, size: nat, a: nat, perm: nat, ghost t: Tree) returns (r: MapEnd, ghost u: Tree)
      requires Valid() && InHeap(Now(), t) && root == t.root && perm < PGSIZE
      requires size > 0 && va + size <= NPAGES * PGSIZE
      requires Spare(Now(), t, a, Touched(va, size))
      modifies this
      ensures Valid()
      ensures r.Mapped? ==> PagesMapped(old(Now()), t, Now(), u, va / PGSIZE, Touched(va, size), a, perm)
      ensures r.Remap? ==>
                exists pn :: va / PGSIZE <= pn < va / PGSIZE + Touched(va, size) && Present(Pte(old(mem), root, pn))
      ensures r.Exhausted? ==> free == {}
    {
      hide PagesMapped, InHeap, HeapOk, Chain, Spare, Pte;
      ghost var h := Now();
      var pn, last := va / PGSIZE, (va + size - 1) / PGSIZE;
      ghost var first, m := pn, Touched(va, size);
      var frame := a;
      u := t;
      NoPagesMapped(h, t, first, a, perm);
      while true
        invariant Valid() && first <= pn <= last && frame - a == pn - first
        invariant PagesMapped(h, t, Now(), u, first, pn - first, a, perm)
        decreases last - pn
      {
        r, u := MapPage(root, pn, frame, perm, h, t, u, first, a, m);
        if !r.Mapped? || pn == last {
          return;
        }
        pn := pn + 1;
        frame := frame + 1;
      }
    }

    /** One round of mappages. */
    method MapPage(root: nat, pn: nat, frame: nat, perm: nat, ghost h: Heap, ghost t: Tree, ghost t1: Tree,
                   ghost first: nat, ghost a: nat, ghost m: nat) returns (r: MapEnd, ghost u: Tree)
      requires Valid() && root == t.root && perm < PGSIZE && first <= pn < first + m && pn < NPAGES
      requires frame == a + pn - first
      requires Spare(h, t, a, m) && PagesMapped(h, t, Now(), t1, first, pn - first, a, perm)
      modifies this
      ensures Valid()
      ensures r.Mapped? ==> PagesMapped(h, t, Now(), u, first, pn + 1 - first, a, perm)
      ensures r.Remap? ==> Present(Pte(h.mem, root, pn))
      ensures r.Exhausted? ==> free == {}
    {
      hide InHeap, HeapOk, Chain, Spare, TablesGrown, PagesMapped, Pte, FrameAt;
      ghost var g, n := Now(), pn - first;
      PagesMappedOk(h, t, g, t1, first, n, a, m, perm);
      var w;
      w, u := Walk(root, pn, true, t1);
      if !w.To? {
        return Exhausted, u;
      }
      ghost var k := Now();
      PagesMappedTables(h, t, g, t1, k, u, first, n, a, m, perm);
      PagesMappedOk(h, t, k, u, first, n, a, m, perm);
      TableThere(k, u, pn);
      if Present(mem[w.f][pn % 512]) {
        return Remap, u;
      }
      PageWritten(h, t, k, u, first, n, a, m, perm);
      mem := SetWord(mem, w.f, pn % 512, Leaf(frame, perm));
      ChainKept(k.mem, mem, freelist, free);
      u := Tree(t.root, u.owner[frame := PagePath(pn)]);
      PagesMappedOk(h, t, Now(), u, first, n + 1, a, m, perm);
      HeapOkOf(Now(), u);
      return Mapped, u;
    }

    /** freevm: every frame of the tree goes back to the free list, each exactly once, and nothing else changes. */
    method Freevm(root: nat, ghost t: Tree) returns (ok: bool)
      requires Valid() && InHeap(Now(), t) && root == t.root
      modifies this
      ensures ok && Valid() && Freeing(old(Now()), t, Now(), t.owner.Keys)
    {
      hide InHeap, HeapOk, Chain, Under, Via, Freeing;
      ghost var h := Now();
      ghost var gone: set<nat>;
      FreeStarts(h, t);
      ok, gone := FreeLevel(root, 0, h, t, Root, {});
      FreeEnds(h, t, Now(), gone);
    }

    /**
      The loops of freevm over one table and all that is under it, the table last: at depth
      3 the entries are mapped pages, above it they are tables. `ok` is false if kfree panics.
     */
    method FreeLevel(f: nat, depth: nat, ghost h: Heap, ghost t: Tree, ghost p: Path, ghost gone: set<nat>)
      returns (ok: bool, ghost now: set<nat>)
      requires Valid() && InHeap(h, t) && Freeing(h, t, Now(), gone) && NoneUnder(t, gone, p)
      requires PathOk(p) && depth == Depth(p) <= 3 && f == FrameAt(h.mem, t.root, p) && f != 0
      modifies this
      ensures ok && Valid() && Freeing(h, t, Now(), now) && GoneUnder(t, gone, now, p)
      decreases 4 - depth
    {
      hide InHeap, HeapOk, Chain, Under, Via, Freeing, NoneUnder, GoneUnder, GoneVia, FrameAt;
      now := gone;
      NoneGone(t, gone, p);
      for x := 0 to if depth == 0 then ENTRIES / 2 else ENTRIES
        invariant Valid() && Freeing(h, t, Now(), now) && GoneVia(t, gone, now, p, x)
      {
        ok, now := FreeEntry(f, depth, x, h, t, p, gone, now);
      }
      TableLast(h, t, gone, now, p);
      OwnedFrame(h, t, Now(), now, p);
      ghost var g := Now();
      ok := Kfree(f);
      FreedOne(h, t, g, Now(), now, f);
      now := now + {f};
    }

    method FreeEntry(f: nat, depth: nat, x: nat, ghost h: Heap, ghost t: Tree, ghost p: Path, ghost gone: set<nat>,
                     ghost then0: set<nat>)
      returns (ok: bool, ghost now: set<nat>)
      requires Valid() && InHeap(h, t) && Freeing(h, t, Now(), then0) && NoneUnder(t, gone, p)
               && GoneVia(t, gone, then0, p, x)
      requires PathOk(p) && depth == Depth(p) <= 3 && x < Fan(p) && f == FrameAt(h.mem, t.root, p) && f != 0
      modifies this
      ensures ok && Valid() && Freeing(h, t, Now(), now) && GoneVia(t, gone, now, p, x + 1)
      decreases 4 - depth, 0
    {
      hide InHeap, HeapOk, Chain, Under, Via, Freeing, NoneUnder, GoneUnder, GoneVia, FrameAt;
      now := then0;
      EntryKept(h, t, Now(), gone, then0, p, x);
      if Present(mem[f][x]) {
        var child := FrameOf(mem[f][x]);
        NextChild(t, gone, then0, p, x);
        if depth == 3 {
          PageAlone(h, t, then0, Down(p, x));
          OwnedFrame(h, t, Now(), then0, Down(p, x));
          ghost var g := Now();
          ok := Kfree(child);
          FreedOne(h, t, g, Now(), now, child);
          now := now + {child};
        } else {
          ok, now := FreeLevel(child, depth + 1, h, t, Down(p, x), then0);
        }
      } else {
        NoChild(h, t, gone, then0, p, x);
        ok := true;
      }
    }

    /** setupkvm: a top level with nothing but the kernel's entry. False is the panic of kalloc. */
    method Setupkvm() returns (ok: bool, d: nat)
      requires Valid()
      modifies this
      ensures Valid() && (!ok ==> free == {})
      ensures ok ==> d in old(free) && free == old(free) - {d} && |mem| == |old(mem)| && d < |mem| && EmptyTop(mem[d])
      ensures ok ==> MapsKernel(mem[d], kpdpt)
      ensures ok ==> forall f :: 0 <= f < |mem| && f != d ==> mem[f] == old(mem)[f]
    {
      ok, d := Kalloc();
      if ok {
        var page := ZeroPage();
        page := page[256 := kpdpt * PGSIZE + (PTE_P + PTE_W)];
        ChainKept(mem, mem[d := page], freelist, free);
        mem := mem[d := page];
      }
    }

    /**
      copyuvm: a new tree with the same contents and flags for pages 1 to sz / 4096, on
      frames that were free, and no other pages; the parent is untouched.
     */
    method Copyuvm(pgdir: nat, sz: nat, ghost t: Tree) returns (r: CopyEnd, ghost u: Tree)
      requires Valid() && InHeap(Now(), t) && pgdir == t.root && sz < 0x1_0000_0000
      modifies this
      ensures Valid()
      ensures r.Copied? ==> u.root == r.d && Copying(old(Now()), pgdir, Now(), u, Max(1, (sz + PGSIZE - 1) / PGSIZE))
      ensures r.Copied? ==> r.d < |mem| && MapsKernel(mem[r.d], kpdpt)
      ensures r.Copied? ==> RightsCopied(old(mem), pgdir, mem, r.d, (sz + PGSIZE - 1) / PGSIZE)
      ensures r.Absent? ==> 1 <= r.pn < (sz + PGSIZE - 1) / PGSIZE && !Present(Pte(old(mem), pgdir, r.pn))
      ensures r.OutOfFrames? ==> free == {}
    {
      hide InHeap, Chain, Copying, Pte;
      ghost var h := Now();
      HeapOkOf(h, t);
      var ok, d := Setupkvm();
      if !ok {
        return OutOfFrames, t;
      }
      u := Tree(d, map[d := Root]);
      CopyStarts(h, pgdir, Now(), d);
      var i := PGSIZE;
      ghost var n := 1;
      hide EmptyTop, HeapOk, MapsKernel, KernelKept, RightsCopied;
      while i < sz
        invariant Valid() && n >= 1 && i == n * PGSIZE && n <= Max(1, (sz + PGSIZE - 1) / PGSIZE)
        invariant u.root == d && Copying(h, pgdir, Now(), u, n) && d < |mem| && MapsKernel(mem[d], kpdpt)
      {
        ghost var was := mem;
        r, u := CopyPage(pgdir, d, i, h, t, u, n);
        if !r.Copied? {
          return;
        }
        KernelMapped(was, mem, d, kpdpt);
        i := i + PGSIZE;
        n := n + 1;
      }
      CopiedRights(h, t, Now(), u, n);
      return Copied(d), u;
    }

    /** One round of copyuvm. */
    method CopyPage(pgdir: nat, d: nat, i: nat, ghost h: Heap, ghost t: Tree, ghost u0: Tree, ghost n: nat)
      returns (r: CopyEnd, ghost u: Tree)
      requires Valid() && InHeap(h, t) && pgdir == t.root && u0.root == d && 1 <= n < NPAGES && i == n * PGSIZE
      requires Copying(h, pgdir, Now(), u0, n)
      modifies this
      ensures Valid()
      ensures r.Copied? ==> u.root == d && Copying(h, pgdir, Now(), u, n + 1) && KernelKept(old(mem), mem, d)
      ensures r.Absent? ==> r.pn == n && !Present(Pte(h.mem, pgdir, n))
      ensures r.OutOfFrames? ==> free == {}
    {
      hide InHeap, Chain, Copying, Pte, HeapOk, PagesMapped, Spare, FrameAt;
      ghost var g := Now();
      ParentKept(h, t, g, u0, n);
      assert i / PGSIZE == n;
      var w, _ := Walk(pgdir, i / PGSIZE, false, t);
      if w.Missing? {
        NoTableNoPage(g, t, n);
        return Absent(i / PGSIZE), u0;
      }
      TableThere(g, t, n);
      var e := mem[w.f][i / PGSIZE % 512];
      if !Present(e) {
        return Absent(i / PGSIZE), u0;
      }
      var ok, c := Kalloc();
      if !ok {
        return OutOfFrames, u0;
      }
      CopyReady(h, t, g, u0, n, c);
      ChainKept(mem, mem[c := mem[FrameOf(e)]], freelist, free);
      mem := mem[c := mem[FrameOf(e)]];
      ghost var k := Now();
      assert k == WithCopy(g, c, FrameOf(e));
      HeapOkOf(k, u0);
      var m;
      m, u := Mappages(d, i, PGSIZE, c, FlagsOf(e), u0);
      if m.Mapped? {
        CopyStep(h, t, g, u0, n, c, Now(), u);
        MappedKeepsKernel(g, u0, k, c, Now(), u, n, FlagsOf(e));
        return Copied(d), u;
      }
      assert m.Exhausted?;
      return OutOfFrames, u;
    }

    /** A copy that is thrown away: the same frames are free as before. */
    method CopyThenFree(pgdir: nat, sz: nat, ghost t: Tree) returns (ok: bool)
      requires Valid() && InHeap(Now(), t) && pgdir == t.root && sz < 0x1_0000_0000
      modifies this
      ensures Valid()
      ensures ok ==> free == old(free) && InHeap(Now(), t) && |mem| == |old(mem)|
      ensures ok ==> forall f :: 0 <= f < |mem| && f !in free ==> mem[f] == old(mem)[f]
    {
      hide InHeap, Chain, Copying, Pte, HeapOk, Freeing;
      ghost var h := Now();
      ghost var u;
      var r;
      r, u := Copyuvm(pgdir, sz, t);
      if !r.Copied? {
        return false;
      }
      ghost var n, g := Max(1, (sz + PGSIZE - 1) / PGSIZE), Now();
      ParentKept(h, t, g, u, n);
      ok := Freevm(r.d, u);
      CopyUndone(h, t, g, u, n, Now());
    }

    /**
      allocuvm: the pages between the two sizes are mapped to zeroed frames. User sizes are
      at most 2^47; sizes from KERNBASE on are refused.
     */
    method Allocuvm(pgdir: nat, oldsz: nat, newsz: nat, ghost t: Tree) returns (r: AllocEnd, ghost u: Tree)
      requires Valid() && InHeap(Now(), t) && pgdir == t.root && (newsz <= NPAGES * PGSIZE || newsz >= KERNBASE)
      modifies this
      ensures Valid()
      ensures newsz >= KERNBASE ==> r == Grew(0)
      ensures newsz < oldsz && newsz < KERNBASE ==> r == Grew(oldsz)
      ensures newsz < oldsz || newsz >= KERNBASE ==> Now() == old(Now()) && u == t
      ensures oldsz <= newsz < KERNBASE && r.Grew? ==>
                r.sz == newsz && Enlarged(old(Now()), t, Now(), u, PageUp(oldsz), PageUp(newsz) - PageUp(oldsz))
      ensures oldsz <= newsz < KERNBASE && r.Grew? ==>
                forall pn :: PageUp(oldsz) <= pn < PageUp(newsz) ==> UserWritable(mem, pgdir, pn)
      ensures r.AllocRemap? ==> exists pn :: PageUp(oldsz) <= pn < PageUp(newsz) && Present(Pte(old(mem), pgdir, pn))
      ensures r.AllocExhausted? ==> free == {}
    {
      u := t;
      if newsz >= KERNBASE {
        return Grew(0), u;
      }
      if newsz < oldsz {
        return Grew(oldsz), u;
      }
      ghost var h, first := Now(), PageUp(oldsz);
      NothingEnlarged(h, t, first);
      hide InHeap, HeapOk, Chain, Enlarged, Pte;
      var a := PageUp(oldsz) * PGSIZE;
      ghost var n := 0;
      while a < newsz
        invariant Valid() && a == (first + n) * PGSIZE && first + n <= PageUp(newsz)
        invariant Enlarged(h, t, Now(), u, first, n)
      {
        r, u := AllocPage(pgdir, a, h, t, u, first, n);
        if !r.Grew? {
          return;
        }
        a := a + PGSIZE;
        n := n + 1;
      }
      NewPagesOpen(h, t, Now(), u, first, n);
      return Grew(newsz), u;
    }

    /** One round of allocuvm. */
    method AllocPage(pgdir: nat, a: nat, ghost h: Heap, ghost t: Tree, ghost u0: Tree, ghost first: nat, ghost n: nat)
      returns (r: AllocEnd, ghost u: Tree)
      requires Valid() && InHeap(h, t) && pgdir == t.root && a == (first + n) * PGSIZE && first + n < NPAGES
      requires Enlarged(h, t, Now(), u0, first, n)
      modifies this
      ensures Valid()
      ensures r.Grew? ==> Enlarged(h, t, Now(), u, first, n + 1)
      ensures r.AllocRemap? ==> Present(Pte(h.mem, pgdir, first + n))
      ensures r.AllocExhausted? ==> free == {}
    {
      hide InHeap, HeapOk, Chain, Enlarged, Pte, PagesMapped, Spare;
      ghost var g := Now();
      EnlargedOk(h, t, g, u0, first, n);
      var ok, c := Kalloc();
      if !ok {
        return AllocExhausted, u0;
      }
      ZeroReady(g, u0, c);
      ChainKept(mem, mem[c := ZeroPage()], freelist, free);
      mem := mem[c := ZeroPage()];
      ghost var z := Now();
      assert z == WithZero(g, c);
      HeapOkOf(z, u0);
      var m;
      m, u := Mappages(pgdir, a, PGSIZE, c, PTE_W + PTE_U, u0);
      if m.Mapped? {
        EnlargedOne(h, t, g, u0, first, n, c, Now(), u);
        return Grew(0), u;
      } else if m.Remap? {
        return AllocRemap, u;
      }
      return AllocExhausted, u;
    }

    /** deallocuvm: the mapped pages between the two sizes are unmapped and their frames freed. `ok` is never false. */
    method Deallocuvm(pgdir: nat, oldsz: nat, newsz: nat, ghost t: Tree) returns (ok: bool, sz: nat, ghost u: Tree)
      requires Valid() && InHeap(Now(), t) && pgdir == t.root && oldsz <= NPAGES * PGSIZE
      modifies this
      ensures Valid() && ok && sz == (if newsz >= oldsz then oldsz else newsz)
      ensures newsz >= oldsz ==> Now() == old(Now()) && u == t
      ensures newsz < oldsz ==> Shrunk(old(Now()), t, Now(), u, PageUp(newsz), PageUp(oldsz) - PageUp(newsz))
    {
      u := t;
      if newsz >= oldsz {
        return true, oldsz, u;
      }
      ghost var h, first := Now(), PageUp(newsz);
      NothingShrunk(h, t, first);
      hide InHeap, HeapOk, Chain, Shrunk, Pte;
      var a := PageUp(newsz) * PGSIZE;
      ghost var n := 0;
      while a < oldsz
        invariant Valid() && a == (first + n) * PGSIZE && first + n <= PageUp(oldsz)
        invariant Shrunk(h, t, Now(), u, first, n)
      {
        ok, u := DropPage(pgdir, a / PGSIZE, h, t, u, first, n);
        a := a + PGSIZE;
        n := n + 1;
      }
      return true, newsz, u;
    }

    /** One round of deallocuvm; false is a panic of kfree or of the test before it. */
    method DropPage(pgdir: nat, pn: nat, ghost h: Heap, ghost t: Tree, ghost u0: Tree, ghost first: nat, ghost n: nat)
      returns (ok: bool, ghost u: Tree)
      requires Valid() && pgdir == t.root && pn == first + n < NPAGES && Shrunk(h, t, Now(), u0, first, n)
      modifies this
      ensures Valid() && ok && Shrunk(h, t, Now(), u, first, n + 1)
    {
      hide InHeap, HeapOk, Chain, Shrunk, Pte, FrameAt, MemOk;
      u := u0;
      ghost var g := Now();
      ShrunkOk(h, t, g, u0, first, n);
      var w, _ := Walk(pgdir, pn, false, u0);
      if w.Missing? {
        NoTableNoPage(g, u0, pn);
        ShrunkPast(h, t, g, u0, first, n);
        return true, u;
      }
      TableThere(g, u0, pn);
      var e := mem[w.f][pn % 512];
      if !Present(e) {
        ShrunkPast(h, t, g, u0, first, n);
        return true, u;
      }
      MappedParts(g, u0, pn);
      ok := Kfree(FrameOf(e));
      ghost var page := mem[FrameOf(e)];
      KfreedPage(Now(), FrameOf(e));
      ShrunkOne(h, t, g, u0, first, n, page);
      ghost var k := Now();
      mem := SetWord(mem, w.f, pn % 512, 0);
      ChainKept(k.mem, mem, freelist, free);
      u := CutTree(g, u0, pn);
      CutIs(g, u0, pn, page, k.mem, mem);
      ShrunkOk(h, t, Now(), u, first, n + 1);
      HeapOkOf(Now(), u);
    }
  }
}
