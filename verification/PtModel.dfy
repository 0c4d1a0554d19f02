/**
  Four-level page tables on a memory of frames. A frame is 512 words; an entry is the
  number of a frame times 4096 plus flag bits, of which bit 0 says that it is present.
  The tables reached from a root form a tree: a path names the entries followed from it.
 */
module PtModel {

  const ENTRIES := 512
  const PGSIZE := 4096

  type Mem = seq<seq<nat>>

  ghost predicate MemOk(mem: Mem) {
    forall f :: 0 <= f < |mem| ==> |mem[f]| == ENTRIES
  }

  predicate Present(e: nat) {
    e % 2 == 1
  }

  function FrameOf(e: nat): nat {
    e / PGSIZE
  }

  function FlagsOf(e: nat): nat {
    e % PGSIZE
  }

  const WRITE := 2
  const USER := 4

  /** Right `b`, one of the two above, is set in an entry. */
  predicate Grants(e: nat, b: nat)
    requires b > 0
  {
    e / b % 2 == 1
  }

  /** An entry on the way to a page leaves the rights to the page's own entry. */
  predicate Open(e: nat) {
    Present(e) && Grants(e, WRITE) && Grants(e, USER)
  }

  // ---------------------------------------------------------------------------
  // Paths

  datatype Path = Root | Down(up: Path, x: nat)

  function Depth(p: Path): nat {
    if p.Root? then 0 else Depth(p.up) + 1
  }

  /** User entries of a table: half of the top level, all of the others. */
  function Fan(p: Path): nat {
    if p.Root? then ENTRIES / 2 else ENTRIES
  }

  /** Tables are at depths 0 to 3, mapped pages at depth 4. */
  predicate PathOk(p: Path) {
    p.Root? || (PathOk(p.up) && Depth(p) <= 4 && p.x < Fan(p.up))
  }

  /** The frame that a path leads to, or 0. */
  function FrameAt(mem: Mem, root: nat, p: Path): nat {
    if p.Root? then root
    else
      var f := FrameAt(mem, root, p.up);
      if 0 < f < |mem| && p.x < |mem[f]| && Present(mem[f][p.x]) then FrameOf(mem[f][p.x]) else 0
  }

  /** `owner` gives the path of every frame of the tree: no frame is reached by two paths. */
  ghost predicate TreeOk(mem: Mem, lo: nat, root: nat, owner: map<nat, Path>) {
    && 0 < lo
    && (forall f <- owner :: lo <= f < |mem| && PathOk(owner[f]) && FrameAt(mem, root, owner[f]) == f)
    && (forall p :: PathOk(p) && FrameAt(mem, root, p) != 0 ==>
          FrameAt(mem, root, p) in owner && owner[FrameAt(mem, root, p)] == p)
    && root != 0
    && (forall f <- owner, x | Depth(owner[f]) < 4 && 0 <= x < Fan(owner[f]) && x < |mem[f]| ::
          Present(mem[f][x]) ==> FrameOf(mem[f][x]) != 0 && (Depth(owner[f]) < 3 ==> Open(mem[f][x])))
  }

  lemma RootOwned(mem: Mem, lo: nat, root: nat, owner: map<nat, Path>)
    requires TreeOk(mem, lo, root, owner)
    ensures root in owner && owner[root] == Root
  {
    assert FrameAt(mem, root, Root) == root && PathOk(Root);
  }

  // ---------------------------------------------------------------------------
  // Changes that keep a tree

  /** The tables of a tree decide where its paths lead. */
  lemma {:induction false} SameFrames(mem: Mem, mem': Mem, lo: nat, root: nat, owner: map<nat, Path>, q: Path)
    requires TreeOk(mem, lo, root, owner) && |mem'| == |mem| && PathOk(q)
    requires forall f <- owner :: Depth(owner[f]) < 4 ==> mem'[f] == mem[f]
    ensures FrameAt(mem', root, q) == FrameAt(mem, root, q)
  {
    if q.Down? {
      SameFrames(mem, mem', lo, root, owner, q.up);
      var f := FrameAt(mem, root, q.up);
      assert f != 0 ==> f in owner && owner[f] == q.up;
    }
  }

  lemma SameTree(mem: Mem, mem': Mem, lo: nat, root: nat, owner: map<nat, Path>)
    requires TreeOk(mem, lo, root, owner) && |mem'| == |mem|
    requires forall f <- owner :: Depth(owner[f]) < 4 ==> mem'[f] == mem[f]
    ensures TreeOk(mem', lo, root, owner)
    ensures forall q :: PathOk(q) ==> FrameAt(mem', root, q) == FrameAt(mem, root, q)
  {
    forall q | PathOk(q)
      ensures FrameAt(mem', root, q) == FrameAt(mem, root, q)
    {
      SameFrames(mem, mem', lo, root, owner, q);
    }
  }

  function ZeroPage(): (r: seq<nat>)
    ensures |r| == ENTRIES && forall x :: 0 <= x < ENTRIES ==> r[x] == 0
  {
    seq(ENTRIES, _ => 0)
  }

  function SetWord(mem: Mem, f: nat, x: nat, e: nat): Mem
    requires f < |mem| && x < |mem[f]|
  {
    var page: seq<nat> := mem[f][x := e];
    mem[f := page]
  }

  /** Entry `x` of the frame `f` at path `p` is set to lead to the frame `g` with the contents `page`. */
  ghost function Linked(mem: Mem, f: nat, x: nat, e: nat, page: seq<nat>): Mem
    requires MemOk(mem) && f < |mem| && x < ENTRIES && FrameOf(e) < |mem|
  {
    mem[FrameOf(e) := page][f := mem[f][x := e]]
  }

  ghost predicate CanLink(mem: Mem, lo: nat, root: nat, owner: map<nat, Path>, p: Path, x: nat, e: nat,
                          page: seq<nat>) {
    && MemOk(mem) && TreeOk(mem, lo, root, owner) && PathOk(Down(p, x))
    && FrameAt(mem, root, p) != 0 && FrameAt(mem, root, Down(p, x)) == 0
    && lo <= FrameOf(e) < |mem| && FrameOf(e) !in owner && Present(e) && (Depth(p) < 3 ==> Open(e))
    && |page| == ENTRIES && (Depth(p) < 3 ==> forall y :: 0 <= y < ENTRIES ==> page[y] == 0)
  }

  lemma {:induction false} LinkFrames(mem: Mem, lo: nat, root: nat, owner: map<nat, Path>, p: Path, x: nat, e: nat,
                                      page: seq<nat>, q: Path)
    requires CanLink(mem, lo, root, owner, p, x, e, page) && PathOk(q)
    ensures var f := FrameAt(mem, root, p);
            f < |mem| && x < ENTRIES &&
            FrameAt(Linked(mem, f, x, e, page), root, q) ==
            if q == Down(p, x) then FrameOf(e) else FrameAt(mem, root, q)
  {
    var f := FrameAt(mem, root, p);
    RootOwned(mem, lo, root, owner);
    assert f in owner && owner[f] == p;
    if q.Down? {
      LinkFrames(mem, lo, root, owner, p, x, e, page, q.up);
      if q.up != Down(p, x) {
        var h := FrameAt(mem, root, q.up);
        assert h != 0 ==> h in owner && owner[h] == q.up;
      }
    }
  }

  /** A frame that is in no tree becomes part of this one, and every other path leads where it did. */
  lemma LinkTree(mem: Mem, lo: nat, root: nat, owner: map<nat, Path>, p: Path, x: nat, e: nat, page: seq<nat>)
    requires CanLink(mem, lo, root, owner, p, x, e, page)
    ensures FrameAt(mem, root, p) < |mem| && x < ENTRIES
    ensures var mem' := Linked(mem, FrameAt(mem, root, p), x, e, page);
            && MemOk(mem') && TreeOk(mem', lo, root, owner[FrameOf(e) := Down(p, x)])
            && forall q :: PathOk(q) ==>
                 FrameAt(mem', root, q) == if q == Down(p, x) then FrameOf(e) else FrameAt(mem, root, q)
  {
    var f := FrameAt(mem, root, p);
    assert f in owner && owner[f] == p;
    var mem' := Linked(mem, f, x, e, page);
    forall q | PathOk(q)
      ensures FrameAt(mem', root, q) == if q == Down(p, x) then FrameOf(e) else FrameAt(mem, root, q)
    {
      LinkFrames(mem, lo, root, owner, p, x, e, page, q);
    }
    hide FrameAt;
    var o := owner[FrameOf(e) := Down(p, x)];
    forall h <- o
      ensures lo <= h < |mem'| && PathOk(o[h]) && FrameAt(mem', root, o[h]) == h
    {
      assert h in owner ==> owner[h] != Down(p, x);
    }
    forall h <- o, y | Depth(o[h]) < 4 && 0 <= y < Fan(o[h]) && y < |mem'[h]|
      ensures Present(mem'[h][y]) ==> FrameOf(mem'[h][y]) != 0 && (Depth(o[h]) < 3 ==> Open(mem'[h][y]))
    {
      assert h == FrameOf(e) ==> Depth(p) < 3;
    }
  }

  // ---------------------------------------------------------------------------
  // The pages a table maps

  /** Page numbers of user addresses, which are below 2^47. */
  const NPAGES := 0x8_0000_0000

  function TablePath(pn: nat): Path {
    Down(Down(Down(Root, pn / 0x800_0000), pn / 0x4_0000 % 512), pn / 512 % 512)
  }

  function PagePath(pn: nat): Path {
    Down(TablePath(pn), pn % 512)
  }

  lemma PathOfPage(pn: nat)
    requires pn < NPAGES
    ensures PathOk(PagePath(pn)) && PathOk(TablePath(pn)) && Depth(TablePath(pn)) == 3 && Depth(PagePath(pn)) == 4
  {
    TablePaths(pn);
  }

  lemma TablePaths(pn: nat)
    requires pn < NPAGES
    ensures PathOk(TablePath(pn)) && PathOk(TablePath(pn).up) && PathOk(TablePath(pn).up.up)
    ensures Depth(TablePath(pn)) == 3 && Depth(TablePath(pn).up) == 2 && Depth(TablePath(pn).up.up) == 1
  {
    var a := Down(Root, pn / 0x800_0000);
    assert PathOk(Root) && Fan(Root) == 256 && pn / 0x800_0000 < 256;
    var b := Down(a, pn / 0x4_0000 % 512);
    assert Depth(Root) == 0 && Depth(a) == 1 && PathOk(a);
    assert Depth(b) == 2 && PathOk(b);
    assert Depth(TablePath(pn)) == 3 && PathOk(TablePath(pn));
  }

  /** Different pages are at different paths. */
  lemma PagesApart(pn: nat, pn2: nat)
    requires PagePath(pn) == PagePath(pn2)
    ensures pn == pn2
  {
    Digits(pn);
    Digits(pn2);
  }

  lemma Digits(pn: nat)
    ensures pn == pn / 0x800_0000 * 0x800_0000 + pn / 0x4_0000 % 512 * 0x4_0000 + pn / 512 % 512 * 512 + pn % 512
  {
    assert pn / 512 / 512 == pn / 0x4_0000 && pn / 0x4_0000 / 512 == pn / 0x800_0000;
  }

  /** The page-table entry of a page; 0 where there is no table for it. */
  function Pte(mem: Mem, root: nat, pn: nat): nat {
    var t := FrameAt(mem, root, TablePath(pn));
    if 0 < t < |mem| && |mem[t]| == ENTRIES then mem[t][pn % 512] else 0
  }

  /** Linking changes the entry it writes and no other page's. */
  lemma LinkedPte(mem: Mem, lo: nat, root: nat, owner: map<nat, Path>, p: Path, x: nat, e: nat, page: seq<nat>, pn: nat)
    requires CanLink(mem, lo, root, owner, p, x, e, page) && pn < NPAGES
    ensures FrameAt(mem, root, p) < |mem| && x < ENTRIES
    ensures Pte(Linked(mem, FrameAt(mem, root, p), x, e, page), root, pn) ==
            if Down(p, x) == PagePath(pn) then e else Pte(mem, root, pn)
  {
    PathOfPage(pn);
    LinkFrames(mem, lo, root, owner, p, x, e, page, TablePath(pn));
    assert Depth(Down(p, x)) == Depth(p) + 1;
    var f, t := FrameAt(mem, root, p), FrameAt(mem, root, TablePath(pn));
    assert f in owner && owner[f] == p;
    assert t != 0 ==> t in owner && owner[t] == TablePath(pn);
    hide FrameAt, PathOk, Depth, TreeOk;
  }

  // ---------------------------------------------------------------------------
  // Trees and free frames together

  /** `free` are the frames on the free list; frames below `lo` hold the kernel itself. */
  datatype Heap = Heap(lo: nat, mem: Mem, free: set<nat>)

  datatype Tree = Tree(root: nat, owner: map<nat, Path>)

  ghost predicate HeapOk(h: Heap) {
    MemOk(h.mem) && 0 < h.lo && forall f <- h.free :: h.lo <= f < |h.mem|
  }

  ghost predicate InHeap(h: Heap, t: Tree) {
    HeapOk(h) && TreeOk(h.mem, h.lo, t.root, t.owner) && t.owner.Keys !! h.free
  }

  /** The half of the top level that maps the kernel is as it was. */
  ghost predicate KernelKept(mem: Mem, mem': Mem, root: nat) {
    && root < |mem| == |mem'| && |mem[root]| == |mem'[root]| == ENTRIES
    && mem'[root][ENTRIES / 2..] == mem[root][ENTRIES / 2..]
  }

  /**
    From `h` to `g` the tree `t` became `u`: it took frames from the free list and the
    frames `pages` from its caller, lost none, kept the contents of its mapped pages, and
    nothing outside it and the free list changed.
   */
  ghost predicate Grown(h: Heap, t: Tree, g: Heap, u: Tree, pages: set<nat>) {
    && InHeap(g, u) && g.lo == h.lo && |g.mem| == |h.mem| && u.root == t.root
    && g.free <= h.free && u.owner.Keys == t.owner.Keys + (h.free - g.free) + pages
    && (forall f <- t.owner :: f in u.owner && u.owner[f] == t.owner[f])
    && (forall f :: 0 <= f < |h.mem| && (f in t.owner ==> Depth(t.owner[f]) == 4) && f !in h.free ==>
           g.mem[f] == h.mem[f])
    && KernelKept(h.mem, g.mem, t.root)
  }

  lemma LinkKeepsKernel(mem: Mem, lo: nat, root: nat, owner: map<nat, Path>, p: Path, x: nat, e: nat, page: seq<nat>)
    requires CanLink(mem, lo, root, owner, p, x, e, page)
    ensures FrameAt(mem, root, p) < |mem| && x < ENTRIES
    ensures KernelKept(mem, Linked(mem, FrameAt(mem, root, p), x, e, page), root)
  {
    var f := FrameAt(mem, root, p);
    RootOwned(mem, lo, root, owner);
    assert f in owner && owner[f] == p;
    var mem' := Linked(mem, f, x, e, page);
    assert f == root ==> p == Root && mem'[root] == mem[root][x := e];
    assert f != root ==> mem'[root] == mem[root];
  }

  lemma GrownTwice(h: Heap, t: Tree, g: Heap, u: Tree, k: Heap, v: Tree, a: set<nat>, b: set<nat>)
    requires Grown(h, t, g, u, a) && Grown(g, u, k, v, b)
    requires a !! t.owner.Keys && a !! h.free && b !! g.free && b !! h.free
    requires forall f <- a :: u.owner[f].Down? && Depth(u.owner[f]) == 4
    ensures Grown(h, t, k, v, a + b)
  {
    hide TreeOk, MemOk, HeapOk;
    assert v.owner.Keys == t.owner.Keys + (h.free - k.free) + (a + b);
  }

  ghost predicate SamePages(mem: Mem, mem': Mem, root: nat) {
    forall pn :: 0 <= pn < NPAGES ==> Pte(mem', root, pn) == Pte(mem, root, pn)
  }

  /** From `h` to `g` the tree gained tables only. */
  ghost predicate TablesGrown(h: Heap, t: Tree, g: Heap, u: Tree) {
    Grown(h, t, g, u, {}) && SamePages(h.mem, g.mem, t.root)
  }

  lemma TablesGrownOk(h: Heap, t: Tree, g: Heap, u: Tree)
    requires TablesGrown(h, t, g, u)
    ensures InHeap(g, u) && u.root == t.root
  {
  }

  lemma HeapOkOf(h: Heap, t: Tree)
    requires InHeap(h, t)
    ensures HeapOk(h)
  {
  }

  lemma RootThere(h: Heap, t: Tree)
    requires InHeap(h, t)
    ensures FrameAt(h.mem, t.root, Root) == t.root && t.root != 0 && Depth(Root) == 0
  {
  }

  lemma NoneGrown(h: Heap, t: Tree)
    requires InHeap(h, t)
    ensures TablesGrown(h, t, h, t)
  {
    RootOwned(h.mem, h.lo, t.root, t.owner);
  }

  lemma TablePages(mem: Mem, lo: nat, root: nat, owner: map<nat, Path>, p: Path, x: nat, e: nat, page: seq<nat>)
    requires CanLink(mem, lo, root, owner, p, x, e, page) && Depth(p) < 3
    ensures FrameAt(mem, root, p) < |mem| && x < ENTRIES
    ensures SamePages(mem, Linked(mem, FrameAt(mem, root, p), x, e, page), root)
  {
    hide TreeOk, Pte, Linked;
    LinkedPte(mem, lo, root, owner, p, x, e, page, 0);
    forall pn | 0 <= pn < NPAGES
      ensures Pte(Linked(mem, FrameAt(mem, root, p), x, e, page), root, pn) == Pte(mem, root, pn)
    {
      LinkedPte(mem, lo, root, owner, p, x, e, page, pn);
      PathOfPage(pn);
    }
  }

  lemma TableOwned(h: Heap, t: Tree, p: Path, x: nat)
    requires InHeap(h, t) && PathOk(Down(p, x)) && FrameAt(h.mem, t.root, p) != 0
    ensures FrameAt(h.mem, t.root, p) in t.owner && t.owner[FrameAt(h.mem, t.root, p)] == p
  {
  }

  /** The step of walkpgdir that makes a table: a zeroed frame off the free list is linked in. */
  lemma TableGrown(h: Heap, t: Tree, p: Path, x: nat, e: nat, page: seq<nat>)
    requires InHeap(h, t) && FrameOf(e) in h.free && CanLink(h.mem, h.lo, t.root, t.owner, p, x, e, page)
             && Depth(p) < 3
    ensures FrameAt(h.mem, t.root, p) < |h.mem| && x < ENTRIES
    ensures var g := Heap(h.lo, Linked(h.mem, FrameAt(h.mem, t.root, p), x, e, page), h.free - {FrameOf(e)});
            && TablesGrown(h, t, g, Tree(t.root, t.owner[FrameOf(e) := Down(p, x)]))
            && FrameAt(g.mem, t.root, Down(p, x)) == FrameOf(e)
  {
    hide FrameAt, TreeOk, SamePages, PathOk, KernelKept, Open;
    TableOwned(h, t, p, x);
    LinkTree(h.mem, h.lo, t.root, t.owner, p, x, e, page);
    TablePages(h.mem, h.lo, t.root, t.owner, p, x, e, page);
    LinkKeepsKernel(h.mem, h.lo, t.root, t.owner, p, x, e, page);
    assert h.free - (h.free - {FrameOf(e)}) == {FrameOf(e)};
  }

  lemma TablesTwice(h: Heap, t: Tree, g: Heap, u: Tree, k: Heap, v: Tree)
    requires TablesGrown(h, t, g, u) && TablesGrown(g, u, k, v)
    ensures TablesGrown(h, t, k, v)
  {
    var none: set<nat> := {};
    GrownTwice(h, t, g, u, k, v, none, none);
    hide Grown, Pte;
    assert none + none == none;
  }

  /** Writing an entry of a bottom table: a frame of the caller's becomes a mapped page. */
  lemma PageGrown(h: Heap, t: Tree, pn: nat, e: nat)
    requires InHeap(h, t) && pn < NPAGES && FrameAt(h.mem, t.root, TablePath(pn)) != 0
             && !Present(Pte(h.mem, t.root, pn))
    requires h.lo <= FrameOf(e) < |h.mem| && FrameOf(e) !in t.owner && FrameOf(e) !in h.free && Present(e)
    ensures var f := FrameAt(h.mem, t.root, TablePath(pn));
            && f < |h.mem| && f in t.owner && FrameOf(e) != f && |h.mem[f]| == ENTRIES
            && var g := h.(mem := SetWord(h.mem, f, pn % 512, e));
            && Grown(h, t, g, Tree(t.root, t.owner[FrameOf(e) := PagePath(pn)]), {FrameOf(e)})
            && (forall m :: 0 <= m < NPAGES ==> Pte(g.mem, t.root, m) == if m == pn then e else Pte(h.mem, t.root, m))
  {
    PathOfPage(pn);
    var p := TablePath(pn);
    var f, a := FrameAt(h.mem, t.root, p), FrameOf(e);
    assert f in t.owner && t.owner[f] == p;
    assert CanLink(h.mem, h.lo, t.root, t.owner, p, pn % 512, e, h.mem[a]);
    LinkTree(h.mem, h.lo, t.root, t.owner, p, pn % 512, e, h.mem[a]);
    LinkKeepsKernel(h.mem, h.lo, t.root, t.owner, p, pn % 512, e, h.mem[a]);
    var mem' := Linked(h.mem, f, pn % 512, e, h.mem[a]);
    forall m | 0 <= m < NPAGES
      ensures Pte(mem', t.root, m) == if m == pn then e else Pte(h.mem, t.root, m)
    {
      LinkedPte(h.mem, h.lo, t.root, t.owner, p, pn % 512, e, h.mem[a], m);
      if PagePath(m) == PagePath(pn) {
        PagesApart(m, pn);
      }
    }
    hide FrameAt, TreeOk, Pte, PathOk;
    assert mem' == SetWord(h.mem, f, pn % 512, e);
  }

  // ---------------------------------------------------------------------------
  // Ranges of pages

  ghost function Frames(a: nat, n: nat): (r: set<nat>)
    ensures forall f: nat :: f in r <==> a <= f < a + n
  {
    if n == 0 then {} else Frames(a, n - 1) + {a + n - 1}
  }

  /** The entry that maps a page to frame `f`. */
  function Leaf(f: nat, perm: nat): nat {
    f * PGSIZE + (if perm % 2 == 1 then perm else perm + 1)
  }

  lemma LeafEntry(f: nat, perm: nat)
    requires perm < PGSIZE
    ensures var e := Leaf(f, perm);
            Present(e) && FrameOf(e) == f && FlagsOf(e) == if perm % 2 == 1 then perm else perm + 1
  {
    var flags := if perm % 2 == 1 then perm else perm + 1;
    assert Leaf(f, perm) == 2 * (2048 * f) + flags;
  }

  /** From `h` to `g` the tree gained the pages from `first`, `n` of them, on the frames from `a`, and no others. */
  ghost predicate PagesMapped(h: Heap, t: Tree, g: Heap, u: Tree, first: nat, n: nat, a: nat, perm: nat)
    requires perm < PGSIZE
  {
    && Grown(h, t, g, u, Frames(a, n))
    && (forall f <- Frames(a, n) :: Depth(u.owner[f]) == 4)
    && (forall pn :: first <= pn < first + n && pn < NPAGES ==> !Present(Pte(h.mem, t.root, pn)))
    && (forall pn :: 0 <= pn < NPAGES ==>
          Pte(g.mem, t.root, pn) == if first <= pn < first + n then Leaf(a + pn - first, perm)
                                    else Pte(h.mem, t.root, pn))
  }

  /** The frames are the caller's: memory that is neither free nor in the tree. */
  ghost predicate Spare(h: Heap, t: Tree, a: nat, n: nat) {
    h.lo <= a && a + n <= |h.mem| && Frames(a, n) !! h.free && Frames(a, n) !! t.owner.Keys
  }

  lemma PagesMappedTables(h: Heap, t: Tree, g: Heap, u: Tree, k: Heap, v: Tree, first: nat, n: nat, a: nat, m: nat,
                          perm: nat)
    requires perm < PGSIZE && PagesMapped(h, t, g, u, first, n, a, perm) && n <= m && Spare(h, t, a, m)
    requires TablesGrown(g, u, k, v)
    ensures PagesMapped(h, t, k, v, first, n, a, perm)
  {
    var none: set<nat> := {};
    hide InHeap, Pte, Leaf;
    GrownTwice(h, t, g, u, k, v, Frames(a, n), none);
    assert Frames(a, n) + none == Frames(a, n);
  }

  lemma PagesMappedOne(h: Heap, t: Tree, g: Heap, u: Tree, k: Heap, v: Tree, first: nat, n: nat, a: nat, m: nat,
                       perm: nat)
    requires perm < PGSIZE && PagesMapped(h, t, g, u, first, n, a, perm) && n < m && Spare(h, t, a, m)
    requires first + n < NPAGES && !Present(Pte(g.mem, t.root, first + n))
    requires Grown(g, u, k, v, {a + n}) && Depth(v.owner[a + n]) == 4
    requires forall pn :: 0 <= pn < NPAGES ==>
               Pte(k.mem, t.root, pn) == if pn == first + n then Leaf(a + n, perm) else Pte(g.mem, t.root, pn)
    ensures PagesMapped(h, t, k, v, first, n + 1, a, perm)
  {
    hide InHeap, Pte, Leaf;
    GrownTwice(h, t, g, u, k, v, Frames(a, n), {a + n});
    assert Frames(a, n) + {a + n} == Frames(a, n + 1);
  }

  /** The bottom table of a page holds its entry. */
  lemma TableThere(h: Heap, t: Tree, pn: nat)
    requires InHeap(h, t) && pn < NPAGES && FrameAt(h.mem, t.root, TablePath(pn)) != 0
    ensures var f := FrameAt(h.mem, t.root, TablePath(pn));
            f in t.owner && f !in h.free && f < |h.mem| && |h.mem[f]| == ENTRIES
            && Pte(h.mem, t.root, pn) == h.mem[f][pn % 512]
  {
    PathOfPage(pn);
    hide FrameAt, PathOk, Depth;
  }

  /** The number of pages that [va, va + size) touches. */
  function Touched(va: nat, size: nat): nat
    requires size > 0
  {
    (va + size - 1) / PGSIZE - va / PGSIZE + 1
  }

  lemma NoTableNoPage(h: Heap, t: Tree, pn: nat)
    requires FrameAt(h.mem, t.root, TablePath(pn)) == 0
    ensures Pte(h.mem, t.root, pn) == 0
  {
  }

  function Max(a: nat, b: nat): nat {
    if a > b then a else b
  }

  lemma NoPagesMapped(h: Heap, t: Tree, first: nat, a: nat, perm: nat)
    requires InHeap(h, t) && perm < PGSIZE
    ensures PagesMapped(h, t, h, t, first, 0, a, perm)
  {
    NoneGrown(h, t);
    assert Frames(a, 0) == {};
    hide Grown;
  }

  lemma PagesMappedOk(h: Heap, t: Tree, g: Heap, u: Tree, first: nat, n: nat, a: nat, m: nat, perm: nat)
    requires perm < PGSIZE && PagesMapped(h, t, g, u, first, n, a, perm) && n <= m && Spare(h, t, a, m)
    ensures InHeap(g, u) && u.root == t.root && |g.mem| == |h.mem| && g.lo == h.lo
    ensures forall f :: a + n <= f < a + m ==> f !in u.owner && f !in g.free
    ensures first + n < NPAGES ==> Pte(g.mem, t.root, first + n) == Pte(h.mem, t.root, first + n)
  {
    hide InHeap, Pte;
  }

  /** One page of mappages: the entry written in the table that walkpgdir gave. */
  lemma PageWritten(h: Heap, t: Tree, g: Heap, u: Tree, first: nat, n: nat, a: nat, m: nat, perm: nat)
    requires perm < PGSIZE && PagesMapped(h, t, g, u, first, n, a, perm) && n < m && Spare(h, t, a, m)
    requires first + n < NPAGES && !Present(Pte(g.mem, t.root, first + n))
    requires FrameAt(g.mem, t.root, TablePath(first + n)) != 0
    ensures var f, pn := FrameAt(g.mem, t.root, TablePath(first + n)), first + n;
            && f < |g.mem| && |g.mem[f]| == ENTRIES && f !in g.free
            && PagesMapped(h, t, g.(mem := SetWord(g.mem, f, pn % 512, Leaf(a + n, perm))),
                           Tree(t.root, u.owner[a + n := PagePath(pn)]), first, n + 1, a, perm)
  {
    hide PagesMapped, Pte, Leaf, FrameAt, PathOk, Depth, Grown, TreeOk;
    PagesMappedOk(h, t, g, u, first, n, a, m, perm);
    LeafEntry(a + n, perm);
    PageGrown(g, u, first + n, Leaf(a + n, perm));
    PathOfPage(first + n);
    var f := FrameAt(g.mem, t.root, TablePath(first + n));
    var k := g.(mem := SetWord(g.mem, f, (first + n) % 512, Leaf(a + n, perm)));
    PagesMappedOne(h, t, g, u, k, Tree(t.root, u.owner[a + n := PagePath(first + n)]), first, n, a, m, perm);
  }
}
