/** Taking a tree of tables apart, on the values of PtModel. */
module PtFree {
  import opened PtModel

  /** `q` is `p` or leads on from it. */
  predicate Under(q: Path, p: Path) {
    q == p || (q.Down? && Under(q.up, p))
  }

  /** The entry of `p` through which `q` leads on from it, or -1. */
  function Via(q: Path, p: Path): (x: int)
    ensures x >= -1
  {
    if q.Root? then -1 else if q.up == p then q.x else Via(q.up, p)
  }

  lemma {:induction false} UnderDepth(q: Path, p: Path)
    requires Under(q, p)
    ensures Depth(q) >= Depth(p) && (Depth(q) == Depth(p) ==> q == p)
  {
    if q != p {
      UnderDepth(q.up, p);
    }
  }

  lemma {:induction false} UnderVia(q: Path, p: Path, x: nat)
    ensures Under(q, Down(p, x)) <==> Via(q, p) == x
  {
    if q.Down? {
      if q.up == p {
        if Under(p, Down(p, x)) {
          UnderDepth(p, Down(p, x));
        }
      } else {
        UnderVia(q.up, p, x);
      }
    }
  }

  lemma {:induction false} ViaUnder(q: Path, p: Path)
    ensures Under(q, p) <==> q == p || Via(q, p) >= 0
    ensures PathOk(q) ==> Via(q, p) < Fan(p)
  {
    if q.Down? {
      ViaUnder(q.up, p);
    }
  }

  lemma ViaSelf(p: Path)
    ensures Via(p, p) == -1
  {
    if Via(p, p) >= 0 {
      UnderVia(p, p, Via(p, p));
      UnderDepth(p, Down(p, Via(p, p)));
    }
  }

  /** Every frame under a path is reached through the frame at the path. */
  lemma {:induction false} UnderReached(mem: Mem, root: nat, q: Path, p: Path)
    requires FrameAt(mem, root, q) != 0 && Under(q, p)
    ensures FrameAt(mem, root, p) != 0
  {
    if q != p {
      UnderReached(mem, root, q.up, p);
    }
  }

  /** From `h` to `g`, the frames `gone` of the tree went to the free list, each once, and no other frame changed. */
  ghost predicate Freeing(h: Heap, t: Tree, g: Heap, gone: set<nat>) {
    && gone <= t.owner.Keys && g.free == h.free + gone && g.lo == h.lo && |g.mem| == |h.mem|
    && forall f :: 0 <= f < |h.mem| && f !in gone ==> g.mem[f] == h.mem[f]
  }

  /** `now` is `gone` and the frames reached through the first `x` entries of `p`. */
  ghost predicate GoneVia(t: Tree, gone: set<nat>, now: set<nat>, p: Path, x: nat) {
    forall g <- t.owner :: g in now <==> g in gone || 0 <= Via(t.owner[g], p) < x
  }

  ghost predicate GoneUnder(t: Tree, gone: set<nat>, now: set<nat>, p: Path) {
    forall g <- t.owner :: g in now <==> g in gone || Under(t.owner[g], p)
  }

  ghost predicate NoneUnder(t: Tree, gone: set<nat>, p: Path) {
    forall g <- t.owner :: Under(t.owner[g], p) ==> g !in gone
  }

  /** The child at entry `x` is untouched when its turn comes, and with it gone one entry more is done. */
  lemma NextChild(t: Tree, gone: set<nat>, now: set<nat>, p: Path, x: nat)
    requires NoneUnder(t, gone, p) && GoneVia(t, gone, now, p, x)
    ensures NoneUnder(t, now, Down(p, x))
    ensures forall after :: GoneUnder(t, now, after, Down(p, x)) ==> GoneVia(t, gone, after, p, x + 1)
  {
    forall g <- t.owner
      ensures Under(t.owner[g], Down(p, x)) <==> Via(t.owner[g], p) == x
      ensures Via(t.owner[g], p) >= 0 ==> Under(t.owner[g], p)
    {
      UnderVia(t.owner[g], p, x);
      ViaUnder(t.owner[g], p);
    }
  }

  /** An entry that is not present has nothing under it. */
  lemma NoChild(h: Heap, t: Tree, gone: set<nat>, now: set<nat>, p: Path, x: nat)
    requires InHeap(h, t) && GoneVia(t, gone, now, p, x) && FrameAt(h.mem, t.root, Down(p, x)) == 0
    ensures GoneVia(t, gone, now, p, x + 1)
  {
    forall g <- t.owner
      ensures Via(t.owner[g], p) != x
    {
      UnderVia(t.owner[g], p, x);
      if Under(t.owner[g], Down(p, x)) {
        UnderReached(h.mem, t.root, t.owner[g], Down(p, x));
      }
    }
  }

  /** A mapped page has only itself under it. */
  lemma PageAlone(h: Heap, t: Tree, now: set<nat>, q: Path)
    requires InHeap(h, t) && Depth(q) == 4 && PathOk(q) && FrameAt(h.mem, t.root, q) != 0
    ensures FrameAt(h.mem, t.root, q) in t.owner
    ensures GoneUnder(t, now, now + {FrameAt(h.mem, t.root, q)}, q)
  {
    var f := FrameAt(h.mem, t.root, q);
    forall g <- t.owner
      ensures Under(t.owner[g], q) <==> g == f
    {
      assert PathOk(t.owner[g]) && t.owner[f] == q;
      if Under(t.owner[g], q) {
        UnderDepth(t.owner[g], q);
      }
    }
  }

  /** After all entries of a table, the table itself. */
  lemma TableLast(h: Heap, t: Tree, gone: set<nat>, now: set<nat>, p: Path)
    requires InHeap(h, t) && PathOk(p) && FrameAt(h.mem, t.root, p) != 0 && NoneUnder(t, gone, p)
    requires GoneVia(t, gone, now, p, Fan(p))
    ensures var f := FrameAt(h.mem, t.root, p);
            f in t.owner && f !in now && GoneUnder(t, gone, now + {f}, p)
  {
    var f := FrameAt(h.mem, t.root, p);
    assert t.owner[f] == p;
    ViaSelf(p);
    forall g <- t.owner
      ensures Under(t.owner[g], p) <==> g == f || 0 <= Via(t.owner[g], p) < Fan(p)
    {
      ViaUnder(t.owner[g], p);
    }
  }

  // ---------------------------------------------------------------------------
  // What the loops of freevm use

  lemma FreeStarts(h: Heap, t: Tree)
    requires InHeap(h, t)
    ensures Freeing(h, t, h, {}) && NoneUnder(t, {}, Root)
    ensures PathOk(Root) && Depth(Root) == 0 && FrameAt(h.mem, t.root, Root) == t.root && t.root != 0
  {
  }

  lemma {:induction false} UnderRoot(q: Path)
    ensures Under(q, Root)
  {
    if q.Down? {
      UnderRoot(q.up);
    }
  }

  lemma FreeEnds(h: Heap, t: Tree, g: Heap, gone: set<nat>)
    requires Freeing(h, t, g, gone) && GoneUnder(t, {}, gone, Root)
    ensures Freeing(h, t, g, t.owner.Keys)
  {
    forall f <- t.owner
      ensures f in gone
    {
      UnderRoot(t.owner[f]);
    }
    assert gone == t.owner.Keys;
  }

  lemma NoneGone(t: Tree, gone: set<nat>, p: Path)
    ensures GoneVia(t, gone, gone, p, 0)
  {
  }

  /** A frame of the tree that is not gone can be given to kfree. */
  lemma OwnedFrame(h: Heap, t: Tree, g: Heap, now: set<nat>, q: Path)
    requires InHeap(h, t) && Freeing(h, t, g, now) && PathOk(q) && FrameAt(h.mem, t.root, q) != 0
    ensures var f := FrameAt(h.mem, t.root, q);
            f in t.owner && g.lo <= f < |g.mem| && (f !in now ==> f !in g.free)
  {
  }

  lemma FreedOne(h: Heap, t: Tree, g: Heap, k: Heap, now: set<nat>, f: nat)
    requires Freeing(h, t, g, now) && f in t.owner && f !in now
    requires k.free == g.free + {f} && k.lo == g.lo && |k.mem| == |g.mem|
    requires forall j :: 0 <= j < |g.mem| && j != f ==> k.mem[j] == g.mem[j]
    ensures Freeing(h, t, k, now + {f})
  {
  }

  /** A table is intact until its own turn, so its entries lead where they did. */
  lemma EntryKept(h: Heap, t: Tree, g: Heap, gone: set<nat>, now: set<nat>, p: Path, x: nat)
    requires InHeap(h, t) && Freeing(h, t, g, now) && NoneUnder(t, gone, p) && GoneVia(t, gone, now, p, x)
    requires PathOk(p) && Depth(p) <= 3 && x < Fan(p) && FrameAt(h.mem, t.root, p) != 0
    ensures var f := FrameAt(h.mem, t.root, p);
            && f < |g.mem| && |g.mem[f]| == ENTRIES && PathOk(Down(p, x)) && Depth(Down(p, x)) == Depth(p) + 1
            && FrameAt(h.mem, t.root, Down(p, x)) == (if Present(g.mem[f][x]) then FrameOf(g.mem[f][x]) else 0)
            && (Present(g.mem[f][x]) ==> FrameOf(g.mem[f][x]) != 0)
            && FrameAt(h.mem, t.root, Down(p, x)) !in now
  {
    var f := FrameAt(h.mem, t.root, p);
    assert t.owner[f] == p && Under(p, p);
    ViaSelf(p);
    assert f !in now;
    var c := FrameAt(h.mem, t.root, Down(p, x));
    assert Depth(Down(p, x)) == Depth(p) + 1;
    UnderVia(Down(p, x), p, x);
    ViaUnder(Down(p, x), p);
    assert c != 0 ==> c in t.owner && t.owner[c] == Down(p, x);
    assert c == 0 ==> c !in t.owner;
  }
}
