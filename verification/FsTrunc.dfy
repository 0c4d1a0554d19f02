/** Giving back the blocks of a file, on the values of FsModel. */
module FsTrunc {
  import opened FsModel

  /** `bits` is the bitmap of `fs` with the blocks in the slots `gone` of inode `i` given back. */
  ghost predicate Freed(bits: seq<bool>, fs: Fs, owner: map<nat, Slot>, i: nat, gone: set<nat>) {
    && |bits| == |fs.bitmap|
    && forall b :: 0 <= b < |bits| ==>
         (bits[b] <==> fs.bitmap[b] && !(b in owner && owner[b].i == i && owner[b].k in gone))
  }

  /** Every block is given back once: the bit of a slot's block is still set when its turn comes. */
  lemma FreeSlot(bits: seq<bool>, fs: Fs, owner: map<nat, Slot>, i: nat, gone: set<nat>, k: nat)
    requires Wf(fs) && OwnOk(fs, owner) && i < |fs.inodes| && k < NSLOTS
    requires Freed(bits, fs, owner, i, gone) && k !in gone
    ensures var a := Addr(fs, i, k);
            && (a != 0 ==> a < |bits| && bits[a])
            && Freed(if a != 0 then bits[a := false] else bits, fs, owner, i, gone + {k})
  {
    var a := Addr(fs, i, k);
    assert a != 0 ==> a in owner && owner[a] == Slot(i, k);
    assert forall b <- owner :: owner[b] == Slot(i, k) ==> b == a && b != 0;
  }

  /** A file without a table has no blocks beyond the direct ones. */
  lemma NoTable(bits: seq<bool>, fs: Fs, owner: map<nat, Slot>, i: nat, gone: set<nat>)
    requires Wf(fs) && OwnOk(fs, owner) && i < |fs.inodes| && fs.inodes[i].addrs[NDIRECT] == 0
    requires Freed(bits, fs, owner, i, gone) && forall k :: 0 <= k < NDIRECT ==> k in gone
    ensures Freed(bits, fs, owner, i, AllSlots())
  {
    forall b <- owner | owner[b].i == i
      ensures owner[b].k in gone
    {
      assert Addr(fs, i, owner[b].k) == b;
    }
  }

  ghost function Slots(n: nat): (r: set<nat>)
    ensures forall k: nat :: k in r <==> k < n
  {
    if n == 0 then {} else Slots(n - 1) + {n - 1}
  }

  ghost function AllSlots(): (r: set<nat>)
    ensures forall k: nat :: k in r <==> k < NSLOTS
  {
    Slots(NSLOTS)
  }

  /** The inode with its first `d` addresses cleared. */
  ghost function Cleared(ino: Inode, d: nat): Inode
    requires |ino.addrs| == NDIRECT + 1
  {
    ino.(addrs := seq(NDIRECT + 1, k requires 0 <= k <= NDIRECT => if k < d then 0 else ino.addrs[k]))
  }

  lemma FreedNone(fs: Fs, owner: map<nat, Slot>, i: nat)
    ensures Freed(fs.bitmap, fs, owner, i, Slots(0))
  {
  }

  lemma ClearedAll(ino: Inode)
    requires |ino.addrs| == NDIRECT + 1
    ensures ino.addrs[NDIRECT] == 0 ==> Cleared(ino, NDIRECT) == Cleared(ino, NDIRECT + 1)
    ensures var d := Cleared(ino, NDIRECT);
            && |d.addrs| == NDIRECT + 1 && d.addrs[NDIRECT] == ino.addrs[NDIRECT]
            && d.(addrs := d.addrs[NDIRECT := 0]) == Cleared(ino, NDIRECT + 1)
    ensures Cleared(ino, NDIRECT + 1) == ino.(addrs := seq(NDIRECT + 1, _ => 0))
  {
  }

  /** The direct blocks and the first `j` entries of the table. */
  ghost function Entries(j: nat): (r: set<nat>)
    ensures forall k: nat :: k in r <==> k < NDIRECT || NDIRECT < k < NDIRECT + 1 + j
  {
    if j == 0 then Slots(NDIRECT) else Entries(j - 1) + {NDIRECT + j}
  }

  ghost function AllEntries(): (r: set<nat>)
    ensures forall k: nat :: k in r <==> k < NSLOTS && k != NDIRECT
  {
    Entries(NINDIRECT)
  }

  lemma AllEntriesAt(n: nat)
    requires n == NINDIRECT
    ensures AllEntries() == Entries(n)
  {
  }

  lemma EntryFreed(bits: seq<bool>, fs: Fs, owner: map<nat, Slot>, i: nat, j: nat)
    requires Wf(fs) && OwnOk(fs, owner) && i < |fs.inodes| && fs.inodes[i].addrs[NDIRECT] != 0 && j < NINDIRECT
    requires Freed(bits, fs, owner, i, Entries(j))
    ensures var a := Entry(fs.blocks[fs.inodes[i].addrs[NDIRECT]], j);
            && (a != 0 ==> a < |bits| && bits[a])
            && Freed(if a != 0 then bits[a := false] else bits, fs, owner, i, Entries(j + 1))
  {
    hide OwnOk, Freed, Entry;
    FreeSlot(bits, fs, owner, i, Entries(j), NDIRECT + 1 + j);
  }

  /** The table goes last. */
  lemma TableFreed(bits: seq<bool>, fs: Fs, owner: map<nat, Slot>, i: nat)
    requires Wf(fs) && OwnOk(fs, owner) && i < |fs.inodes| && fs.inodes[i].addrs[NDIRECT] != 0
    requires Freed(bits, fs, owner, i, AllEntries())
    ensures var t := fs.inodes[i].addrs[NDIRECT];
            t < |bits| && bits[t] && Freed(bits[t := false], fs, owner, i, AllSlots())
  {
    FreeSlot(bits, fs, owner, i, AllEntries(), NDIRECT);
    assert AllSlots() == AllEntries() + {NDIRECT};
  }

  ghost function Others(owner: map<nat, Slot>, i: nat): map<nat, Slot> {
    map b | b in owner && owner[b].i != i :: owner[b]
  }

  ghost predicate Emptied(fs: Fs, g: Fs, i: nat)
    requires i < |fs.inodes|
  {
    g == fs.(bitmap := g.bitmap, inodes := fs.inodes[i := fs.inodes[i].(addrs := seq(NDIRECT + 1, _ => 0), size := 0)])
  }

  /** Inode `i` is empty, exactly its blocks became free, and no other file changed. */
  ghost predicate Truncation(fs: Fs, owner: map<nat, Slot>, g: Fs, i: nat)
    requires Wf(fs) && Wf(g)
  {
    && i < |fs.inodes| == |g.inodes| && |g.bitmap| == |fs.bitmap|
    && Content(g, i) == []
    && (forall b :: 0 <= b < |g.bitmap| ==> (g.bitmap[b] <==> fs.bitmap[b] && !(b in owner && owner[b].i == i)))
    && (forall j :: 0 <= j < |fs.inodes| && j != i ==> Content(g, j) == Content(fs, j))
  }

  /** With all its slots gone the file is empty, its blocks are free, and no other file changed. */
  lemma Truncated(fs: Fs, owner: map<nat, Slot>, g: Fs, i: nat)
    requires FsOk(fs, owner) && i < |fs.inodes| && Emptied(fs, g, i)
    requires Freed(g.bitmap, fs, owner, i, AllSlots())
    ensures FsOk(g, Others(owner, i)) && Truncation(fs, owner, g, i)
  {
    hide Addr, Slots, OwnOk, HasBlocks;
    TruncatedOwn(fs, owner, g, i);
    TruncatedSizes(fs, g, i);
  }

  lemma TruncatedOwn(fs: Fs, owner: map<nat, Slot>, g: Fs, i: nat)
    requires Wf(fs) && OwnOk(fs, owner) && i < |fs.inodes| && Emptied(fs, g, i)
    requires Freed(g.bitmap, fs, owner, i, AllSlots())
    ensures Wf(g) && OwnOk(g, Others(owner, i))
    ensures forall b :: 0 <= b < |g.bitmap| ==> (g.bitmap[b] <==> fs.bitmap[b] && !(b in owner && owner[b].i == i))
  {
    AllGone(g.bitmap, fs, owner, i);
    EmptiedSlots(fs, g, i);
    hide Addr, Slots, Freed, Emptied, OwnOk, Wf;
    OwnOthers(fs, owner, g, i);
  }

  lemma OwnOthers(fs: Fs, owner: map<nat, Slot>, g: Fs, i: nat)
    requires Wf(fs) && OwnOk(fs, owner) && Wf(g)
    requires |g.inodes| == |fs.inodes| && g.nmeta == fs.nmeta && |g.bitmap| == |fs.bitmap|
    requires forall j, k :: 0 <= j < |fs.inodes| && 0 <= k < NSLOTS ==>
               Addr(g, j, k) == if j == i then 0 else Addr(fs, j, k)
    requires forall b :: 0 <= b < |g.bitmap| ==> (g.bitmap[b] <==> fs.bitmap[b] && !(b in owner && owner[b].i == i))
    ensures OwnOk(g, Others(owner, i))
  {
    hide Addr;
  }

  lemma AllGone(bits: seq<bool>, fs: Fs, owner: map<nat, Slot>, i: nat)
    requires Wf(fs) && OwnOk(fs, owner) && Freed(bits, fs, owner, i, AllSlots())
    ensures |bits| == |fs.bitmap|
    ensures forall b :: 0 <= b < |bits| ==> (bits[b] <==> fs.bitmap[b] && !(b in owner && owner[b].i == i))
  {
    hide Addr;
  }

  lemma TruncatedSizes(fs: Fs, g: Fs, i: nat)
    requires Wf(fs) && SizesOk(fs, -1) && i < |fs.inodes| && Emptied(fs, g, i) && |g.bitmap| == |fs.bitmap|
    ensures Wf(g) && SizesOk(g, -1)
    ensures forall j :: 0 <= j < |fs.inodes| && j != i ==> Content(g, j) == Content(fs, j)
  {
    EmptiedSlots(fs, g, i);
    hide Addr;
    forall j | 0 <= j < |g.inodes|
      ensures HasBlocks(g, j, BlocksFor(g.inodes[j].size))
    {
      assert j != i ==> HasBlocks(fs, j, BlocksFor(fs.inodes[j].size));
      assert j == i ==> Addr(g, i, NDIRECT) == 0;
    }
    forall j | 0 <= j < |fs.inodes| && j != i
      ensures Content(g, j) == Content(fs, j)
    {
    }
  }

  lemma EmptiedSlots(fs: Fs, g: Fs, i: nat)
    requires Wf(fs) && i < |fs.inodes| && Emptied(fs, g, i) && |g.bitmap| == |fs.bitmap|
    ensures Wf(g) && |g.inodes| == |fs.inodes| && g.nmeta == fs.nmeta && |g.blocks| == |fs.blocks|
    ensures forall j, k :: 0 <= j < |fs.inodes| && 0 <= k < NSLOTS ==>
              Addr(g, j, k) == if j == i then 0 else Addr(fs, j, k)
    ensures g.inodes[i].addrs[NDIRECT] == 0
  {
  }
}
