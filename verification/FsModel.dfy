/**
  The block layer of fs.c on values: the bitmap, the data blocks and the inodes with their
  direct and indirect block addresses. Every place an inode keeps a block address is a
  slot: 0 to 11 the direct blocks, 12 the indirect table, 13 to 140 the table's entries.
 */
module FsModel {

  const BSIZE := 512
  const NDIRECT := 12
  const NINDIRECT := 128
  const MAXFILE := NDIRECT + NINDIRECT
  const NSLOTS := 141

  type Byte = x: int | 0 <= x < 256

  datatype Inode = Inode(dev: bool, size: nat, addrs: seq<nat>)

  /** Blocks below `nmeta` hold boot block, superblock, log, inodes and bitmap. */
  datatype Fs = Fs(nmeta: nat, bitmap: seq<bool>, blocks: seq<seq<Byte>>, inodes: seq<Inode>)

  ghost predicate Wf(fs: Fs) {
    && 0 < fs.nmeta <= |fs.bitmap| == |fs.blocks| < 0x1_0000_0000
    && (forall b :: 0 <= b < |fs.blocks| ==> |fs.blocks[b]| == BSIZE)
    && (forall i :: 0 <= i < |fs.inodes| ==> |fs.inodes[i].addrs| == NDIRECT + 1)
    && (forall i, k :: 0 <= i < |fs.inodes| && 0 <= k <= NDIRECT ==> fs.inodes[i].addrs[k] < |fs.blocks|)
  }

  // ---------------------------------------------------------------------------
  // The indirect table: 128 little-endian words

  function Word(b0: int, b1: int, b2: int, b3: int): int {
    b0 + 0x100 * b1 + 0x1_0000 * b2 + 0x100_0000 * b3
  }

  function Entry(blk: seq<Byte>, j: nat): nat
    requires |blk| == BSIZE && j < NINDIRECT
  {
    Word(blk[4 * j], blk[4 * j + 1], blk[4 * j + 2], blk[4 * j + 3])
  }

  function SetEntry(blk: seq<Byte>, j: nat, v: nat): (r: seq<Byte>)
    requires |blk| == BSIZE && j < NINDIRECT && v < 0x1_0000_0000
    ensures |r| == BSIZE
    ensures forall o :: 0 <= o < BSIZE && !(4 * j <= o < 4 * j + 4) ==> r[o] == blk[o]
  {
    blk[4 * j := v % 0x100][4 * j + 1 := v / 0x100 % 0x100]
       [4 * j + 2 := v / 0x1_0000 % 0x100][4 * j + 3 := v / 0x100_0000]
  }

  function ZeroBlock(): (z: seq<Byte>)
    ensures |z| == BSIZE && forall o :: 0 <= o < BSIZE ==> z[o] == 0
  {
    seq(BSIZE, _ => 0)
  }

  lemma WordOfBytes(v: nat)
    requires v < 0x1_0000_0000
    ensures Word(v % 0x100, v / 0x100 % 0x100, v / 0x1_0000 % 0x100, v / 0x100_0000) == v
  {
    var w := v / 0x100;
    var x := w / 0x100;
    assert x == v / 0x1_0000 && x / 0x100 == v / 0x100_0000;
  }

  /** An entry is the little-endian word of its four bytes: the lowest byte of the number first. */
  lemma EntryBytes(blk: seq<Byte>, j: nat, v: nat)
    requires |blk| == BSIZE && j < NINDIRECT && v < 0x1_0000_0000
    ensures Entry(blk, j) == v <==>
            && blk[4 * j] == v % 0x100 && blk[4 * j + 1] == v / 0x100 % 0x100
            && blk[4 * j + 2] == v / 0x1_0000 % 0x100 && blk[4 * j + 3] == v / 0x100_0000
  {
    var a, b, c, d := blk[4 * j], blk[4 * j + 1], blk[4 * j + 2], blk[4 * j + 3];
    WordOfBytes(v);
    ByteOfWord(a, b, c, d);
  }

  lemma ByteOfWord(a: Byte, b: Byte, c: Byte, d: Byte)
    ensures var v := Word(a, b, c, d);
            v % 0x100 == a && v / 0x100 % 0x100 == b && v / 0x1_0000 % 0x100 == c && v / 0x100_0000 == d
  {
    var v := Word(a, b, c, d);
    var w := b + 0x100 * (c + 0x100 * d);
    assert v == a + 0x100 * w && v / 0x100 == w;
    assert w / 0x100 == c + 0x100 * d && v / 0x1_0000 == w / 0x100;
    assert v / 0x100_0000 == w / 0x100 / 0x100;
  }

  /** A word written to the table reads back, and no other word changes. */
  lemma EntryRoundTrip(blk: seq<Byte>, j: nat, v: nat)
    requires |blk| == BSIZE && j < NINDIRECT && v < 0x1_0000_0000
    ensures Entry(SetEntry(blk, j, v), j) == v
    ensures forall l :: 0 <= l < NINDIRECT && l != j ==> Entry(SetEntry(blk, j, v), l) == Entry(blk, l)
  {
    WordOfBytes(v);
  }

  // ---------------------------------------------------------------------------
  // Slots

  datatype Slot = Slot(i: nat, k: nat)

  /** The block address in slot `k` of inode `i`, or 0. */
  function Addr(fs: Fs, i: nat, k: nat): nat
    requires Wf(fs) && i < |fs.inodes| && k < NSLOTS
  {
    var a := fs.inodes[i].addrs;
    if k <= NDIRECT then a[k]
    else if a[NDIRECT] == 0 then 0
    else Entry(fs.blocks[a[NDIRECT]], k - NDIRECT - 1)
  }

  /** The slot of the `bn`-th block of a file. */
  function FileSlot(bn: nat): nat {
    if bn < NDIRECT then bn else bn + 1
  }

  /**
    `owner` says which slot holds each allocated data block. Both directions together say
    that the set bits are the metadata plus the owned blocks, and no block has two owners.
   */
  ghost predicate OwnOk(fs: Fs, owner: map<nat, Slot>)
    requires Wf(fs)
  {
    && (forall b <- owner ::
          && fs.nmeta <= b < |fs.bitmap|
          && owner[b].i < |fs.inodes| && owner[b].k < NSLOTS
          && Addr(fs, owner[b].i, owner[b].k) == b)
    && (forall i, k :: 0 <= i < |fs.inodes| && 0 <= k < NSLOTS && Addr(fs, i, k) != 0 ==>
          Addr(fs, i, k) in owner && owner[Addr(fs, i, k)] == Slot(i, k))
    && (forall b :: 0 <= b < |fs.bitmap| ==> (fs.bitmap[b] <==> b < fs.nmeta || b in owner))
  }

  predicate InSlot(fs: Fs, i: nat, k: nat, b: nat)
    requires Wf(fs)
  {
    i < |fs.inodes| && k < NSLOTS && Addr(fs, i, k) == b
  }

  /** No block is in two slots, and the data blocks marked in the bitmap are exactly those in slots. */
  lemma BlocksExact(fs: Fs, owner: map<nat, Slot>)
    requires Wf(fs) && OwnOk(fs, owner)
    ensures forall i, k, j, l, b: nat :: 0 < b && InSlot(fs, i, k, b) && InSlot(fs, j, l, b) ==> i == j && k == l
    ensures forall b :: fs.nmeta <= b < |fs.bitmap| ==> (fs.bitmap[b] <==> exists i, k :: InSlot(fs, i, k, b))
    ensures forall i, k, b: nat :: InSlot(fs, i, k, b) && b != 0 ==> fs.nmeta <= b < |fs.bitmap|
  {
    forall b | fs.nmeta <= b < |fs.bitmap| && fs.bitmap[b]
      ensures exists i, k :: InSlot(fs, i, k, b)
    {
      assert InSlot(fs, owner[b].i, owner[b].k, b);
    }
  }

  // ---------------------------------------------------------------------------
  // Changes

  function SetAddr(fs: Fs, i: nat, k: nat, b: nat): Fs
    requires Wf(fs) && i < |fs.inodes| && k <= NDIRECT
  {
    fs.(inodes := fs.inodes[i := fs.inodes[i].(addrs := fs.inodes[i].addrs[k := b])])
  }

  /** balloc: mark the block used and zero it. */
  function Taken(fs: Fs, b: nat): Fs
    requires Wf(fs) && b < |fs.bitmap|
  {
    fs.(bitmap := fs.bitmap[b := true], blocks := fs.blocks[b := ZeroBlock()])
  }

  /** A fresh block goes into one of the slots kept in the inode itself. */
  function GiveDirect(fs: Fs, i: nat, k: nat, b: nat): Fs
    requires Wf(fs) && i < |fs.inodes| && k <= NDIRECT && b < |fs.bitmap|
  {
    SetAddr(Taken(fs, b), i, k, b)
  }

  /** A fresh block goes into an entry of the inode's indirect table. */
  function GiveIndirect(fs: Fs, i: nat, k: nat, b: nat): Fs
    requires Wf(fs) && i < |fs.inodes| && NDIRECT < k < NSLOTS && b < |fs.bitmap|
  {
    var t := fs.inodes[i].addrs[NDIRECT];
    var g := Taken(fs, b);
    g.(blocks := g.blocks[t := SetEntry(g.blocks[t], k - NDIRECT - 1, b)])
  }

  lemma WfGive(fs: Fs, i: nat, k: nat, b: nat)
    requires Wf(fs) && i < |fs.inodes| && b < |fs.bitmap|
    ensures k <= NDIRECT ==> Wf(GiveDirect(fs, i, k, b))
    ensures NDIRECT < k < NSLOTS ==> Wf(GiveIndirect(fs, i, k, b))
  {
  }

  /** Placing a fresh block in an empty direct slot changes that slot and no other. */
  lemma GiveDirectSlots(fs: Fs, owner: map<nat, Slot>, i: nat, k: nat, b: nat)
    requires Wf(fs) && OwnOk(fs, owner) && i < |fs.inodes| && k <= NDIRECT
    requires b < |fs.bitmap| && !fs.bitmap[b] && fs.inodes[i].addrs[k] == 0
    ensures Wf(GiveDirect(fs, i, k, b))
    ensures forall j, l :: 0 <= j < |fs.inodes| && 0 <= l < NSLOTS ==>
              Addr(GiveDirect(fs, i, k, b), j, l) == if j == i && l == k then b else Addr(fs, j, l)
  {
    WfGive(fs, i, k, b);
    var g := GiveDirect(fs, i, k, b);
    forall j, l | 0 <= j < |fs.inodes| && 0 <= l < NSLOTS
      ensures Addr(g, j, l) == if j == i && l == k then b else Addr(fs, j, l)
    {
      if l > NDIRECT {
        var t := Addr(fs, j, NDIRECT);
        assert t != 0 ==> t in owner && t != b;
      }
    }
  }

  /** The same for an empty entry of the indirect table. */
  lemma GiveIndirectSlots(fs: Fs, owner: map<nat, Slot>, i: nat, k: nat, b: nat)
    requires Wf(fs) && OwnOk(fs, owner) && i < |fs.inodes| && NDIRECT < k < NSLOTS
    requires b < |fs.bitmap| && !fs.bitmap[b] && fs.inodes[i].addrs[NDIRECT] != 0 && Addr(fs, i, k) == 0
    ensures Wf(GiveIndirect(fs, i, k, b))
    ensures forall j, l :: 0 <= j < |fs.inodes| && 0 <= l < NSLOTS ==>
              Addr(GiveIndirect(fs, i, k, b), j, l) == if j == i && l == k then b else Addr(fs, j, l)
  {
    WfGive(fs, i, k, b);
    var g := GiveIndirect(fs, i, k, b);
    var t := fs.inodes[i].addrs[NDIRECT];
    assert t == Addr(fs, i, NDIRECT) && t in owner && t != b;
    EntryRoundTrip(fs.blocks[t], k - NDIRECT - 1, b);
    forall j, l | 0 <= j < |fs.inodes| && 0 <= l < NSLOTS
      ensures Addr(g, j, l) == if j == i && l == k then b else Addr(fs, j, l)
    {
      if l > NDIRECT {
        var u := Addr(fs, j, NDIRECT);
        assert u != 0 ==> u in owner && u != b && (u == t ==> j == i);
      }
    }
  }

  /** A fresh block in exactly one slot keeps bitmap and ownership exact. */
  lemma OwnAfterGive(fs: Fs, owner: map<nat, Slot>, g: Fs, i: nat, k: nat, b: nat)
    requires Wf(fs) && OwnOk(fs, owner) && Wf(g) && i < |fs.inodes| && k < NSLOTS
    requires b < |fs.bitmap| && !fs.bitmap[b] && Addr(fs, i, k) == 0
    requires g.bitmap == fs.bitmap[b := true] && g.nmeta == fs.nmeta && |g.inodes| == |fs.inodes|
    requires forall j, l :: 0 <= j < |fs.inodes| && 0 <= l < NSLOTS ==>
               Addr(g, j, l) == if j == i && l == k then b else Addr(fs, j, l)
    ensures OwnOk(g, owner[b := Slot(i, k)])
  {
    assert b !in owner && b != 0;
  }

  /** Overwriting a data block moves no slot. */
  lemma WriteDataSlots(fs: Fs, owner: map<nat, Slot>, a: nat, blk: seq<Byte>)
    requires Wf(fs) && OwnOk(fs, owner) && a in owner && owner[a].k != NDIRECT && |blk| == BSIZE
    ensures var g := fs.(blocks := fs.blocks[a := blk]);
            && Wf(g) && OwnOk(g, owner)
            && forall j, l :: 0 <= j < |fs.inodes| && 0 <= l < NSLOTS ==> Addr(g, j, l) == Addr(fs, j, l)
  {
    var g := fs.(blocks := fs.blocks[a := blk]);
    forall j, l | 0 <= j < |fs.inodes| && 0 <= l < NSLOTS
      ensures Addr(g, j, l) == Addr(fs, j, l)
    {
      var t := Addr(fs, j, NDIRECT);
      assert t != 0 ==> t in owner && owner[t].k == NDIRECT;
    }
  }

  // ---------------------------------------------------------------------------
  // Free blocks

  /** How many blocks are free. */
  ghost function Free(bits: seq<bool>): nat {
    if bits == [] then 0 else Free(bits[1..]) + if bits[0] then 0 else 1
  }

  lemma {:induction false} FreeTaken(bits: seq<bool>, b: nat)
    requires b < |bits| && !bits[b]
    ensures Free(bits) == Free(bits[b := true]) + 1
  {
    if b == 0 {
      assert bits[0 := true][1..] == bits[1..];
    } else {
      assert bits[b := true][1..] == bits[1..][b - 1 := true];
      FreeTaken(bits[1..], b - 1);
    }
  }

  lemma {:induction false} NoneFree(bits: seq<bool>)
    requires forall x :: 0 <= x < |bits| ==> bits[x]
    ensures Free(bits) == 0
  {
    if bits != [] {
      NoneFree(bits[1..]);
    }
  }

  // ---------------------------------------------------------------------------
  // Files

  function BlocksFor(size: nat): nat {
    (size + BSIZE - 1) / BSIZE
  }

  /** Inode `i` has exactly its first `n` file blocks, and a table only if it needs one. */
  ghost predicate HasBlocks(fs: Fs, i: nat, n: nat)
    requires Wf(fs) && i < |fs.inodes|
  {
    && n <= MAXFILE
    && (forall bn :: 0 <= bn < MAXFILE ==> (Addr(fs, i, FileSlot(bn)) != 0 <==> bn < n))
    && (fs.inodes[i].addrs[NDIRECT] != 0 <==> n > NDIRECT)
  }

  /** Every inode but `x` has the blocks its size calls for. */
  ghost predicate SizesOk(fs: Fs, x: int)
    requires Wf(fs)
  {
    forall i :: 0 <= i < |fs.inodes| && i != x ==> HasBlocks(fs, i, BlocksFor(fs.inodes[i].size))
  }

  /** What holds between system calls. */
  ghost predicate FsOk(fs: Fs, owner: map<nat, Slot>) {
    Wf(fs) && OwnOk(fs, owner) && SizesOk(fs, -1)
  }

  lemma EmptyOk(fs: Fs)
    requires 0 < fs.nmeta <= |fs.bitmap| == |fs.blocks| < 0x1_0000_0000
    requires forall b :: 0 <= b < |fs.bitmap| ==> fs.bitmap[b] == (b < fs.nmeta) && |fs.blocks[b]| == BSIZE
    requires forall i :: 0 <= i < |fs.inodes| ==>
               fs.inodes[i].size == 0 && |fs.inodes[i].addrs| == NDIRECT + 1
               && forall k :: 0 <= k <= NDIRECT ==> fs.inodes[i].addrs[k] == 0
    ensures FsOk(fs, map[])
  {
    assert forall i, k :: 0 <= i < |fs.inodes| && 0 <= k < NSLOTS ==> Addr(fs, i, k) == 0;
    hide Addr;
  }

  /** What holds while inode `x` is being written and has `n` blocks. */
  ghost predicate Growing(fs: Fs, owner: map<nat, Slot>, x: nat, n: nat) {
    Wf(fs) && OwnOk(fs, owner) && x < |fs.inodes| && SizesOk(fs, x) && HasBlocks(fs, x, n)
  }

  /** Byte `o` of the file of inode `i`; 0 where the file has no block. */
  ghost function FileByte(fs: Fs, i: nat, o: nat): Byte
    requires Wf(fs) && i < |fs.inodes|
  {
    if o / BSIZE >= MAXFILE then 0
    else
      var a := Addr(fs, i, FileSlot(o / BSIZE));
      if a < |fs.blocks| then fs.blocks[a][o % BSIZE] else 0
  }

  /** The bytes of one block of a file are the bytes of the block its slot holds. */
  lemma FileBytes(fs: Fs, i: nat, bn: nat)
    requires Wf(fs) && i < |fs.inodes| && bn < MAXFILE && Addr(fs, i, FileSlot(bn)) < |fs.blocks|
    ensures forall o :: 0 <= o && o / BSIZE == bn ==>
              FileByte(fs, i, o) == fs.blocks[Addr(fs, i, FileSlot(bn))][o % BSIZE]
  {
  }

  /** The file's contents. */
  ghost function Content(fs: Fs, i: nat): (c: seq<Byte>)
    requires Wf(fs) && i < |fs.inodes|
    ensures |c| == fs.inodes[i].size && forall o :: 0 <= o < |c| ==> c[o] == FileByte(fs, i, o)
  {
    seq(fs.inodes[i].size, o requires 0 <= o < fs.inodes[i].size => FileByte(fs, i, o))
  }

  // ---------------------------------------------------------------------------
  // What bmap does

  /** The only slots that looking up file block `bn` may fill. */
  predicate OnTheWay(bn: nat, k: nat) {
    k == FileSlot(bn) || (k == NDIRECT && bn >= NDIRECT)
  }

  /**
    From `fs` to `g`, inode `i` may have gained a block for `bn` and a table on the way to
    it: nothing else moved, sizes stay, and every data block in use keeps its contents.
   */
  ghost predicate Mapped(fs: Fs, owner: map<nat, Slot>, g: Fs, i: nat, bn: nat)
    requires Wf(fs) && Wf(g)
  {
    && i < |fs.inodes| == |g.inodes| && g.nmeta == fs.nmeta && |g.blocks| == |fs.blocks|
    && (forall j :: 0 <= j < |fs.inodes| ==>
          g.inodes[j].size == fs.inodes[j].size && g.inodes[j].dev == fs.inodes[j].dev)
    && (forall j :: 0 <= j < |fs.inodes| && j != i ==> g.inodes[j] == fs.inodes[j])
    && (forall j, k :: 0 <= j < |fs.inodes| && 0 <= k < NSLOTS ==>
          Addr(g, j, k) == Addr(fs, j, k) || (j == i && OnTheWay(bn, k) && Addr(fs, j, k) == 0))
    && (forall a <- owner :: owner[a].k != NDIRECT && a < |fs.blocks| ==> g.blocks[a] == fs.blocks[a])
  }

  lemma MappedKeepsBytes(fs: Fs, owner: map<nat, Slot>, g: Fs, i: nat, bn: nat, j: nat, o: nat)
    requires Wf(fs) && OwnOk(fs, owner) && Wf(g) && Mapped(fs, owner, g, i, bn)
    requires j < |fs.inodes| && o / BSIZE < MAXFILE && Addr(fs, j, FileSlot(o / BSIZE)) != 0
    ensures FileByte(g, j, o) == FileByte(fs, j, o)
  {
    var a := Addr(fs, j, FileSlot(o / BSIZE));
    assert a in owner && owner[a].k == FileSlot(o / BSIZE);
  }

  /** What bmap leaves when it succeeds: `g` with owners `o`, from `fs` with owners `owner`. */
  ghost predicate BmapDone(fs: Fs, owner: map<nat, Slot>, g: Fs, o: map<nat, Slot>, i: nat, bn: nat) {
    && Wf(fs) && Wf(g) && OwnOk(g, o) && bn < MAXFILE && Mapped(fs, owner, g, i, bn)
    && (bn >= NDIRECT ==> g.inodes[i].addrs[NDIRECT] != 0)
    && var a := Addr(g, i, FileSlot(bn));
    && 0 < a < |g.blocks|
    && if Addr(fs, i, FileSlot(bn)) != 0 then g == fs && o == owner
       else a < |fs.bitmap| && !fs.bitmap[a] && g.blocks[a] == ZeroBlock()
  }

  /** How many blocks looking up `bn` takes: none if it is there, or itself and the table if that is missing. */
  ghost function Cost(fs: Fs, i: nat, bn: nat): nat
    requires Wf(fs) && i < |fs.inodes| && bn < MAXFILE
  {
    if Addr(fs, i, FileSlot(bn)) != 0 then 0
    else if bn >= NDIRECT && fs.inodes[i].addrs[NDIRECT] == 0 then 2
    else 1
  }

  /** Looking up `bn` succeeds exactly if that many blocks are free, and takes that many. */
  ghost predicate Paid(fs: Fs, bits: seq<bool>, i: nat, bn: nat, ok: bool)
    requires Wf(fs) && i < |fs.inodes| && bn < MAXFILE
  {
    && (ok <==> Free(fs.bitmap) >= Cost(fs, i, bn))
    && (ok ==> Free(bits) + Cost(fs, i, bn) == Free(fs.bitmap))
  }

  lemma BmapFound(fs: Fs, owner: map<nat, Slot>, i: nat, bn: nat)
    requires Wf(fs) && OwnOk(fs, owner) && i < |fs.inodes| && bn < MAXFILE && Addr(fs, i, FileSlot(bn)) != 0
    ensures BmapDone(fs, owner, fs, owner, i, bn)
  {
  }

  /** A fresh block in a slot on the way to `bn` is a step of bmap. */
  lemma DirectMapped(fs: Fs, owner: map<nat, Slot>, i: nat, bn: nat, k: nat, b: nat)
    requires Wf(fs) && OwnOk(fs, owner) && i < |fs.inodes| && k <= NDIRECT && OnTheWay(bn, k) && bn < MAXFILE
    requires b < |fs.bitmap| && !fs.bitmap[b] && fs.inodes[i].addrs[k] == 0
    ensures var g := GiveDirect(fs, i, k, b);
            Wf(g) && OwnOk(g, owner[b := Slot(i, k)]) && Mapped(fs, owner, g, i, bn) && Addr(g, i, k) == b > 0
            && |g.inodes| == |fs.inodes| && |g.bitmap| == |fs.bitmap| && b !in owner
            && (forall x :: 0 <= x < |fs.bitmap| && !g.bitmap[x] ==> !fs.bitmap[x])
            && (k != FileSlot(bn) ==> Addr(g, i, FileSlot(bn)) == Addr(fs, i, FileSlot(bn)))
  {
    hide Entry, ZeroBlock;
    assert Addr(fs, i, k) == 0;
    hide Addr;
    GiveDirectSlots(fs, owner, i, k, b);
    OwnAfterGive(fs, owner, GiveDirect(fs, i, k, b), i, k, b);
  }

  lemma BmapDirect(fs: Fs, owner: map<nat, Slot>, i: nat, bn: nat, b: nat)
    requires Wf(fs) && OwnOk(fs, owner) && i < |fs.inodes| && bn < NDIRECT && Addr(fs, i, bn) == 0
    requires b < |fs.bitmap| && !fs.bitmap[b]
    ensures BmapDone(fs, owner, GiveDirect(fs, i, bn, b), owner[b := Slot(i, bn)], i, bn)
    ensures Addr(GiveDirect(fs, i, bn, b), i, bn) == b
  {
    DirectMapped(fs, owner, i, bn, bn, b);
    hide OwnOk, Mapped;
  }

  lemma BmapEntry(fs: Fs, owner: map<nat, Slot>, i: nat, bn: nat, b: nat)
    requires Wf(fs) && OwnOk(fs, owner) && i < |fs.inodes| && NDIRECT <= bn < MAXFILE
    requires fs.inodes[i].addrs[NDIRECT] != 0 && Addr(fs, i, FileSlot(bn)) == 0
    requires b < |fs.bitmap| && !fs.bitmap[b]
    ensures BmapDone(fs, owner, GiveIndirect(fs, i, FileSlot(bn), b), owner[b := Slot(i, FileSlot(bn))], i, bn)
    ensures Addr(GiveIndirect(fs, i, FileSlot(bn), b), i, FileSlot(bn)) == b
  {
    var t := fs.inodes[i].addrs[NDIRECT];
    assert t == Addr(fs, i, NDIRECT);
    GiveIndirectSlots(fs, owner, i, FileSlot(bn), b);
    OwnAfterGive(fs, owner, GiveIndirect(fs, i, FileSlot(bn), b), i, FileSlot(bn), b);
    hide Addr, Entry;
  }

  lemma MappedTwice(fs: Fs, owner: map<nat, Slot>, g: Fs, o: map<nat, Slot>, h: Fs, i: nat, bn: nat)
    requires Wf(fs) && Wf(g) && Wf(h) && Mapped(fs, owner, g, i, bn) && Mapped(g, o, h, i, bn)
    requires forall a <- owner :: a in o && o[a] == owner[a]
    ensures Mapped(fs, owner, h, i, bn)
  {
    hide Addr;
  }

  /** A step on the way to a block, then bmap: together what bmap does. */
  lemma BmapTwice(fs: Fs, owner: map<nat, Slot>, g: Fs, o: map<nat, Slot>, h: Fs, q: map<nat, Slot>, i: nat, bn: nat)
    requires Wf(fs) && Wf(g) && Mapped(fs, owner, g, i, bn) && BmapDone(g, o, h, q, i, bn)
    requires Addr(fs, i, FileSlot(bn)) == 0 && Addr(g, i, FileSlot(bn)) == 0
    requires |g.bitmap| == |fs.bitmap| && forall x :: 0 <= x < |fs.bitmap| && !g.bitmap[x] ==> !fs.bitmap[x]
    requires forall a <- owner :: a in o && o[a] == owner[a]
    ensures BmapDone(fs, owner, h, q, i, bn)
  {
    hide Addr, OwnOk, ZeroBlock;
    MappedTwice(fs, owner, g, o, h, i, bn);
  }

  /** Looking up the next block of a file gives it one block more. */
  lemma MappedGrows(fs: Fs, owner: map<nat, Slot>, g: Fs, i: nat, bn: nat, n: nat)
    requires Growing(fs, owner, i, n) && Wf(g) && Mapped(fs, owner, g, i, bn)
    requires bn <= n && bn < MAXFILE && Addr(g, i, FileSlot(bn)) != 0
    requires bn >= NDIRECT ==> g.inodes[i].addrs[NDIRECT] != 0
    ensures HasBlocks(g, i, if bn < n then n else bn + 1) && SizesOk(g, i)
  {
    var n' := if bn < n then n else bn + 1;
    forall m | 0 <= m < MAXFILE
      ensures Addr(g, i, FileSlot(m)) != 0 <==> m < n'
    {
      assert OnTheWay(bn, FileSlot(m)) ==> m == bn;
    }
    assert Addr(g, i, NDIRECT) == g.inodes[i].addrs[NDIRECT] && Addr(fs, i, NDIRECT) == fs.inodes[i].addrs[NDIRECT];
    forall j | 0 <= j < |g.inodes| && j != i
      ensures HasBlocks(g, j, BlocksFor(g.inodes[j].size))
    {
      assert HasBlocks(fs, j, BlocksFor(fs.inodes[j].size));
    }
  }

  /** A chunk written into one block of a file changes those bytes of that file only. */
  lemma ChunkWritten(fs: Fs, owner: map<nat, Slot>, i: nat, bn: nat, p: nat, chunk: seq<Byte>)
    requires Wf(fs) && OwnOk(fs, owner) && i < |fs.inodes| && bn < MAXFILE
    requires Addr(fs, i, FileSlot(bn)) != 0 && p + |chunk| <= BSIZE
    ensures var a := Addr(fs, i, FileSlot(bn));
            && a in owner && a < |fs.blocks|
            && var g := fs.(blocks := fs.blocks[a := Spliced(fs.blocks[a], p, chunk)]);
            && Wf(g) && OwnOk(g, owner)
            && (forall j, l :: 0 <= j < |fs.inodes| && 0 <= l < NSLOTS ==> Addr(g, j, l) == Addr(fs, j, l))
            && forall j, o :: 0 <= j < |fs.inodes| && 0 <= o ==>
                 FileByte(g, j, o) == if j == i && o / BSIZE == bn && p <= o % BSIZE < p + |chunk|
                                      then chunk[o % BSIZE - p] else FileByte(fs, j, o)
  {
    var a := Addr(fs, i, FileSlot(bn));
    var blk := Spliced(fs.blocks[a], p, chunk);
    WriteDataSlots(fs, owner, a, blk);
    var g := fs.(blocks := fs.blocks[a := blk]);
    forall j, o | 0 <= j < |fs.inodes| && 0 <= o
      ensures FileByte(g, j, o) == if j == i && o / BSIZE == bn && p <= o % BSIZE < p + |chunk|
                                   then chunk[o % BSIZE - p] else FileByte(fs, j, o)
    {
      if o / BSIZE < MAXFILE {
        var c := Addr(fs, j, FileSlot(o / BSIZE));
        if c == a {
          assert owner[a] == Slot(j, FileSlot(o / BSIZE)) == Slot(i, FileSlot(bn));
        }
      }
    }
  }

  function Spliced(blk: seq<Byte>, p: nat, chunk: seq<Byte>): (r: seq<Byte>)
    requires |blk| == BSIZE && p + |chunk| <= BSIZE
    ensures |r| == BSIZE
    ensures forall o :: 0 <= o < BSIZE ==> r[o] == if p <= o < p + |chunk| then chunk[o - p] else blk[o]
  {
    blk[..p] + chunk + blk[p + |chunk|..]
  }
}
