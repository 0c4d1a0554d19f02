/** What the rounds of writei keep, and what they leave, on the values of FsModel. */
module FsWrite {
  import opened FsModel

  /** The contents of a file after `src` is written at `off`. */
  function Overwritten(c: seq<Byte>, off: nat, src: seq<Byte>): (r: seq<Byte>)
    requires off <= |c|
    ensures |r| == if off + |src| > |c| then off + |src| else |c|
    ensures forall o :: 0 <= o < |r| ==> r[o] == if off <= o < off + |src| then src[o - off] else c[o]
  {
    c[..off] + src + (if off + |src| < |c| then c[off + |src|..] else [])
  }

  function Max(a: nat, b: nat): nat {
    if a > b then a else b
  }

  /** Between the rounds of writei on inode `i`: from `fs0`, `src` is written as far as `off`. */
  ghost predicate Writing(fs0: Fs, fs: Fs, owner: map<nat, Slot>, i: nat, off0: nat, off: nat, src: seq<Byte>) {
    && Wf(fs0) && i < |fs0.inodes| == |fs.inodes|
    && off0 <= fs0.inodes[i].size && off0 <= off <= off0 + |src|
    && Growing(fs, owner, i, Max(BlocksFor(fs0.inodes[i].size), BlocksFor(off)))
    && fs.nmeta == fs0.nmeta && |fs.blocks| == |fs0.blocks|
    && fs.inodes[i].size == fs0.inodes[i].size && fs.inodes[i].dev == fs0.inodes[i].dev
    && (forall j :: 0 <= j < |fs0.inodes| && j != i ==> fs.inodes[j] == fs0.inodes[j])
    && (forall j, o :: 0 <= j < |fs0.inodes| && 0 <= o < fs0.inodes[j].size && (j == i ==> !(off0 <= o < off)) ==>
          FileByte(fs, j, o) == FileByte(fs0, j, o))
    && (forall o :: off0 <= o < off ==> FileByte(fs, i, o) == src[o - off0])
    && (off <= fs0.inodes[i].size ==> fs.inodes[i] == fs0.inodes[i])
  }

  lemma WriteStarts(fs: Fs, owner: map<nat, Slot>, i: nat, off: nat, src: seq<Byte>)
    requires FsOk(fs, owner) && i < |fs.inodes| && off <= fs.inodes[i].size
    ensures Writing(fs, fs, owner, i, off, off, src)
  {
    BlocksForMono(off, fs.inodes[i].size);
    assert HasBlocks(fs, i, BlocksFor(fs.inodes[i].size));
  }

  lemma WritingWf(fs0: Fs, fs: Fs, owner: map<nat, Slot>, i: nat, off0: nat, off: nat, src: seq<Byte>)
    requires Writing(fs0, fs, owner, i, off0, off, src)
    ensures Wf(fs) && OwnOk(fs, owner) && i < |fs.inodes|
  {
  }

  lemma BmapDoneWf(fs: Fs, owner: map<nat, Slot>, g: Fs, o: map<nat, Slot>, i: nat, bn: nat)
    requires BmapDone(fs, owner, g, o, i, bn)
    ensures Wf(g) && i < |g.inodes| && bn < MAXFILE && Addr(g, i, FileSlot(bn)) < |g.blocks|
  {
  }

  lemma BlocksForNext(off: nat, m: nat)
    requires 0 < m && off % BSIZE + m <= BSIZE
    ensures off / BSIZE <= BlocksFor(off) <= off / BSIZE + 1 == BlocksFor(off + m)
  {
  }

  /** Bytes of a file that lie in its first `n` blocks are in a block. */
  lemma ByteHasBlock(fs: Fs, j: nat, n: nat, o: nat)
    requires Wf(fs) && j < |fs.inodes| && HasBlocks(fs, j, n) && BlocksFor(o + 1) <= n
    ensures o / BSIZE < n <= MAXFILE && Addr(fs, j, FileSlot(o / BSIZE)) != 0
  {
    assert o / BSIZE < BlocksFor(o + 1);
  }

  lemma BlocksForMono(a: nat, b: nat)
    requires a <= b
    ensures BlocksFor(a) <= BlocksFor(b)
  {
  }

  /** How many blocks a file of `n` blocks takes to have `m`, if that is more: the data blocks, and the table. */
  function Needed(n: nat, m: nat): nat {
    if m <= n then 0 else m - n + if n <= NDIRECT < m then 1 else 0
  }

  lemma NeededCost(fs: Fs, i: nat, n: nat, bn: nat)
    requires Wf(fs) && i < |fs.inodes| && HasBlocks(fs, i, n) && bn <= n && bn < MAXFILE
    ensures Cost(fs, i, bn) == Needed(n, Max(n, bn + 1))
  {
    assert Addr(fs, i, FileSlot(bn)) != 0 <==> bn < n;
  }

  /** From `fs0` on, a write that has come to `off` has taken exactly the blocks it needed so far. */
  ghost predicate Took(fs0: Fs, bits: seq<bool>, i: nat, off: nat)
    requires i < |fs0.inodes|
  {
    var n := BlocksFor(fs0.inodes[i].size);
    Free(bits) + Needed(n, Max(n, BlocksFor(off))) == Free(fs0.bitmap)
  }

  /** One round takes what it needs, or there is too little for the whole write. */
  lemma RoundTakes(fs0: Fs, fs: Fs, owner: map<nat, Slot>, i: nat, off0: nat, off: nat, src: seq<Byte>,
                   bits: seq<bool>, m: nat, ok: bool)
    requires Writing(fs0, fs, owner, i, off0, off, src) && Took(fs0, fs.bitmap, i, off)
    requires 0 < m && off % BSIZE + m <= BSIZE && off + m <= off0 + |src| <= MAXFILE * BSIZE
    requires off / BSIZE < MAXFILE && Paid(fs, bits, i, off / BSIZE, ok)
    ensures ok ==> Took(fs0, bits, i, off + m)
    ensures !ok ==> !Affordable(fs0, i, off0 + |src|)
  {
    var n := BlocksFor(fs0.inodes[i].size);
    BlocksForNext(off, m);
    BlocksForMono(off + m, off0 + |src|);
    NeededCost(fs, i, Max(n, BlocksFor(off)), off / BSIZE);
    hide Free, Cost, Writing;
  }

  /** There are enough free blocks for the file to reach `end`. */
  ghost predicate Affordable(fs: Fs, i: nat, end: nat)
    requires i < |fs.inodes|
  {
    Free(fs.bitmap) >= Needed(BlocksFor(fs.inodes[i].size), BlocksFor(end))
  }

  lemma TookNothing(fs: Fs, i: nat, off: nat)
    requires i < |fs.inodes| && off <= fs.inodes[i].size
    ensures Took(fs, fs.bitmap, i, off)
  {
    BlocksForMono(off, fs.inodes[i].size);
  }

  lemma TookAll(fs: Fs, bits: seq<bool>, i: nat, end: nat)
    requires i < |fs.inodes| && Took(fs, bits, i, end)
    ensures Affordable(fs, i, end)
  {
  }

  /** Looking up the block of `off` keeps what is written so far. */
  lemma WritingMapped(fs0: Fs, fs: Fs, owner: map<nat, Slot>, i: nat, off0: nat, off: nat, src: seq<Byte>,
                      g: Fs, o: map<nat, Slot>, n: nat)
    requires Writing(fs0, fs, owner, i, off0, off, src) && BmapDone(fs, owner, g, o, i, off / BSIZE)
    requires n == Max(BlocksFor(fs0.inodes[i].size), BlocksFor(off))
    ensures Growing(g, o, i, if off / BSIZE < n then n else off / BSIZE + 1)
    ensures forall j, x :: 0 <= j < |fs0.inodes| && 0 <= x < fs0.inodes[j].size && (j == i ==> !(off0 <= x < off)) ==>
              FileByte(g, j, x) == FileByte(fs0, j, x)
    ensures forall x :: off0 <= x < off ==> FileByte(g, i, x) == src[x - off0]
  {
    hide Addr, FileByte;
    MappedGrows(fs, owner, g, i, off / BSIZE, n);
    forall j, x | 0 <= j < |fs0.inodes| && 0 <= x < fs0.inodes[j].size
      ensures FileByte(g, j, x) == FileByte(fs, j, x)
    {
      BlocksForMono(x + 1, fs0.inodes[j].size);
      ByteHasBlock(fs, j, if j == i then n else BlocksFor(fs.inodes[j].size), x);
      MappedKeepsBytes(fs, owner, g, i, off / BSIZE, j, x);
    }
    forall x | off0 <= x < off
      ensures FileByte(g, i, x) == FileByte(fs, i, x)
    {
      BlocksForMono(x + 1, off);
      ByteHasBlock(fs, i, n, x);
      MappedKeepsBytes(fs, owner, g, i, off / BSIZE, i, x);
    }
  }

  /** Blocks that differ only in data leave every file with the same blocks. */
  lemma SameSlotsGrow(g: Fs, h: Fs, o: map<nat, Slot>, i: nat, n: nat)
    requires Growing(g, o, i, n) && Wf(h) && OwnOk(h, o) && h.inodes == g.inodes
    requires forall j, l :: 0 <= j < |g.inodes| && 0 <= l < NSLOTS ==> Addr(h, j, l) == Addr(g, j, l)
    ensures Growing(h, o, i, n)
  {
    hide Addr, OwnOk;
    forall j | 0 <= j < |g.inodes| && j != i
      ensures HasBlocks(h, j, BlocksFor(h.inodes[j].size))
    {
      assert HasBlocks(g, j, BlocksFor(g.inodes[j].size));
    }
  }

  /** The chunk of `m` bytes that one round writes, in the block bmap found. */
  ghost function ChunkAt(g: Fs, i: nat, off: nat, chunk: seq<Byte>): Fs
    requires Wf(g) && i < |g.inodes| && off / BSIZE < MAXFILE && off % BSIZE + |chunk| <= BSIZE
    requires Addr(g, i, FileSlot(off / BSIZE)) < |g.blocks|
  {
    var a := Addr(g, i, FileSlot(off / BSIZE));
    g.(blocks := g.blocks[a := Spliced(g.blocks[a], off % BSIZE, chunk)])
  }

  lemma ChunkAtIs(g: Fs, i: nat, off: nat, chunk: seq<Byte>, a: nat)
    requires Wf(g) && i < |g.inodes| && off / BSIZE < MAXFILE && off % BSIZE + |chunk| <= BSIZE
    requires a == Addr(g, i, FileSlot(off / BSIZE)) < |g.blocks|
    ensures ChunkAt(g, i, off, chunk) == g.(blocks := g.blocks[a := Spliced(g.blocks[a], off % BSIZE, chunk)])
  {
  }

  lemma SameBlock(off: nat, m: nat)
    requires off % BSIZE + m <= BSIZE
    ensures forall x: nat :: off <= x < off + m <==>
              x / BSIZE == off / BSIZE && off % BSIZE <= x % BSIZE < off % BSIZE + m
    ensures forall x: nat :: off <= x < off + m ==> x % BSIZE - off % BSIZE == x - off
  {
  }

  lemma ChunkBytes(g: Fs, o: map<nat, Slot>, i: nat, off: nat, chunk: seq<Byte>)
    requires Wf(g) && OwnOk(g, o) && i < |g.inodes| && off / BSIZE < MAXFILE && off % BSIZE + |chunk| <= BSIZE
    requires Addr(g, i, FileSlot(off / BSIZE)) != 0
    ensures Addr(g, i, FileSlot(off / BSIZE)) < |g.blocks|
    ensures var h := ChunkAt(g, i, off, chunk);
            && Wf(h) && OwnOk(h, o)
            && (forall j, l :: 0 <= j < |g.inodes| && 0 <= l < NSLOTS ==> Addr(h, j, l) == Addr(g, j, l))
            && forall j, x :: 0 <= j < |g.inodes| && 0 <= x ==>
                 FileByte(h, j, x) == if j == i && off <= x < off + |chunk| then chunk[x - off] else FileByte(g, j, x)
  {
    ChunkWritten(g, o, i, off / BSIZE, off % BSIZE, chunk);
    hide Addr, FileByte, Wf, OwnOk, Spliced;
    SameBlock(off, |chunk|);
  }

  /** One round of writei. */
  lemma WriteRound(fs0: Fs, fs: Fs, owner: map<nat, Slot>, i: nat, off0: nat, off: nat, src: seq<Byte>,
                   g: Fs, o: map<nat, Slot>, chunk: seq<Byte>)
    requires Writing(fs0, fs, owner, i, off0, off, src) && BmapDone(fs, owner, g, o, i, off / BSIZE)
    requires 0 < |chunk| && off % BSIZE + |chunk| <= BSIZE && off + |chunk| <= off0 + |src|
    requires chunk == src[off - off0..off - off0 + |chunk|]
    ensures Writing(fs0, ChunkAt(g, i, off, chunk), o, i, off0, off + |chunk|, src)
  {
    hide Addr, FileByte, OwnOk, Spliced;
    var n := Max(BlocksFor(fs0.inodes[i].size), BlocksFor(off));
    WritingMapped(fs0, fs, owner, i, off0, off, src, g, o, n);
    ChunkBytes(g, o, i, off, chunk);
    var h := ChunkAt(g, i, off, chunk);
    BlocksForNext(off, |chunk|);
    SameSlotsGrow(g, h, o, i, if off / BSIZE < n then n else off / BSIZE + 1);
    if off + |chunk| <= fs0.inodes[i].size {
      BlocksForMono(off + 1, fs0.inodes[i].size);
      assert Addr(fs, i, FileSlot(off / BSIZE)) != 0;
    }
  }

  ghost function WithSize(fs: Fs, i: nat, size: nat): Fs
    requires i < |fs.inodes|
  {
    fs.(inodes := fs.inodes[i := fs.inodes[i].(size := size)])
  }

  /** Sizes are not where blocks are looked up, so a size that fits the blocks makes the file whole. */
  lemma SizedFile(fs: Fs, owner: map<nat, Slot>, i: nat, size: nat)
    requires Growing(fs, owner, i, BlocksFor(size))
    ensures var g := WithSize(fs, i, size);
            && FsOk(g, owner)
            && forall j, l :: 0 <= j < |fs.inodes| && 0 <= l < NSLOTS ==> Addr(g, j, l) == Addr(fs, j, l)
  {
    var g := WithSize(fs, i, size);
    assert Wf(g);
    assert forall j, l :: 0 <= j < |fs.inodes| && 0 <= l < NSLOTS ==> Addr(g, j, l) == Addr(fs, j, l);
    hide Addr;
    forall j | 0 <= j < |g.inodes|
      ensures HasBlocks(g, j, BlocksFor(g.inodes[j].size))
    {
      assert j != i ==> HasBlocks(fs, j, BlocksFor(fs.inodes[j].size));
    }
  }

  /** After the last round and the size update the file reads as overwritten, and no other file changed. */
  lemma WriteDone(fs0: Fs, fs: Fs, owner: map<nat, Slot>, i: nat, off0: nat, src: seq<Byte>)
    requires Writing(fs0, fs, owner, i, off0, off0 + |src|, src)
    ensures var g := WithSize(fs, i, Max(fs0.inodes[i].size, off0 + |src|));
            && FsOk(g, owner)
            && Content(g, i) == Overwritten(Content(fs0, i), off0, src)
            && forall j :: 0 <= j < |fs0.inodes| && j != i ==> Content(g, j) == Content(fs0, j)
  {
    var size := Max(fs0.inodes[i].size, off0 + |src|);
    var g := WithSize(fs, i, size);
    SizedFile(fs, owner, i, size);
    hide Addr, OwnOk;
    assert forall j, x :: 0 <= j < |fs.inodes| && 0 <= x ==> FileByte(g, j, x) == FileByte(fs, j, x);
    hide FileByte;
  }
}
