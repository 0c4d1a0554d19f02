/** The loops of fs.c over the block layer, proved against the model of FsModel. */
module FileSystem {
  import opened FsModel
  import opened FsTrunc
  import opened FsWrite

  const UINT := 0x1_0000_0000

  /** How readi and writei end. `Panicked` is balloc running out of blocks. */
  datatype Outcome = Done(n: nat) | Failed | ToDevice | Panicked

  class FileSys {
    const nmeta: nat
    var bitmap: seq<bool>
    var blocks: seq<seq<Byte>>
    /** In-memory inodes, and their copies on disk. */
    var inodes: seq<Inode>
    var dinodes: seq<Inode>
    ghost var owner: map<nat, Slot>

    ghost function Now(): Fs
      reads this
    {
      Fs(nmeta, bitmap, blocks, inodes)
    }

    ghost predicate Valid()
      reads this
    {
      FsOk(Now(), owner) && dinodes == inodes
    }

    /** A file system with no files: only the blocks that hold its own data are in use. */
    constructor (meta: nat, size: nat, ninodes: nat)
      requires 0 < meta <= size < UINT
      ensures Valid() && |blocks| == size && |inodes| == ninodes
    {
      nmeta := meta;
      bitmap := seq(size, b => b < meta);
      blocks := seq(size, _ => ZeroBlock());
      var empty := Inode(false, 0, seq(NDIRECT + 1, _ => 0));
      inodes := seq(ninodes, _ => empty);
      dinodes := seq(ninodes, _ => empty);
      owner := map[];
      new;
      EmptyOk(Now());
    }

    /** balloc: the first free block, marked and zeroed. */
    method Balloc() returns (ok: bool, b: nat)
      requires Wf(Now())
      modifies this`bitmap, this`blocks
      ensures !ok ==> Now() == old(Now()) && forall x :: 0 <= x < |bitmap| ==> bitmap[x]
      ensures ok ==> b < |old(bitmap)| && !old(bitmap)[b] && Now() == Taken(old(Now()), b)
      ensures ok ==> forall x :: 0 <= x < b ==> old(bitmap)[x]
      ensures Free(old(bitmap)) == if ok then Free(bitmap) + 1 else 0
    {
      b := 0;
      while b < |bitmap|
        invariant b <= |bitmap| && Now() == old(Now())
        invariant forall x :: 0 <= x < b ==> bitmap[x]
      {
        if !bitmap[b] {
          FreeTaken(bitmap, b);
          bitmap := bitmap[b := true];
          blocks := blocks[b := ZeroBlock()];
          return true, b;
        }
        b := b + 1;
      }
      NoneFree(bitmap);
      return false, 0;
    }

    /** bfree; false means it panicked because the block was free already. */
    method Bfree(b: nat) returns (ok: bool)
      requires b < |bitmap|
      modifies this`bitmap
      ensures ok == old(bitmap)[b]
      ensures bitmap == if ok then old(bitmap)[b := false] else old(bitmap)
    {
      if !bitmap[b] {
        return false;
      }
      bitmap := bitmap[b := false];
      return true;
    }

    /** Put a fresh block into slot `k` of the inode itself. */
    method FillDirect(i: nat, k: nat) returns (ok: bool, b: nat)
      requires Wf(Now()) && i < |inodes| && k <= NDIRECT
      modifies this`bitmap, this`blocks, this`inodes
      ensures !ok ==> Now() == old(Now()) && forall x :: 0 <= x < |bitmap| ==> bitmap[x]
      ensures ok ==> b < |old(bitmap)| && !old(bitmap)[b] && Now() == GiveDirect(old(Now()), i, k, b)
      ensures Free(old(bitmap)) == if ok then Free(bitmap) + 1 else 0
    {
      ok, b := Balloc();
      if ok {
        inodes := inodes[i := inodes[i].(addrs := inodes[i].addrs[k := b])];
      }
    }

    /** Put a fresh block into entry `k` of the indirect table. */
    method FillIndirect(i: nat, k: nat) returns (ok: bool, b: nat)
      requires Wf(Now()) && i < |inodes| && NDIRECT < k < NSLOTS
      modifies this`bitmap, this`blocks
      ensures !ok ==> Now() == old(Now()) && forall x :: 0 <= x < |bitmap| ==> bitmap[x]
      ensures ok ==> b < |old(bitmap)| && !old(bitmap)[b] && Now() == GiveIndirect(old(Now()), i, k, b)
      ensures Free(old(bitmap)) == if ok then Free(bitmap) + 1 else 0
    {
      var t := inodes[i].addrs[NDIRECT];
      ok, b := Balloc();
      if ok {
        blocks := blocks[t := SetEntry(blocks[t], k - NDIRECT - 1, b)];
      }
    }

    /**
      bmap: the block of file block `bn`, allocated if there is none. False means it
      panicked: the disk is full, or `bn` is out of range.
     */
    method Bmap(i: nat, bn: nat) returns (ok: bool, addr: nat)
      requires Wf(Now()) && OwnOk(Now(), owner) && i < |inodes|
      modifies this`bitmap, this`blocks, this`inodes, this`owner
      ensures ok ==> BmapDone(old(Now()), old(owner), Now(), owner, i, bn) && addr == Addr(Now(), i, FileSlot(bn))
      ensures bn >= MAXFILE ==> !ok
      ensures bn < MAXFILE && !ok ==>
                Addr(old(Now()), i, FileSlot(bn)) == 0 && forall x :: 0 <= x < |bitmap| ==> bitmap[x]
      ensures bn < MAXFILE ==> Paid(old(Now()), bitmap, i, bn, ok)
    {
      ghost var fs, o := Now(), owner;
      hide Wf, OwnOk, Mapped, BmapDone, Paid;
      if bn < NDIRECT {
        ok, addr := BmapDirectBlock(i, bn);
      } else if bn < MAXFILE {
        ok, addr := BmapIndirectBlock(i, bn);
      } else {
        ok, addr := false, 0;
      }
    }

    method BmapDirectBlock(i: nat, bn: nat) returns (ok: bool, addr: nat)
      requires Wf(Now()) && OwnOk(Now(), owner) && i < |inodes| && bn < NDIRECT
      modifies this`bitmap, this`blocks, this`inodes, this`owner
      ensures !ok ==> Addr(old(Now()), i, FileSlot(bn)) == 0 && forall x :: 0 <= x < |bitmap| ==> bitmap[x]
      ensures ok ==> BmapDone(old(Now()), old(owner), Now(), owner, i, bn) && addr == Addr(Now(), i, FileSlot(bn))
      ensures Paid(old(Now()), bitmap, i, bn, ok)
    {
      hide OwnOk, Mapped;
      ghost var fs := Now();
      ok, addr := true, inodes[i].addrs[bn];
      if addr == 0 {
        ok, addr := FillDirect(i, bn);
        if ok {
          BmapDirect(fs, owner, i, bn, addr);
          owner := owner[addr := Slot(i, bn)];
        }
      } else {
        BmapFound(fs, owner, i, bn);
      }
    }

    method BmapIndirectBlock(i: nat, bn: nat) returns (ok: bool, addr: nat)
      requires Wf(Now()) && OwnOk(Now(), owner) && i < |inodes| && NDIRECT <= bn < MAXFILE
      modifies this`bitmap, this`blocks, this`inodes, this`owner
      ensures !ok ==> Addr(old(Now()), i, FileSlot(bn)) == 0 && forall x :: 0 <= x < |bitmap| ==> bitmap[x]
      ensures ok ==> BmapDone(old(Now()), old(owner), Now(), owner, i, bn) && addr == Addr(Now(), i, FileSlot(bn))
      ensures Paid(old(Now()), bitmap, i, bn, ok)
    {
      hide OwnOk, Mapped, BmapDone, GiveDirect;
      ghost var fs, o := Now(), owner;
      if inodes[i].addrs[NDIRECT] == 0 {
        var t;
        ok, t := FillDirect(i, NDIRECT);
        if !ok {
          return ok, 0;
        }
        DirectMapped(fs, o, i, bn, NDIRECT, t);
        owner := owner[t := Slot(i, NDIRECT)];
        ghost var g, og := Now(), owner;
        ok, addr := BmapTableEntry(i, bn);
        if ok {
          BmapTwice(fs, o, g, og, Now(), owner, i, bn);
        }
      } else {
        ok, addr := BmapTableEntry(i, bn);
      }
    }

    method BmapTableEntry(i: nat, bn: nat) returns (ok: bool, addr: nat)
      requires Wf(Now()) && OwnOk(Now(), owner) && i < |inodes| && NDIRECT <= bn < MAXFILE
      requires inodes[i].addrs[NDIRECT] != 0
      modifies this`bitmap, this`blocks, this`owner
      ensures !ok ==> Addr(old(Now()), i, FileSlot(bn)) == 0 && forall x :: 0 <= x < |bitmap| ==> bitmap[x]
      ensures ok ==> BmapDone(old(Now()), old(owner), Now(), owner, i, bn) && addr == Addr(Now(), i, FileSlot(bn))
      ensures Paid(old(Now()), bitmap, i, bn, ok)
    {
      hide OwnOk, Mapped, BmapDone, GiveIndirect, Entry, ZeroBlock;
      ghost var fs := Now();
      var t := inodes[i].addrs[NDIRECT];
      ok, addr := true, Entry(blocks[t], bn - NDIRECT);
      if addr == 0 {
        ok, addr := FillIndirect(i, FileSlot(bn));
        if ok {
          BmapEntry(fs, owner, i, bn, addr);
          owner := owner[addr := Slot(i, FileSlot(bn))];
        }
      } else {
        BmapFound(fs, owner, i, bn);
      }
    }

    /** readi: the part of the file from `off`, at most `n` bytes, copied into `dst`; nothing else changes. */
    method Readi(i: nat, dst: array<Byte>, off: nat, n: nat) returns (r: Outcome)
      requires Valid() && i < |inodes| && off < UINT && n < UINT && n <= dst.Length
      modifies dst, this`bitmap, this`blocks, this`inodes, this`owner
      ensures Now() == old(Now()) && owner == old(owner)
      ensures r == if inodes[i].dev then ToDevice
                   else if off > inodes[i].size || off + n >= UINT then Failed
                   else Done(if off + n > inodes[i].size then inodes[i].size - off else n)
      ensures r.Done? ==> off + r.n <= |Content(Now(), i)| && dst[..r.n] == Content(Now(), i)[off..off + r.n]
      ensures forall k :: (if r.Done? then r.n else 0) <= k < dst.Length ==> dst[k] == old(dst[k])
    {
      hide OwnOk, SizesOk, FileByte, Content;
      if inodes[i].dev {
        return ToDevice;
      }
      if off > inodes[i].size || (off + n) % UINT < off {
        return Failed;
      }
      var len := if off + n > inodes[i].size then inodes[i].size - off else n;
      ReadBlocks(i, dst, off, len);
      assert dst[..len] == Content(Now(), i)[off..off + len];
      return Done(len);
    }

    /** The loop of readi. */
    method ReadBlocks(i: nat, dst: array<Byte>, off: nat, n: nat)
      requires Valid() && i < |inodes| && off + n <= inodes[i].size && n <= dst.Length
      modifies dst, this`bitmap, this`blocks, this`inodes, this`owner
      ensures Now() == old(Now()) && owner == old(owner)
      ensures forall k :: 0 <= k < dst.Length ==> dst[k] == if k < n then FileByte(Now(), i, off + k) else old(dst[k])
    {
      hide Wf, OwnOk, SizesOk, FileByte;
      var tot := 0;
      while tot < n
        invariant tot <= n && Now() == old(Now()) && owner == old(owner)
        invariant forall k :: 0 <= k < dst.Length ==>
                    dst[k] == if k < tot then FileByte(Now(), i, off + k) else old(dst[k])
      {
        var m := ReadChunk(i, dst, off, tot, n);
        tot := tot + m;
      }
    }

    /** One round of readi. */
    method ReadChunk(i: nat, dst: array<Byte>, off: nat, tot: nat, n: nat) returns (m: nat)
      requires FsOk(Now(), owner) && i < |inodes| && tot < n && off + n <= inodes[i].size && n <= dst.Length
      modifies dst, this`bitmap, this`blocks, this`inodes, this`owner
      ensures Now() == old(Now()) && owner == old(owner) && 0 < m <= n - tot
      ensures forall k :: 0 <= k < dst.Length ==>
                dst[k] == if tot <= k < tot + m then FileByte(Now(), i, off + k) else old(dst[k])
    {
      hide OwnOk, Addr, FileByte;
      var at := off + tot;
      BlocksForMono(at + 1, inodes[i].size);
      ByteHasBlock(Now(), i, BlocksFor(inodes[i].size), at);
      var addr := Existing(i, at / BSIZE);
      FileBytes(Now(), i, at / BSIZE);
      m := if n - tot < BSIZE - at % BSIZE then n - tot else BSIZE - at % BSIZE;
      SameBlock(at, m);
      CopyOut(dst, tot, blocks[addr], at % BSIZE, m);
    }

    /** bmap where the block is there: nothing is allocated. */
    method Existing(i: nat, bn: nat) returns (addr: nat)
      requires Wf(Now()) && OwnOk(Now(), owner) && i < |inodes| && bn < MAXFILE && Addr(Now(), i, FileSlot(bn)) != 0
      modifies this`bitmap, this`blocks, this`inodes, this`owner
      ensures Now() == old(Now()) && owner == old(owner) && addr == Addr(Now(), i, FileSlot(bn)) && addr < |blocks|
    {
      hide OwnOk, Addr, Mapped;
      var ok;
      ok, addr := Bmap(i, bn);
    }

    /** memmove from a block into the reader's buffer. */
    method CopyOut(dst: array<Byte>, d: nat, blk: seq<Byte>, p: nat, m: nat)
      requires d + m <= dst.Length && p + m <= |blk|
      modifies dst
      ensures forall k :: 0 <= k < dst.Length ==> dst[k] == if d <= k < d + m then blk[p + k - d] else old(dst[k])
    {
      forall k | 0 <= k < m {
        dst[d + k] := blk[p + k];
      }
    }

    /** writei: the file reads as overwritten from `off`, every other file as before. */
    method Writei(i: nat, src: seq<Byte>, off: nat) returns (r: Outcome)
      requires Valid() && i < |inodes| && off < UINT && |src| < UINT
      modifies this`bitmap, this`blocks, this`inodes, this`dinodes, this`owner
      ensures r.ToDevice? <==> old(inodes)[i].dev
      ensures r.Failed? <==> !old(inodes)[i].dev
                             && (off > old(inodes)[i].size || off + |src| >= UINT || off + |src| > MAXFILE * BSIZE)
      ensures r.ToDevice? || r.Failed? ==> Now() == old(Now()) && dinodes == old(dinodes) && owner == old(owner)
      ensures r.Panicked? ==> forall x :: 0 <= x < |bitmap| ==> bitmap[x]
      ensures r.Panicked? <==> !old(inodes)[i].dev && !r.Failed? && !old(Affordable(Now(), i, off + |src|))
      ensures r.Done? ==>
                && r.n == |src| && Valid() && |inodes| == |old(inodes)|
                && off <= |Content(old(Now()), i)|
                && Content(Now(), i) == Overwritten(Content(old(Now()), i), off, src)
                && forall j :: 0 <= j < |inodes| && j != i ==> Content(Now(), j) == Content(old(Now()), j)
    {
      if inodes[i].dev {
        return ToDevice;
      }
      if off > inodes[i].size || (off + |src|) % UINT < off {
        return Failed;
      }
      if off + |src| > MAXFILE * BSIZE {
        return Failed;
      }
      ghost var fs0 := Now();
      var ok := WriteBlocks(i, src, off);
      if !ok {
        return Panicked;
      }
      WriteDone(fs0, Now(), owner, i, off, src);
      if |src| > 0 && off + |src| > inodes[i].size {
        inodes := inodes[i := inodes[i].(size := off + |src|)];
        Iupdate(i);
        assert Now() == WithSize(Now(), i, off + |src|);
      } else {
        assert Now() == WithSize(Now(), i, inodes[i].size);
      }
      return Done(|src|);
    }

    /** The loop of writei; false means balloc panicked. */
    method WriteBlocks(i: nat, src: seq<Byte>, off: nat) returns (ok: bool)
      requires Valid() && i < |inodes| && off <= inodes[i].size && off + |src| <= MAXFILE * BSIZE
      modifies this`bitmap, this`blocks, this`inodes, this`owner
      ensures ok ==> Writing(old(Now()), Now(), owner, i, off, off + |src|, src)
      ensures !ok ==> forall x :: 0 <= x < |bitmap| ==> bitmap[x]
      ensures ok <==> old(Affordable(Now(), i, off + |src|))
    {
      ghost var fs0 := Now();
      hide Writing, FsOk, Took, Affordable;
      WriteStarts(fs0, owner, i, off, src);
      TookNothing(fs0, i, off);
      var tot := 0;
      while tot < |src|
        invariant tot <= |src| && Writing(fs0, Now(), owner, i, off, off + tot, src) && Took(fs0, bitmap, i, off + tot)
      {
        var m;
        ok, m := WriteChunk(i, src, off, tot, fs0);
        if !ok {
          return;
        }
        tot := tot + m;
      }
      ok := true;
      TookAll(fs0, bitmap, i, off + |src|);
    }

    /** One round: as much of `src` as fits in the block of offset `off + tot`. */
    method WriteChunk(i: nat, src: seq<Byte>, off: nat, tot: nat, ghost fs0: Fs) returns (ok: bool, m: nat)
      requires tot < |src| && off + |src| <= MAXFILE * BSIZE && Writing(fs0, Now(), owner, i, off, off + tot, src)
      requires i < |fs0.inodes| && Took(fs0, bitmap, i, off + tot)
      modifies this`bitmap, this`blocks, this`inodes, this`owner
      ensures ok ==> 0 < m <= |src| - tot && Writing(fs0, Now(), owner, i, off, off + tot + m, src)
      ensures ok ==> Took(fs0, bitmap, i, off + tot + m)
      ensures !ok ==> !Affordable(fs0, i, off + |src|) && forall x :: 0 <= x < |bitmap| ==> bitmap[x]
    {
      hide Writing, BmapDone, OwnOk, Addr, Spliced, ChunkAt, Took, Paid, Affordable;
      var at := off + tot;
      ghost var fs, o := Now(), owner;
      WritingWf(fs0, fs, o, i, off, at, src);
      var addr;
      ok, addr := Bmap(i, at / BSIZE);
      m := if |src| - tot < BSIZE - at % BSIZE then |src| - tot else BSIZE - at % BSIZE;
      RoundTakes(fs0, fs, o, i, off, at, src, bitmap, m, ok);
      if !ok {
        return false, 0;
      }
      var chunk := src[tot..tot + m];
      ghost var g := Now();
      BmapDoneWf(fs, o, g, owner, i, at / BSIZE);
      WriteRound(fs0, fs, o, i, off, at, src, g, owner, chunk);
      blocks := blocks[addr := Spliced(blocks[addr], at % BSIZE, chunk)];
      assert Now() == g.(blocks := g.blocks[addr := Spliced(g.blocks[addr], at % BSIZE, chunk)]);
      ChunkAtIs(g, i, at, chunk, addr);
    }

    /** iupdate: the inode on disk becomes the one in memory. */
    method Iupdate(i: nat)
      requires i < |inodes| == |dinodes|
      modifies this`dinodes
      ensures dinodes == old(dinodes)[i := inodes[i]]
    {
      dinodes := dinodes[i := inodes[i]];
    }

    /**
      itrunc: the file becomes empty and exactly its blocks become free; bfree never finds a
      block free already, so `ok` is never false.
     */
    method Itrunc(i: nat) returns (ok: bool)
      requires Valid() && i < |inodes|
      modifies this`bitmap, this`inodes, this`dinodes, this`owner
      ensures ok && Valid() && Truncation(old(Now()), old(owner), Now(), i)
    {
      hide Cleared, Freed, OwnOk, Slots, HasBlocks, Truncation;
      ghost var fs := Now();
      ok := FreeBlocks(i);
      ClearedAll(fs.inodes[i]);
      inodes := inodes[i := inodes[i].(size := 0)];
      Iupdate(i);
      Truncated(fs, owner, Now(), i);
      owner := Others(owner, i);
    }

    method FreeBlocks(i: nat) returns (ok: bool)
      requires Wf(Now()) && OwnOk(Now(), owner) && i < |inodes|
      modifies this`bitmap, this`inodes
      ensures ok && Freed(bitmap, old(Now()), owner, i, AllSlots())
      ensures inodes == old(inodes)[i := Cleared(old(inodes)[i], NDIRECT + 1)]
    {
      ghost var fs := Now();
      ClearedAll(fs.inodes[i]);
      hide Cleared, Freed, OwnOk, Slots;
      ok := FreeDirect(i);
      var t := inodes[i].addrs[NDIRECT];
      if t != 0 {
        ok := FreeTable(i, t, fs);
        inodes := inodes[i := inodes[i].(addrs := inodes[i].addrs[NDIRECT := 0])];
      } else {
        NoTable(bitmap, fs, owner, i, Slots(NDIRECT));
      }
    }

    /** The loop over the direct blocks. */
    method FreeDirect(i: nat) returns (ok: bool)
      requires Wf(Now()) && OwnOk(Now(), owner) && i < |inodes|
      modifies this`bitmap, this`inodes
      ensures ok && Freed(bitmap, old(Now()), owner, i, Slots(NDIRECT))
      ensures inodes == old(inodes)[i := Cleared(old(inodes)[i], NDIRECT)]
    {
      ghost var fs := Now();
      FreedNone(fs, owner, i);
      assert Cleared(inodes[i], 0) == inodes[i];
      hide OwnOk, Freed, Entry;
      var k := 0;
      while k < NDIRECT
        invariant k <= NDIRECT && Freed(bitmap, fs, owner, i, Slots(k))
        invariant inodes == fs.inodes[i := Cleared(fs.inodes[i], k)]
      {
        FreeSlot(bitmap, fs, owner, i, Slots(k), k);
        if inodes[i].addrs[k] != 0 {
          ok := Bfree(inodes[i].addrs[k]);
          if !ok {
            return;
          }
          inodes := inodes[i := inodes[i].(addrs := inodes[i].addrs[k := 0])];
        }
        assert inodes[i] == Cleared(fs.inodes[i], k + 1);
        k := k + 1;
      }
      ok := true;
    }

    /** The blocks in the indirect table, then the table itself. */
    method FreeTable(i: nat, t: nat, ghost fs: Fs) returns (ok: bool)
      requires Wf(fs) && OwnOk(fs, owner) && i < |fs.inodes| && blocks == fs.blocks
      requires t == fs.inodes[i].addrs[NDIRECT] && t != 0
      requires Freed(bitmap, fs, owner, i, Slots(NDIRECT))
      modifies this`bitmap
      ensures ok && Freed(bitmap, fs, owner, i, AllSlots())
    {
      hide Freed, OwnOk;
      assert Entries(0) == Slots(NDIRECT);
      hide Entries, Slots, AllSlots, AllEntries;
      ok := FreeEntries(i, t, fs);
      TableFreed(bitmap, fs, owner, i);
      ok := Bfree(t);
    }

    /** The loop over the entries of the indirect table. */
    method FreeEntries(i: nat, t: nat, ghost fs: Fs) returns (ok: bool)
      requires Wf(fs) && OwnOk(fs, owner) && i < |fs.inodes| && blocks == fs.blocks
      requires t == fs.inodes[i].addrs[NDIRECT] && t != 0
      requires Freed(bitmap, fs, owner, i, Entries(0))
      modifies this`bitmap
      ensures ok && Freed(bitmap, fs, owner, i, AllEntries())
    {
      hide OwnOk, Freed, Entry, Entries, AllEntries;
      assert t < |blocks| && |blocks[t]| == BSIZE;
      hide Wf;
      var j := 0;
      while j < NINDIRECT
        invariant j <= NINDIRECT && Freed(bitmap, fs, owner, i, Entries(j))
      {
        var a := Entry(blocks[t], j);
        EntryFreed(bitmap, fs, owner, i, j);
        if a != 0 {
          ok := Bfree(a);
          if !ok {
            return;
          }
        }
        j := j + 1;
      }
      AllEntriesAt(j);
      ok := true;
    }
  }
}
