/**
 * The image builder. It has its own copies of the allocator and of the block
 * addressing, which must leave an image that the kernel reads back.
 */
module Mkfs {
  import opened Basics
  import opened SfsBlocks
  import opened SfsState
  import opened Sfs
  import SfsInode
  import opened SfsSpace

  const MAX_INODES := 256
  const FS_SIZE := 131072
  const BMAP_START := SfsInode.TABLE_BLK + MAX_INODES / SfsInode.PER_BLK
  const BMAP_BLKS := FS_SIZE / BITS + (if FS_SIZE % BITS > 0 then 1 else 0)
  const JOURNAL_START := BMAP_START + BMAP_BLKS
  const JOURNAL_BLKS := 256
  const DATA_START := JOURNAL_START + JOURNAL_BLKS

  /** The layout in the superblock. */
  const IMAGE := Layout(BMAP_START, BMAP_BLKS, DATA_START, FS_SIZE)

  /** One `inode_append` or `write_inode`. */
  datatype Call = Append(inum: nat, data: seq<nat>) | Flush(inum: nat)

  /** The bytes appended to a file by the first n calls. */
  ghost function Appended(calls: seq<Call>, n: nat, inum: nat): seq<nat>
    requires n <= |calls|
  {
    if n == 0 then []
    else Appended(calls, n - 1, inum) + (if calls[n - 1].Append? && calls[n - 1].inum == inum then calls[n - 1].data else [])
  }

  /** Some file would pass the size limit. */
  ghost predicate TooLong(calls: seq<Call>)
  {
    exists m: nat :: |Appended(calls, |calls|, m)| > 137216
  }

  lemma {:induction false} LongSoFar(calls: seq<Call>, n: nat, m: nat, inum: nat)
    requires n <= m <= |calls|
    ensures |Appended(calls, n, inum)| <= |Appended(calls, m, inum)|
  {
    if n < m {
      LongSoFar(calls, n, m - 1, inum);
    }
  }

  class Image {
    const lay: Layout
    var blocks: seq<Block>
    var inodes: map<nat, Inode>
    ghost var owner: map<nat, Slot>

    ghost function State(): Fs
      reads this
    {
      Fs(lay, blocks, inodes, owner)
    }

    ghost predicate Valid()
      reads this
    {
      Inv(State()) && Solid(State()) && Tight(State())
    }

    /** An image of zeros, with fresh inodes. */
    constructor (inums: set<nat>)
      ensures Valid() && lay == IMAGE == Layout(36, 32, 324, 131072) && inodes.Keys == inums && forall m | m in inums :: inodes[m].size == 0
    {
      lay := IMAGE;
      blocks := seq(DATA_START + FS_SIZE, _ => Zero());
      inodes := map m | m in inums :: Inode(seq(NDIRECT + NINDIRECT, _ => 0), 0);
      owner := map[];
      new;
      assert forall s | SlotOk(State(), s) :: SlotOwns(State(), s);
      forall n: nat | n < FS_SIZE ensures BitOk(State(), None, n) {
        NoBits(n % BITS % 8);
      }
    }

    /** `alloc_data_block`; false is `exit(1)`. */
    method AllocDataBlock() returns (ok: bool, blk: nat)
      requires Inv(State())
      modifies `blocks
      ensures ok ==> InData(lay, blk) && !Used(old(State()), blk - lay.data)
      ensures ok ==> State() == Alloc(old(State()), blk - lay.data)
      ensures !ok ==> State() == old(State()) && Full(State())
    {
      var left := lay.size;
      for k := 0 to lay.nb
        invariant State() == old(State()) && left == lay.size - BITS * k && UsedBelow(State(), BITS * k)
      {
        var bmap := blocks[lay.bmap + k];
        var size := if BLK < left / 8 then BLK else left / 8;
        var index := FindFreeBit(bmap, size);
        BelowNext(State(), k, size, index, bmap);
        if index >= 0 {
          ghost var n := BITS * k + index;
          assert n / BITS == k && n % BITS == index;
          blocks := blocks[lay.bmap + k := SetBlockBit(bmap, index, true)];
          blk := lay.data + BITS * k + index;
          blocks := blocks[blk := Zero()];
          return true, blk;
        }
        left := left - BITS;
      }
      return false, 0;
    }

    /** A new block for address i of the inode. */
    method AddAddr(inum: nat, i: nat, ghost ofs: nat) returns (ok: bool)
      requires Inv(State()) && inum in inodes && i < NDIRECT + NINDIRECT && inodes[inum].addrs[i] == 0
      requires AddrFor(i, ofs / BLK)
      modifies `blocks, `inodes, `owner
      ensures ok ==> Grew(old(State()), State(), inum, ofs) && inodes[inum].addrs[i] != 0
      ensures !ok ==> State() == old(State()) && Full(State())
    {
      var blk;
      ok, blk := AllocDataBlock();
      if ok {
        AddrLinked(old(State()), blk - lay.data, inum, i, ofs);
        inodes := inodes[inum := inodes[inum].(addrs := inodes[inum].addrs[i := blk])];
        owner := owner[blk := AddrSlot(inum, i)];
        assert State() == LinkAddr(Alloc(old(State()), blk - lay.data), inum, i, blk);
      }
    }

    /** The data block in an entry of an indirect block, which the file has. */
    method GetEntry(inum: nat, k: nat, e: nat, ghost ofs: nat) returns (ok: bool, blk: nat)
      requires Inv(State()) && inum in inodes && k < NINDIRECT && e < WORDS && inodes[inum].addrs[NDIRECT + k] != 0
      requires ofs < MAX_FILE_SIZE && DataSlot(inum, ofs / BLK) == Entry(inum, k, e)
      modifies `blocks, `owner
      ensures ok ==> Grew(old(State()), State(), inum, ofs)
      ensures ok ==> blk == Content(State(), Entry(inum, k, e)) != 0
      ensures !ok ==> State() == old(State()) && Full(State()) && Content(State(), Entry(inum, k, e)) == 0
    {
      var at := inodes[inum].addrs[NDIRECT + k];
      assert SlotOwns(State(), Indirect(inum, k)) && OwnerOk(State(), at);
      blk := WordAt(blocks[at], e);
      ok := true;
      if blk == 0 {
        ok, blk := AddEntry(inum, k, e, ofs);
      } else {
        WroteNothing(State(), inum, ofs);
      }
    }

    /** A new block for an entry of an indirect block. */
    method AddEntry(inum: nat, k: nat, e: nat, ghost ofs: nat) returns (ok: bool, blk: nat)
      requires Inv(State()) && inum in inodes && k < NINDIRECT && e < WORDS && inodes[inum].addrs[NDIRECT + k] != 0
      requires ofs < MAX_FILE_SIZE && DataSlot(inum, ofs / BLK) == Entry(inum, k, e)
      requires Content(State(), Entry(inum, k, e)) == 0
      modifies `blocks, `owner
      ensures ok ==> Grew(old(State()), State(), inum, ofs)
      ensures ok ==> blk == Content(State(), Entry(inum, k, e)) != 0
      ensures !ok ==> State() == old(State()) && Full(State()) && Content(State(), Entry(inum, k, e)) == 0
    {
      var at := inodes[inum].addrs[NDIRECT + k];
      ok, blk := AllocDataBlock();
      if ok {
        EntryLinked(old(State()), blk - lay.data, inum, k, e, ofs);
        blocks := blocks[at := SetWord(blocks[at], e, blk)];
        owner := owner[blk := Entry(inum, k, e)];
        assert State() == LinkEntry(Alloc(old(State()), blk - lay.data), inum, k, e, blk);
      }
    }

    /** `get_data_block`. */
    method GetDataBlock(inum: nat, ofs: nat) returns (ok: bool, blk: nat)
      requires Inv(State()) && inum in inodes
      modifies `blocks, `inodes, `owner
      ensures Grew(old(State()), State(), inum, ofs)
      ensures ok ==> ofs < MAX_FILE_SIZE && blk == BlockOf(State(), inum, ofs / BLK) != 0
      ensures !ok && ofs < MAX_FILE_SIZE ==> Full(State()) && BlockOf(State(), inum, ofs / BLK) == 0
    {
      WroteNothing(State(), inum, ofs);
      if ofs >= MAX_FILE_SIZE {
        return false, 0;
      }
      var idx := ofs / BLK;
      ok := true;
      if idx < NDIRECT {
        if inodes[inum].addrs[idx] == 0 {
          ok := AddAddr(inum, idx, ofs);
          if !ok {
            return false, 0;
          }
        }
        blk := inodes[inum].addrs[idx];
      } else {
        var k := (idx - NDIRECT) / WORDS;
        if inodes[inum].addrs[NDIRECT + k] == 0 {
          ok := AddAddr(inum, NDIRECT + k, ofs);
          if !ok {
            return false, 0;
          }
        }
        ghost var mid := State();
        ok, blk := GetEntry(inum, k, (idx - NDIRECT) % WORDS, ofs);
        if ok {
          GrewChain(old(State()), mid, State(), inum, ofs);
        }
      }
    }

    /** One pass of `inode_append`; the size grows with each. */
    method AppendChunk(inum: nat, data: seq<nat>, total: nat, ghost f: Fs) returns (ok: bool, s: nat)
      requires Appending(f, State(), inum, data, total) && Tight(State()) && total < |data|
      requires forall i | 0 <= i < |data| :: data[i] < 256
      modifies `blocks, `inodes, `owner
      ensures ok ==> 0 < s && total + s <= |data| && Appending(f, State(), inum, data, total + s) && Tight(State())
      ensures !ok ==> f.inodes[inum].size + total >= MAX_FILE_SIZE || Stopped(f, State(), inum, |data|)
    {
      ghost var g := State();
      var blk;
      s := 0;
      ok, blk := GetDataBlock(inum, inodes[inum].size);
      ghost var h := State();
      AppendGrew(f, g, h, inum, data, total);
      if ok {
        s := CopyChunk(inum, data, total, blk, f);
        AppendFits(f, g, h, State(), inum, data, total, s);
      }
    }

    /** As much as fits in the block is copied. */
    method CopyChunk(inum: nat, data: seq<nat>, total: nat, blk: nat, ghost f: Fs) returns (s: nat)
      requires Appending(f, State(), inum, data, total) && total < |data| && forall i | 0 <= i < |data| :: data[i] < 256
      requires inodes[inum].size < MAX_FILE_SIZE && blk == BlockOf(State(), inum, inodes[inum].size / BLK) != 0
      modifies `blocks, `inodes
      ensures 0 < s && total + s <= |data| && Appending(f, State(), inum, data, total + s)
    {
      var size := inodes[inum].size;
      s := Chunk(size, |data| - total);
      ghost var mid, a, b := State(), data[..total], data[total..total + s];
      CopyBytes(inum, data[total..total + s], size, blk);
      WroteChain(f, mid, State(), inum, f.inodes[inum].size, a, b);
      assert a + b == data[..total + s];
      SetSize(inum, data[..total + s], f.inodes[inum].size, size + s, f);
    }

    method SetSize(inum: nat, ghost src: seq<nat>, ghost ofs: nat, size: nat, ghost f: Fs)
      requires Inv(State()) && inum in inodes && Wrote(f, State(), inum, ofs, src) && size <= MAX_FILE_SIZE
      modifies `inodes
      ensures Inv(State()) && Wrote(f, State(), inum, ofs, src) && inum in inodes && inodes[inum].size == size
    {
      SizeKeeps(f, State(), inum, ofs, src, size);
      inodes := inodes[inum := inodes[inum].(size := size)];
    }

    method CopyBytes(inum: nat, src: seq<nat>, ofs: nat, blk: nat)
      requires Inv(State()) && inum in inodes && ofs % BLK + |src| <= BLK && ofs < MAX_FILE_SIZE
      requires blk == BlockOf(State(), inum, ofs / BLK) != 0 && forall i | 0 <= i < |src| :: src[i] < 256
      modifies `blocks
      ensures Inv(State()) && Wrote(old(State()), State(), inum, ofs, src)
    {
      BlockInRange(State(), inum, ofs / BLK);
      var x := Splice(blocks[blk], ofs % BLK, src);
      PutWrote(State(), inum, ofs, src, x);
      blocks := blocks[blk := x];
    }

    /** The loop of `inode_append`. */
    method AppendAll(inum: nat, data: seq<nat>, ghost f: Fs) returns (ok: bool)
      requires Inv(State()) && f == State() && inum in inodes && Tight(f)
      requires forall i | 0 <= i < |data| :: data[i] < 256
      modifies `blocks, `inodes, `owner
      ensures ok ==> Appending(f, State(), inum, data, |data|) && Tight(State())
      ensures !ok ==> f.inodes[inum].size + |data| > MAX_FILE_SIZE || Stopped(f, State(), inum, |data|)
    {
      WroteNothing(f, inum, f.inodes[inum].size);
      var total := 0;
      while total < |data|
        invariant total <= |data| && Appending(f, State(), inum, data, total) && Tight(State())
      {
        var s;
        ok, s := AppendChunk(inum, data, total, f);
        if !ok {
          return;
        }
        total := total + s;
      }
      ok := true;
    }

    /** `inode_append`: the bytes go to the end of this file and no other file changes. */
    method InodeAppend(inum: nat, data: seq<nat>) returns (ok: bool)
      requires Valid() && inum in inodes && forall i | 0 <= i < |data| :: data[i] < 256
      modifies `blocks, `inodes, `owner
      ensures ok ==> Valid() && Files(State()) == Files(old(State()))[inum := Files(old(State()))[inum] + data]
      ensures ok ==> LowKept(old(State()), State()) && forall m | m in inodes && m != inum :: m in old(inodes) && inodes[m] == old(inodes)[m]
      ensures !ok ==> |Files(old(State()))[inum]| + |data| > MAX_FILE_SIZE || Stopped(old(State()), State(), inum, |data|)
    {
      ghost var f := State();
      ok := AppendAll(inum, data, f);
      if ok {
        assert data[..|data|] == data;
        AppendFiles(f, State(), inum, data);
      }
    }
  }

  /** How long each file is in the end. */
  ghost function Lengths(calls: seq<Call>, inums: set<nat>): map<nat, nat>
  {
    map m | m in inums :: |Appended(calls, |calls|, m)|
  }

  /** An append that stops for want of a block stops on files that need more blocks than there are. */
  lemma StoppedDemand(f: Fs, g: Fs, calls: seq<Call>, i: nat, top: nat)
    requires i < |calls| && calls[i].Append? && Solid(f) && Holds(Files(f), calls, i) && calls[i].inum in f.inodes && f.lay == IMAGE
    requires Stopped(f, g, calls[i].inum, |calls[i].data|) && forall m | m in f.inodes :: m < top
    ensures Demand(Lengths(calls, f.inodes.Keys), top) > FS_SIZE
  {
    var inum, sizes := calls[i].inum, Lengths(calls, f.inodes.Keys);
    forall m | m in g.inodes ensures m in sizes && g.inodes[m].size + (if m == inum then 1 else 0) <= sizes[m] {
      assert |Files(f)[m]| == f.inodes[m].size;
      LongSoFar(calls, i + 1, |calls|, m);
    }
    StuckDemand(g, inum, sizes, top);
  }

  lemma GaveUp(f: Fs, g: Fs, calls: seq<Call>, i: nat, top: nat)
    requires i < |calls| && calls[i].Append? && Solid(f) && Holds(Files(f), calls, i) && calls[i].inum in f.inodes && f.lay == IMAGE
    requires f.inodes[calls[i].inum].size + |calls[i].data| > MAX_FILE_SIZE || Stopped(f, g, calls[i].inum, |calls[i].data|)
    requires forall m | m in f.inodes :: m < top
    ensures TooLong(calls) || Demand(Lengths(calls, f.inodes.Keys), top) > FS_SIZE
  {
    var inum := calls[i].inum;
    if f.inodes[inum].size + |calls[i].data| > MAX_FILE_SIZE {
      LongSoFar(calls, i + 1, |calls|, inum);
      assert |Files(f)[inum]| == f.inodes[inum].size;
    } else {
      StoppedDemand(f, g, calls, i, top);
    }
  }

  lemma {:induction false} NoCalls(calls: seq<Call>, inums: set<nat>, n: nat, m: nat)
    requires n <= |calls| && m !in inums && forall i | 0 <= i < |calls| :: CallOk(calls[i], inums)
    ensures Appended(calls, n, m) == []
  {
    if n > 0 {
      NoCalls(calls, inums, n - 1, m);
    }
  }

  /** What was built was not too much. */
  lemma BuiltFits(f: Fs, calls: seq<Call>, top: nat)
    requires Inv(f) && Solid(f) && Holds(Files(f), calls, |calls|) && f.lay == IMAGE
    requires forall i | 0 <= i < |calls| :: CallOk(calls[i], f.inodes.Keys)
    ensures !TooLong(calls) && Demand(Lengths(calls, f.inodes.Keys), top) <= FS_SIZE
  {
    forall m: nat ensures |Appended(calls, |calls|, m)| <= MAX_FILE_SIZE {
      if m in f.inodes {
        assert |Files(f)[m]| == f.inodes[m].size;
      } else {
        NoCalls(calls, f.inodes.Keys, |calls|, m);
      }
    }
    var sizes := Sizes(f);
    forall m | m in f.inodes ensures sizes[m] == Lengths(calls, f.inodes.Keys)[m] {
      assert |Files(f)[m]| == f.inodes[m].size;
    }
    assert sizes == Lengths(calls, f.inodes.Keys);
    SolidDemand(f, top);
  }

  /** The first bytes of the data are in the file. */
  ghost predicate Appending(f: Fs, g: Fs, inum: nat, data: seq<nat>, total: nat)
  {
    && Inv(g) && inum in f.inodes && total <= |data| && Wrote(f, g, inum, f.inodes[inum].size, data[..total])
    && g.inodes[inum].size == f.inodes[inum].size + total
  }

  lemma AppendGrew(f: Fs, g: Fs, h: Fs, inum: nat, data: seq<nat>, total: nat)
    requires Appending(f, g, inum, data, total) && Tight(g) && total < |data|
    requires Grew(g, h, inum, g.inodes[inum].size)
    ensures Appending(f, h, inum, data, total)
    ensures h.inodes[inum].size < MAX_FILE_SIZE && Full(h) && BlockOf(h, inum, h.inodes[inum].size / BLK) == 0 ==>
      Stopped(f, h, inum, |data|)
  {
    WroteChain(f, g, h, inum, f.inodes[inum].size, data[..total], []);
    assert data[..total] + [] == data[..total];
    FitsMore(g, h, inum, 1);
  }

  lemma AppendFits(f: Fs, g: Fs, h: Fs, k: Fs, inum: nat, data: seq<nat>, total: nat, s: nat)
    requires Appending(f, g, inum, data, total) && Tight(g) && s > 0 && Appending(f, k, inum, data, total + s)
    requires Grew(g, h, inum, g.inodes[inum].size) && k.owner == h.owner
    ensures Tight(k)
  {
    FitsMore(g, k, inum, 0);
    forall b | b in k.owner ensures OwnerFits(k, 0, 0, b) {
      assert OwnerFits(k, inum, 0, b);
    }
  }

  ghost predicate CallOk(c: Call, inums: set<nat>)
  {
    c.inum in inums && (c.Append? ==> forall k | 0 <= k < |c.data| :: c.data[k] < 256)
  }

  lemma AppendFiles(f: Fs, g: Fs, inum: nat, data: seq<nat>)
    requires Solid(f) && inum in f.inodes && Wrote(f, g, inum, f.inodes[inum].size, data)
    requires g.inodes[inum].size == f.inodes[inum].size + |data|
    ensures Solid(g) && Files(g) == Files(f)[inum := Files(f)[inum] + data]
  {
    WroteFiles(f, g, inum, f.inodes[inum].size, data);
    var c := Files(f)[inum];
    assert Overwrite(c, |c|, data) == c + data;
  }

  ghost predicate Holds(files: map<nat, seq<nat>>, calls: seq<Call>, n: nat)
    requires n <= |calls|
  {
    forall m | m in files :: files[m] == Appended(calls, n, m)
  }

  lemma HoldsNext(files: map<nat, seq<nat>>, files': map<nat, seq<nat>>, calls: seq<Call>, n: nat)
    requires n < |calls| && calls[n].Append? && Holds(files, calls, n) && calls[n].inum in files
    requires files' == files[calls[n].inum := files[calls[n].inum] + calls[n].data]
    ensures Holds(files', calls, n + 1)
  {
  }

  lemma {:induction false} NoBits(k: nat)
    ensures !Bit(0, k)
  {
    if k > 0 {
      NoBits(k - 1);
    }
  }
}
