/** The data-block operations of the simple file system, over the buffer cache. */
module Sfs {
  import opened Basics
  import opened SfsBlocks
  import opened SfsState

  datatype Err = Ok | NoMem | NoRes | NotExist | Panic

  /** The first clear bit among the first `size` bytes, or -1. */
  method FindFreeBit(b: Block, size: nat) returns (i: int)
    requires IsBlock(b) && size <= BLK
    ensures -1 <= i < 8 * size && (i >= 0 ==> !BlockBit(b, i))
    ensures forall n: nat | n < (if i < 0 then 8 * size else i) :: BlockBit(b, n)
  {
    for byte := 0 to size
      invariant forall n: nat | n < 8 * byte :: BlockBit(b, n)
    {
      for bit := 0 to 8
        invariant forall n: nat | n < 8 * byte + bit :: BlockBit(b, n)
      {
        assert (8 * byte + bit) / 8 == byte && (8 * byte + bit) % 8 == bit;
        if !Bit(b[byte], bit) {
          return byte * 8 + bit;
        }
      }
    }
    i := -1;
  }

  /** The bytes of bitmap block k that describe data blocks. */
  function BitmapBytes(l: Layout, k: nat): (r: nat)
    requires LayoutOk(l) && k < l.nb
    ensures BITS * k + 8 * r <= l.size && r <= BLK
  {
    if BLK < (l.size - BITS * k) / 8 then BLK else (l.size - BITS * k) / 8
  }

  /** The allocator looks at the bit of data block n. */
  predicate Allocatable(l: Layout, n: nat)
  {
    LayoutOk(l) && n < BITS * l.nb && n % BITS < 8 * BitmapBytes(l, n / BITS)
  }

  /** No allocatable block below n is free. */
  ghost predicate UsedBelow(f: Fs, n: nat)
    requires Shape(f)
  {
    forall m: nat {:trigger Allocatable(f.lay, m)} | m < n && Allocatable(f.lay, m) :: m < f.lay.size && Used(f, m)
  }

  ghost predicate Full(f: Fs)
    requires Shape(f)
  {
    UsedBelow(f, BITS * f.lay.nb)
  }

  class Sfs {
    const lay: Layout
    var blocks: seq<Block>
    var inodes: map<nat, Inode>
    // Which of the coming buffer allocations fail.
    var oracle: seq<bool>
    ghost var owner: map<nat, Slot>

    ghost function State(): Fs
      reads this
    {
      Fs(lay, blocks, inodes, owner)
    }

    ghost predicate Valid()
      reads this
    {
      Inv(State())
    }

    constructor (l: Layout, image: seq<Block>, table: map<nat, Inode>, faults: seq<bool>, ghost owners: map<nat, Slot>)
      requires Inv(Fs(l, image, table, owners))
      ensures Valid() && State() == Fs(l, image, table, owners) && oracle == faults
    {
      lay, blocks, inodes, oracle, owner := l, image, table, faults, owners;
    }

    /** `bdev_get_blk` finds memory for the block. */
    method GetBlk() returns (ok: bool)
      modifies `oracle
      ensures old(oracle) == [] ==> ok && oracle == []
    {
      ok := !(|oracle| > 0 && oracle[0]);
      oracle := if |oracle| > 0 then oracle[1..] else oracle;
    }

    /** `alloc_data_block`: first fit over the bitmap blocks; the new block is zeroed. */
    method AllocDataBlock() returns (r: Err, blk: nat)
      requires Valid()
      modifies `blocks, `oracle
      ensures r.Ok? || r.NoMem? || r.NoRes?
      ensures r.Ok? ==> InData(lay, blk) && !Used(old(State()), blk - lay.data) && State() == Alloc(old(State()), blk - lay.data)
      ensures r.Ok? ==> UsedBelow(old(State()), blk - lay.data) && Allocatable(lay, blk - lay.data)
      ensures !r.Ok? ==> State() == old(State())
      ensures r.NoRes? ==> Full(State())
      ensures old(oracle) == [] ==> oracle == [] && !r.NoMem?
    {
      var left := lay.size;
      for k := 0 to lay.nb
        invariant State() == old(State()) && left == lay.size - BITS * k && UsedBelow(State(), BITS * k)
        invariant old(oracle) == [] ==> oracle == []
      {
        var ok := GetBlk();
        if !ok {
          return NoMem, 0;
        }
        var size := if BLK < left / 8 then BLK else left / 8;
        var at := lay.bmap + k;
        var index := FindFreeBit(blocks[at], size);
        BelowNext(State(), k, size, index, blocks[at]);
        if index >= 0 {
          ghost var n := BITS * k + index;
          assert n / BITS == k && n % BITS == index;
          blk := lay.data + BITS * k + index;
          blocks := blocks[at := SetBlockBit(blocks[at], index, true)];
          ok := GetBlk();
          if !ok {
            SetThenClear(old(blocks)[at], index);
            blocks := blocks[at := SetBlockBit(blocks[at], index, false)];
            assert blocks == old(blocks);
            return NoMem, 0;
          }
          blocks := blocks[blk := Zero()];
          return Ok, blk;
        }
        left := left - BITS;
      }
      return NoRes, 0;
    }

    /** Address i of the inode; a missing block is allocated and linked if `alloc`. */
    method NeedAddr(inum: nat, i: nat, alloc: bool, ghost ofs: nat) returns (r: Err)
      requires Valid() && inum in inodes && i < NDIRECT + NINDIRECT && AddrFor(i, ofs / BLK)
      modifies `blocks, `oracle, `inodes, `owner
      ensures Grew(old(State()), State(), inum, ofs)
      ensures r.Ok? ==> inodes[inum].addrs[i] != 0
      ensures GrowErr(r, alloc, old(State()), State())
      ensures r.NotExist? ==> inodes[inum].addrs[i] == 0
      ensures old(oracle) == [] ==> oracle == [] && !r.NoMem?
    {
      WroteNothing(State(), inum, ofs);
      if inodes[inum].addrs[i] != 0 {
        return Ok;
      }
      if !alloc {
        return NotExist;
      }
      r := AddAddr(inum, i, ofs);
    }

    /** A new block is linked to an address of the inode. */
    method AddAddr(inum: nat, i: nat, ghost ofs: nat) returns (r: Err)
      requires Valid() && inum in inodes && i < NDIRECT + NINDIRECT && AddrFor(i, ofs / BLK)
      requires inodes[inum].addrs[i] == 0 && Wrote(State(), State(), inum, ofs, [])
      modifies `blocks, `oracle, `inodes, `owner
      ensures Grew(old(State()), State(), inum, ofs) && GrowErr(r, true, old(State()), State())
      ensures r.Ok? ==> inodes[inum].addrs[i] != 0
      ensures old(oracle) == [] ==> oracle == [] && !r.NoMem?
    {
      var blk;
      r, blk := AllocDataBlock();
      if r.Ok? {
        AddrLinked(old(State()), blk - lay.data, inum, i, ofs);
        inodes := inodes[inum := inodes[inum].(addrs := inodes[inum].addrs[i := blk])];
        owner := owner[blk := AddrSlot(inum, i)];
        assert State() == LinkAddr(Alloc(old(State()), blk - lay.data), inum, i, blk);
      }
    }

    /** Entry e of the inode's indirect block k, which exists. */
    method NeedEntry(inum: nat, k: nat, e: nat, alloc: bool, ghost ofs: nat) returns (r: Err, blk: nat)
      requires Valid() && inum in inodes && k < NINDIRECT && e < WORDS && inodes[inum].addrs[NDIRECT + k] != 0
      requires ofs < MAX_FILE_SIZE && DataSlot(inum, ofs / BLK) == Entry(inum, k, e)
      modifies `blocks, `oracle, `owner
      ensures Grew(old(State()), State(), inum, ofs)
      ensures r.Ok? ==> blk == Content(State(), Entry(inum, k, e)) != 0
      ensures GrowErr(r, alloc, old(State()), State())
      ensures r.NotExist? ==> Content(State(), Entry(inum, k, e)) == 0
      ensures old(oracle) == [] ==> oracle == [] && !r.NoMem?
    {
      var at := inodes[inum].addrs[NDIRECT + k];
      assert SlotOwns(State(), Indirect(inum, k)) && OwnerOk(State(), at);
      WroteNothing(State(), inum, ofs);
      var ok := GetBlk();
      if !ok {
        return NoMem, 0;
      }
      blk := WordAt(blocks[at], e);
      if blk != 0 {
        return Ok, blk;
      }
      if !alloc {
        return NotExist, 0;
      }
      r, blk := AddEntry(inum, k, e, ofs);
    }

    /** A new block is linked to an entry of the indirect block. */
    method AddEntry(inum: nat, k: nat, e: nat, ghost ofs: nat) returns (r: Err, blk: nat)
      requires Valid() && inum in inodes && k < NINDIRECT && e < WORDS && inodes[inum].addrs[NDIRECT + k] != 0
      requires ofs < MAX_FILE_SIZE && DataSlot(inum, ofs / BLK) == Entry(inum, k, e)
      requires Content(State(), Entry(inum, k, e)) == 0 && Wrote(State(), State(), inum, ofs, [])
      modifies `blocks, `oracle, `owner
      ensures Grew(old(State()), State(), inum, ofs) && GrowErr(r, true, old(State()), State())
      ensures r.Ok? ==> blk == Content(State(), Entry(inum, k, e)) != 0
      ensures old(oracle) == [] ==> oracle == [] && !r.NoMem?
    {
      var at := inodes[inum].addrs[NDIRECT + k];
      r, blk := AllocDataBlock();
      if r.Ok? {
        EntryLinked(old(State()), blk - lay.data, inum, k, e, ofs);
        blocks := blocks[at := SetWord(blocks[at], e, blk)];
        owner := owner[blk := Entry(inum, k, e)];
        assert State() == LinkEntry(Alloc(old(State()), blk - lay.data), inum, k, e, blk);
      }
    }

    /**
     * `get_data_block`: the block for a file offset. No byte of any file
     * changes, except that a block that appears is zero.
     */
    method GetDataBlock(inum: nat, ofs: nat, alloc: bool) returns (r: Err, blk: nat)
      requires Valid() && inum in inodes
      modifies `blocks, `oracle, `inodes, `owner
      ensures Grew(old(State()), State(), inum, ofs)
      ensures r.Panic? <==> ofs >= MAX_FILE_SIZE
      ensures r.Ok? ==> blk == BlockOf(State(), inum, ofs / BLK) != 0
      ensures r.Panic? || GrowErr(r, alloc, old(State()), State())
      ensures r.NotExist? ==> BlockOf(State(), inum, ofs / BLK) == 0
      ensures old(oracle) == [] ==> oracle == [] && !r.NoMem?
    {
      WroteNothing(State(), inum, ofs);
      if ofs >= MAX_FILE_SIZE {
        return Panic, 0;
      }
      var ok := GetBlk();
      if !ok {
        return NoMem, 0;
      }
      var idx := ofs / BLK;
      if idx < NDIRECT {
        r := NeedAddr(inum, idx, alloc, ofs);
        if !r.Ok? {
          return r, 0;
        }
        blk := inodes[inum].addrs[idx];
      } else {
        var k := (idx - NDIRECT) / WORDS;
        r := NeedAddr(inum, NDIRECT + k, alloc, ofs);
        if !r.Ok? {
          return r, 0;
        }
        ghost var mid := State();
        r, blk := NeedEntry(inum, k, (idx - NDIRECT) % WORDS, alloc, ofs);
        GrewChain(old(State()), mid, State(), inum, ofs);
        if !r.Ok? {
          return r, 0;
        }
      }
      ok := GetBlk();
      if !ok {
        return NoMem, 0;
      }
    }

    /**
     * `read_data`: the bytes from `ofs` on, up to the end of the file, to a
     * hole, or to the first block there is no memory for.
     */
    method ReadData(inum: nat, count: nat, ofs: nat) returns (buf: seq<nat>)
      requires Valid() && inum in inodes
      modifies `blocks, `oracle, `inodes, `owner
      ensures State() == old(State())
      ensures |buf| <= count && (|buf| > 0 ==> ofs + |buf| <= inodes[inum].size)
      ensures forall i: nat | i < |buf| :: ByteAt(State(), inum, ofs + i) == Some(buf[i])
      ensures |buf| < count && ofs + |buf| < inodes[inum].size && old(oracle) == [] ==>
        BlockOf(State(), inum, (ofs + |buf|) / BLK) == 0
      ensures old(oracle) == [] ==> oracle == []
    {
      buf := [];
      while |buf| < count && ofs + |buf| < inodes[inum].size
        invariant State() == old(State()) && |buf| <= count && (|buf| > 0 ==> ofs + |buf| <= inodes[inum].size)
        invariant forall i: nat | i < |buf| :: ByteAt(State(), inum, ofs + i) == Some(buf[i])
        invariant old(oracle) == [] ==> oracle == []
        decreases count - |buf|
      {
        var at := ofs + |buf|;
        var r, blk := GetDataBlock(inum, at, false);
        if !r.Ok? {
          break;
        }
        var s := Chunk(at, if count - |buf| < inodes[inum].size - at then count - |buf| else inodes[inum].size - at);
        BlockInRange(State(), inum, at / BLK);
        ghost var more := blocks[blk][at % BLK..at % BLK + s];
        SameBlock(State(), inum, at, more);
        buf := buf + blocks[blk][at % BLK..at % BLK + s];
      }
    }

    /** Bytes are copied into one block. */
    method WriteChunk(inum: nat, src: seq<nat>, ofs: nat, blk: nat)
      requires Valid() && inum in inodes && ofs % BLK + |src| <= BLK && |src| > 0 && ofs < MAX_FILE_SIZE
      requires blk == BlockOf(State(), inum, ofs / BLK) != 0 && forall i | 0 <= i < |src| :: src[i] < 256
      modifies `blocks
      ensures Inv(State()) && Wrote(old(State()), State(), inum, ofs, src)
    {
      BlockInRange(State(), inum, ofs / BLK);
      ghost var x := Splice(blocks[blk], ofs % BLK, src);
      PutWrote(State(), inum, ofs, src, x);
      blocks := blocks[blk := Splice(blocks[blk], ofs % BLK, src)];
    }

    /**
     * `write_data`: exactly the returned number of bytes are replaced, in this
     * file only. It falls short only without memory or without a free block,
     * and panics only past the largest file size.
     */
    method WriteData(inum: nat, src: seq<nat>, ofs: nat) returns (panic: bool, total: nat)
      requires Valid() && inum in inodes && forall i | 0 <= i < |src| :: src[i] < 256
      modifies `blocks, `oracle, `inodes, `owner
      ensures Valid() && total <= |src| && Wrote(old(State()), State(), inum, ofs, src[..total])
      ensures panic ==> total < |src| && ofs + total >= MAX_FILE_SIZE && inodes[inum].size == old(inodes)[inum].size
      ensures !panic ==> inodes[inum].size == NewSize(old(inodes)[inum].size, ofs, total, |src|)
      ensures !panic && total < |src| && old(oracle) == [] ==> Full(State())
      ensures old(oracle) == [] ==> oracle == []
    {
      total := 0;
      var r, s := Ok, 0;
      WroteNothing(State(), inum, ofs);
      while total < |src| && r.Ok?
        invariant Valid() && total <= |src| && Wrote(old(State()), State(), inum, ofs, src[..total])
        invariant inum in inodes && inodes[inum].size == old(inodes)[inum].size
        invariant total > 0 || !(r.Ok? || r.Panic?) ==> ofs + total <= MAX_FILE_SIZE
        invariant r.Panic? ==> total < |src| && ofs + total >= MAX_FILE_SIZE
        invariant !r.NotExist? && (r.NoRes? ==> Full(State()))
        invariant old(oracle) == [] ==> oracle == [] && !r.NoMem?
        decreases |src| - total, r.Ok?
      {
        r, s := WriteNext(inum, src, ofs, total, old(State()));
        total := total + s;
      }
      panic := r.Panic?;
      if !panic && |src| > 0 && ofs + total > inodes[inum].size {
        SetSize(inum, src[..total], ofs, ofs + total, old(State()));
      }
    }

    method SetSize(inum: nat, ghost src: seq<nat>, ghost ofs: nat, size: nat, ghost f: Fs)
      requires Valid() && inum in inodes && Wrote(f, State(), inum, ofs, src) && size <= MAX_FILE_SIZE
      modifies `inodes
      ensures Valid() && Wrote(f, State(), inum, ofs, src) && inum in inodes && inodes[inum].size == size
      ensures Full(old(State())) ==> Full(State())
    {
      SizeKeeps(f, State(), inum, ofs, src, size);
      inodes := inodes[inum := inodes[inum].(size := size)];
      FullFrame(old(State()), State());
    }

    /** One pass of `write_data`. */
    method WriteNext(inum: nat, src: seq<nat>, ofs: nat, total: nat, ghost f: Fs) returns (r: Err, s: nat)
      requires Valid() && inum in inodes && total < |src| && Wrote(f, State(), inum, ofs, src[..total])
      requires forall i | 0 <= i < |src| :: src[i] < 256
      modifies `blocks, `oracle, `inodes, `owner
      ensures total + s <= |src| && Valid() && Wrote(f, State(), inum, ofs, src[..total + s])
      ensures inum in inodes && inodes[inum].size == old(inodes)[inum].size
      ensures r.Panic? <==> ofs + total >= MAX_FILE_SIZE
      ensures if r.Ok? then 0 < s && ofs + total + s <= MAX_FILE_SIZE else s == 0
      ensures !r.NotExist? && (r.NoRes? ==> Full(State()))
      ensures old(oracle) == [] ==> oracle == [] && !r.NoMem?
    {
      var blk;
      r, blk := GrowAt(inum, src, ofs, total, f);
      s := 0;
      if r.Ok? {
        s := CopyChunk(inum, src, ofs, total, blk, f);
      }
    }

    /** As much as fits in the block is copied. */
    method CopyChunk(inum: nat, src: seq<nat>, ofs: nat, total: nat, blk: nat, ghost f: Fs) returns (s: nat)
      requires Valid() && inum in inodes && total < |src| && Wrote(f, State(), inum, ofs, src[..total])
      requires ofs + total < MAX_FILE_SIZE && blk == BlockOf(State(), inum, (ofs + total) / BLK) != 0
      requires forall i | 0 <= i < |src| :: src[i] < 256
      modifies `blocks
      ensures 0 < s && total + s <= |src| && ofs + total + s <= MAX_FILE_SIZE
      ensures Valid() && Wrote(f, State(), inum, ofs, src[..total + s])
    {
      s := Chunk(ofs + total, |src| - total);
      ghost var mid, a, b := State(), src[..total], src[total..total + s];
      WriteChunk(inum, src[total..total + s], ofs + total, blk);
      WroteChain(f, mid, State(), inum, ofs, a, b);
      assert a + b == src[..total + s];
    }

    /** The block for the next chunk of a write. */
    method GrowAt(inum: nat, src: seq<nat>, ofs: nat, total: nat, ghost f: Fs) returns (r: Err, blk: nat)
      requires Valid() && inum in inodes && total < |src| && Wrote(f, State(), inum, ofs, src[..total])
      modifies `blocks, `oracle, `inodes, `owner
      ensures Valid() && Wrote(f, State(), inum, ofs, src[..total])
      ensures inum in inodes && inodes[inum].size == old(inodes)[inum].size
      ensures r.Panic? <==> ofs + total >= MAX_FILE_SIZE
      ensures r.Ok? ==> blk == BlockOf(State(), inum, (ofs + total) / BLK) != 0
      ensures !r.NotExist? && (r.NoRes? ==> Full(State()))
      ensures old(oracle) == [] ==> oracle == [] && !r.NoMem?
    {
      ghost var g := State();
      r, blk := GetDataBlock(inum, ofs + total, true);
      WroteChain(f, g, State(), inum, ofs, src[..total], []);
      assert src[..total] + [] == src[..total];
    }

    /** `sfs_read`: the position moves past what was read. */
    method Read(inum: nat, count: nat, pos: nat) returns (buf: seq<nat>, pos': nat)
      requires Valid() && inum in inodes
      modifies `blocks, `oracle, `inodes, `owner
      ensures State() == old(State()) && pos' == pos + |buf|
      ensures |buf| <= count && (|buf| > 0 ==> pos + |buf| <= inodes[inum].size)
      ensures forall i: nat | i < |buf| :: pos + i < inodes[inum].size && ByteAt(State(), inum, pos + i) == Some(buf[i])
      ensures NoHoles(State(), inum) && old(oracle) == [] ==> |buf| == Available(inodes[inum].size, pos, count)
      ensures old(oracle) == [] ==> oracle == []
    {
      buf := ReadData(inum, count, pos);
      pos' := pos + |buf|;
      if pos' < inodes[inum].size {
        assert NoHoles(State(), inum) ==> ByteAt(State(), inum, pos').Some?;
      }
    }

    /** `sfs_write`: the position moves past what was written; within the file no hole appears. */
    method Write(inum: nat, src: seq<nat>, pos: nat) returns (panic: bool, total: nat, pos': nat)
      requires Valid() && inum in inodes && forall i | 0 <= i < |src| :: src[i] < 256
      modifies `blocks, `oracle, `inodes, `owner
      ensures Valid() && total <= |src| && pos' == pos + total && Wrote(old(State()), State(), inum, pos, src[..total])
      ensures panic ==> total < |src| && pos' >= 137216
      ensures !panic && total < |src| && old(oracle) == [] ==> Full(State())
      ensures old(oracle) == [] ==> oracle == []
      ensures !panic ==> inodes[inum].size == NewSize(old(inodes)[inum].size, pos, total, |src|)
      ensures !panic ==> inodes[inum].size == if src != [] && pos' > old(inodes)[inum].size then pos' else old(inodes)[inum].size
      ensures forall m | m in inodes && NoHoles(old(State()), m) && (m == inum ==> pos <= old(inodes)[inum].size) ::
        NoHoles(State(), m)
      ensures !panic && pos <= old(inodes)[inum].size ==> pos' <= inodes[inum].size
      ensures !panic && Solid(old(State())) && pos <= old(inodes)[inum].size ==>
        Solid(State()) && Files(State()) == Stored(Files(old(State())), inum, pos, src[..total])
    {
      panic, total := WriteData(inum, src, pos);
      pos' := pos + total;
      forall m | m in inodes && NoHoles(old(State()), m) && (m == inum ==> pos <= old(inodes)[inum].size)
        ensures NoHoles(State(), m)
      {
        WroteNoHoles(old(State()), State(), inum, pos, src[..total], m);
      }
      if !panic && Solid(old(State())) && pos <= old(inodes)[inum].size {
        WroteFiles(old(State()), State(), inum, pos, src[..total]);
      }
    }

    /** What was written is what a later read returns, and all of it is written while there are free blocks. */
    method WriteThenRead(inum: nat, src: seq<nat>, pos: nat) returns (panic: bool, total: nat, buf: seq<nat>)
      requires Valid() && inum in inodes && (forall i | 0 <= i < |src| :: src[i] < 256) && oracle == []
      requires NoHoles(State(), inum) && pos <= inodes[inum].size
      modifies `blocks, `oracle, `inodes, `owner
      ensures total <= |src| && (!panic ==> buf == src[..total])
      ensures panic ==> pos + |src| > MAX_FILE_SIZE
      ensures Valid() && (!panic && total < |src| ==> Full(State()))
    {
      var p, q;
      buf := [];
      panic, total, p := Write(inum, src, pos);
      if !panic {
        ReadBack(old(State()), State(), inum, pos, src[..total]);
        ghost var g := State();
        buf, q := Read(inum, total, pos);
        assert |buf| == total && State() == g;
      }
    }

    /** `free_data_block`: the block's bit is cleared, and only that one. */
    method FreeDataBlock(blk: nat) returns (r: Err)
      requires Shape(State())
      requires blk < lay.data || InData(lay, blk)
      modifies `blocks, `oracle
      ensures r.Panic? <==> blk < lay.data
      ensures !r.Ok? ==> State() == old(State())
      ensures r.Ok? ==> State() == SetUsed(old(State()), blk - lay.data, false) && Shape(State())
      ensures r.Ok? ==> forall m: nat | m < lay.size :: Used(State(), m) == (m != blk - lay.data && Used(old(State()), m))
      ensures old(oracle) == [] ==> !r.NoMem?
    {
      if blk < lay.data {
        return Panic;
      }
      var at := lay.bmap + (blk - lay.data) / BITS;
      var ok := GetBlk();
      if !ok {
        return NoMem;
      }
      UsedAfterSet(State(), blk - lay.data, false, blk - lay.data);
      forall m: nat | m < lay.size
        ensures Used(SetUsed(State(), blk - lay.data, false), m) == (m != blk - lay.data && Used(State(), m))
      {
        UsedAfterSet(State(), blk - lay.data, false, m);
      }
      blocks := blocks[at := SetBlockBit(blocks[at], (blk - lay.data) % BITS, false)];
      r := Ok;
    }

    /** A read through a descriptor. */
    method ReadFd(fds: seq<nat>, fd: nat, count: nat, pos: seq<nat>) returns (out: seq<nat>, pos': seq<nat>)
      requires Valid() && Solid(State()) && fd < |fds| && Positioned(State(), fds, pos)
      modifies `blocks, `oracle, `inodes, `owner
      ensures State() == old(State()) && |pos'| == |pos| && pos' == pos[fd := pos[fd] + |out|]
      ensures |out| <= count && pos'[fd] <= inodes[fds[fd]].size && Positioned(State(), fds, pos')
      ensures out == Files(State())[fds[fd]][pos[fd]..pos[fd] + |out|]
      ensures old(oracle) == [] ==> oracle == [] && |out| == Available(|Files(State())[fds[fd]]|, pos[fd], count)
    {
      var p;
      out, p := Read(fds[fd], count, pos[fd]);
      pos' := pos[fd := p];
      ReadSlice(State(), fds[fd], pos[fd], out);
    }

    /** A write through a descriptor. */
    method WriteFd(fds: seq<nat>, fd: nat, src: seq<nat>, pos: seq<nat>) returns (panic: bool, out: seq<nat>, pos': seq<nat>)
      requires Valid() && Solid(State()) && fd < |fds| && Positioned(State(), fds, pos)
      requires forall i | 0 <= i < |src| :: src[i] < 256
      modifies `blocks, `oracle, `inodes, `owner
      ensures out <= src && |pos'| == |pos| && pos' == pos[fd := pos[fd] + |out|]
      ensures !panic ==> Valid() && Solid(State()) && Positioned(State(), fds, pos')
      ensures !panic ==> Files(State()) == Stored(Files(old(State())), fds[fd], pos[fd], out)
      ensures panic ==> pos[fd] + |src| > MAX_FILE_SIZE
      ensures !panic && old(oracle) == [] ==> oracle == [] && (out == src || Full(State()))
      ensures !panic && Full(old(State())) ==> Full(State())
    {
      var p;
      panic, out, p := WriteOut(fds[fd], src, pos[fd]);
      pos' := pos[fd := p];
    }

    /** One call on an open file; the plain arrays can make the same call. `calm` says that no memory fails. */
    method Perform(fds: seq<nat>, op: Op, pos: seq<nat>, ghost calm: bool) returns (panic: bool, out: seq<nat>, pos': seq<nat>)
      requires Valid() && Solid(State()) && OpOk(op, fds) && Positioned(State(), fds, pos) && (calm ==> oracle == [])
      modifies `blocks, `oracle, `inodes, `owner
      ensures !panic ==> Valid() && Solid(State()) && Positioned(State(), fds, pos') && (calm ==> oracle == [])
      ensures !panic ==> PlainStep(View(old(State()), pos), fds, op, out, View(State(), pos'), calm)
      ensures panic ==> TooFar(pos, op)
    {
      panic := false;
      match op {
        case ReadOp(fd, count) => out, pos' := PerformRead(fds, fd, count, pos, calm);
        case WriteOp(fd, src) => panic, out, pos' := PerformWrite(fds, fd, src, pos, calm);
      }
    }

    method PerformRead(fds: seq<nat>, fd: nat, count: nat, pos: seq<nat>, ghost calm: bool) returns (out: seq<nat>, pos': seq<nat>)
      requires Valid() && Solid(State()) && fd < |fds| && Positioned(State(), fds, pos) && (calm ==> oracle == [])
      modifies `blocks, `oracle, `inodes, `owner
      ensures State() == old(State()) && Positioned(State(), fds, pos') && (calm ==> oracle == [])
      ensures PlainStep(View(State(), pos), fds, ReadOp(fd, count), out, View(State(), pos'), calm)
    {
      out, pos' := ReadFd(fds, fd, count, pos);
      PlainRead(View(State(), pos), fds, fd, count, out, calm);
    }

    method PerformWrite(fds: seq<nat>, fd: nat, src: seq<nat>, pos: seq<nat>, ghost calm: bool)
      returns (panic: bool, out: seq<nat>, pos': seq<nat>)
      requires Valid() && Solid(State()) && fd < |fds| && Positioned(State(), fds, pos) && (calm ==> oracle == [])
      requires forall i | 0 <= i < |src| :: src[i] < 256
      modifies `blocks, `oracle, `inodes, `owner
      ensures !panic ==> Valid() && Solid(State()) && Positioned(State(), fds, pos') && (calm ==> oracle == [])
      ensures !panic ==> PlainStep(View(old(State()), pos), fds, WriteOp(fd, src), out, View(State(), pos'), calm)
      ensures panic ==> pos[fd] + |src| > MAX_FILE_SIZE
    {
      ghost var p := View(State(), pos);
      panic, out, pos' := WriteFd(fds, fd, src, pos);
      if !panic {
        PlainWrite(p, fds, fd, src, out, Full(State()), calm);
      }
    }

    /** A write, with the bytes that got through. */
    method WriteOut(inum: nat, src: seq<nat>, pos: nat) returns (panic: bool, out: seq<nat>, pos': nat)
      requires Valid() && Solid(State()) && inum in inodes && pos <= inodes[inum].size
      requires forall i | 0 <= i < |src| :: src[i] < 256
      modifies `blocks, `oracle, `inodes, `owner
      ensures Valid() && out <= src && pos' == pos + |out| && inodes.Keys == old(inodes.Keys)
      ensures !panic ==> pos' <= inodes[inum].size && Solid(State())
      ensures !panic ==> Files(State()) == Stored(Files(old(State())), inum, pos, out)
      ensures !panic ==> forall m | m in inodes :: old(inodes)[m].size <= inodes[m].size
      ensures panic ==> pos + |src| > MAX_FILE_SIZE
      ensures !panic && old(oracle) == [] ==> oracle == [] && (out == src || Full(State()))
      ensures !panic && Full(old(State())) ==> Full(State())
    {
      var n;
      panic, n, pos' := Write(inum, src, pos);
      out := src[..n];
      FullKept(old(State()), State());
    }

    /**
     * Over any run of reads and writes on open files, the file system acts as
     * plain byte arrays. Unless memory fails or the blocks run out, it returns
     * exactly what they return.
     */
    method Run(fds: seq<nat>, ops: seq<Op>) returns (panic: bool, outs: seq<seq<nat>>, ghost trace: seq<Plain>)
      requires Valid() && Solid(State()) && forall i | 0 <= i < |ops| :: OpOk(ops[i], fds)
      requires forall i | 0 <= i < |fds| :: fds[i] in inodes
      modifies `blocks, `oracle, `inodes, `owner
      ensures PlainRun(trace, fds, ops, outs, old(oracle) == []) && trace[0] == View(old(State()), seq(|fds|, _ => 0))
      ensures if panic then |outs| < |ops| && TooFar(trace[|outs|].pos, ops[|outs|]) else |outs| == |ops|
      ensures !panic ==> Valid() && Solid(State()) && trace[|outs|] == View(State(), trace[|outs|].pos)
      ensures !panic && old(oracle) == [] && !Full(State()) ==>
        outs == PlainOuts(trace[0], fds, ops) && Files(State()) == PlainEnd(trace[0], fds, ops).files
    {
      panic, outs, trace := RunAll(fds, ops, oracle == []);
      if !panic && old(oracle) == [] && !Full(State()) {
        PlainExact(trace, fds, ops, outs);
      }
    }

    method RunAll(fds: seq<nat>, ops: seq<Op>, ghost calm: bool)
      returns (panic: bool, outs: seq<seq<nat>>, ghost trace: seq<Plain>)
      requires Valid() && Solid(State()) && (forall i | 0 <= i < |ops| :: OpOk(ops[i], fds)) && (calm ==> oracle == [])
      requires forall i | 0 <= i < |fds| :: fds[i] in inodes
      modifies `blocks, `oracle, `inodes, `owner
      ensures PlainRun(trace, fds, ops, outs, calm) && trace[0] == View(old(State()), seq(|fds|, _ => 0))
      ensures if panic then |outs| < |ops| && TooFar(trace[|outs|].pos, ops[|outs|]) else |outs| == |ops|
      ensures !panic ==> Valid() && Solid(State()) && trace[|outs|] == View(State(), trace[|outs|].pos)
    {
      var pos := seq(|fds|, _ => 0);
      panic, outs, trace := false, [], [View(State(), pos)];
      for i := 0 to |ops|
        invariant |outs| == i && !panic && Valid() && Solid(State()) && (calm ==> oracle == [])
        invariant PlainRun(trace, fds, ops, outs, calm) && trace[0] == View(old(State()), seq(|fds|, _ => 0))
        invariant Positioned(State(), fds, pos) && trace[i] == View(State(), pos)
      {
        var out;
        panic, out, pos := Perform(fds, ops[i], pos, calm);
        if panic {
          return;
        }
        PlainRunNext(trace, fds, ops, outs, calm, out, View(State(), pos));
        outs, trace := outs + [out], trace + [View(State(), pos)];
      }
    }
  }

  // --- Plain byte arrays with positions ---

  datatype Op = ReadOp(fd: nat, count: nat) | WriteOp(fd: nat, src: seq<nat>)

  /** `full` says that no block is left. */
  datatype Plain = Plain(files: map<nat, seq<nat>>, pos: seq<nat>, full: bool)

  ghost function View(f: Fs, pos: seq<nat>): Plain
    requires Solid(f)
  {
    Plain(Files(f), pos, Full(f))
  }

  ghost predicate OpOk(op: Op, fds: seq<nat>)
  {
    op.fd < |fds| && (op.WriteOp? ==> forall i | 0 <= i < |op.src| :: op.src[i] < 256)
  }

  /** The write would go beyond the largest file, which is a panic. */
  ghost predicate TooFar(pos: seq<nat>, op: Op)
  {
    op.WriteOp? && op.fd < |pos| && pos[op.fd] + |op.src| > 137216
  }

  /**
   * A read returns the bytes at the position; a write stores a prefix of its
   * bytes there. If no memory fails, a read returns all there is, and a write
   * stores everything or leaves no block free.
   */
  ghost predicate PlainStep(p: Plain, fds: seq<nat>, op: Op, out: seq<nat>, q: Plain, calm: bool)
  {
    && op.fd < |fds| == |p.pos| && q.pos == p.pos[op.fd := p.pos[op.fd] + |out|] && fds[op.fd] in p.files
    && (p.full ==> q.full)
    && var (inum, at) := (fds[op.fd], p.pos[op.fd]);
       match op
       case ReadOp(_, count) =>
         && |out| <= count && at + |out| <= |p.files[inum]| && out == p.files[inum][at..at + |out|]
         && q.files == p.files && q.full == p.full
         && (calm ==> |out| == Available(|p.files[inum]|, at, count))
       case WriteOp(_, src) =>
         && out <= src && at <= |p.files[inum]| && q.files == Stored(p.files, inum, at, out)
         && (calm ==> out == src || q.full)
  }

  /** The first calls of `ops` lead through these states of the arrays. */
  ghost predicate PlainRun(trace: seq<Plain>, fds: seq<nat>, ops: seq<Op>, outs: seq<seq<nat>>, calm: bool)
  {
    && |trace| == |outs| + 1 && |outs| <= |ops|
    && forall k {:trigger outs[k]} | 0 <= k < |outs| :: PlainStep(trace[k], fds, ops[k], outs[k], trace[k + 1], calm)
  }

  lemma PlainRunNext(trace: seq<Plain>, fds: seq<nat>, ops: seq<Op>, outs: seq<seq<nat>>, calm: bool, out: seq<nat>, q: Plain)
    requires PlainRun(trace, fds, ops, outs, calm) && |outs| < |ops|
    requires PlainStep(trace[|outs|], fds, ops[|outs|], out, q, calm)
    ensures PlainRun(trace + [q], fds, ops, outs + [out], calm)
  {
  }

  /** What plain arrays answer to a call. */
  ghost function PlainOut(p: Plain, fds: seq<nat>, op: Op): seq<nat>
  {
    if op.fd < |fds| == |p.pos| && fds[op.fd] in p.files then
      var (c, at) := (p.files[fds[op.fd]], p.pos[op.fd]);
      match op
      case ReadOp(_, count) => if at <= |c| then c[at..at + Available(|c|, at, count)] else []
      case WriteOp(_, src) => src
    else
      []
  }

  /** The plain arrays after the call. */
  ghost function PlainNext(p: Plain, fds: seq<nat>, op: Op): Plain
  {
    if op.fd < |fds| == |p.pos| then
      var at := p.pos[op.fd];
      Plain(if op.WriteOp? then Stored(p.files, fds[op.fd], at, op.src) else p.files,
            p.pos[op.fd := at + |PlainOut(p, fds, op)|], p.full)
    else
      p
  }

  ghost function PlainOuts(p: Plain, fds: seq<nat>, ops: seq<Op>): seq<seq<nat>>
    decreases |ops|
  {
    if ops == [] then [] else [PlainOut(p, fds, ops[0])] + PlainOuts(PlainNext(p, fds, ops[0]), fds, ops[1..])
  }

  ghost function PlainEnd(p: Plain, fds: seq<nat>, ops: seq<Op>): Plain
    decreases |ops|
  {
    if ops == [] then p else PlainEnd(PlainNext(p, fds, ops[0]), fds, ops[1..])
  }

  /** While blocks are left, a calm step is the plain step. */
  lemma CalmStep(p: Plain, fds: seq<nat>, op: Op, out: seq<nat>, q: Plain)
    requires PlainStep(p, fds, op, out, q, true) && !q.full
    ensures out == PlainOut(p, fds, op) && q == PlainNext(p, fds, op)
  {
  }

  lemma {:induction false} StaysFull(trace: seq<Plain>, fds: seq<nat>, ops: seq<Op>, outs: seq<seq<nat>>, i: nat)
    requires PlainRun(trace, fds, ops, outs, true) && i <= |outs|
    ensures trace[i].full ==> trace[|outs|].full
    decreases |outs| - i
  {
    if i < |outs| {
      assert PlainStep(trace[i], fds, ops[i], outs[i], trace[i + 1], true);
      StaysFull(trace, fds, ops, outs, i + 1);
    }
  }

  /** A calm run that ends with a block left is exactly the run of plain arrays. */
  lemma {:induction false} PlainExact(trace: seq<Plain>, fds: seq<nat>, ops: seq<Op>, outs: seq<seq<nat>>)
    requires PlainRun(trace, fds, ops, outs, true) && |outs| == |ops| && !trace[|outs|].full
    ensures outs == PlainOuts(trace[0], fds, ops) && trace[|outs|] == PlainEnd(trace[0], fds, ops)
    decreases |outs|
  {
    if outs != [] {
      assert PlainStep(trace[0], fds, ops[0], outs[0], trace[1], true);
      StaysFull(trace, fds, ops, outs, 1);
      CalmStep(trace[0], fds, ops[0], outs[0], trace[1]);
      PlainTail(trace, fds, ops, outs);
      PlainExact(trace[1..], fds, ops[1..], outs[1..]);
    }
  }

  lemma PlainTail(trace: seq<Plain>, fds: seq<nat>, ops: seq<Op>, outs: seq<seq<nat>>)
    requires PlainRun(trace, fds, ops, outs, true) && outs != []
    ensures PlainRun(trace[1..], fds, ops[1..], outs[1..], true)
  {
    forall k | 0 <= k < |outs| - 1
      ensures PlainStep(trace[1..][k], fds, ops[1..][k], outs[1..][k], trace[1..][k + 1], true)
    {
      assert PlainStep(trace[k + 1], fds, ops[k + 1], outs[k + 1], trace[k + 2], true);
    }
  }

  lemma PlainRead(p: Plain, fds: seq<nat>, fd: nat, count: nat, out: seq<nat>, calm: bool)
    requires fd < |fds| == |p.pos| && fds[fd] in p.files && |out| <= count && p.pos[fd] + |out| <= |p.files[fds[fd]]|
    requires out == p.files[fds[fd]][p.pos[fd]..p.pos[fd] + |out|]
    requires calm ==> |out| == Available(|p.files[fds[fd]]|, p.pos[fd], count)
    ensures PlainStep(p, fds, ReadOp(fd, count), out, p.(pos := p.pos[fd := p.pos[fd] + |out|]), calm)
  {
  }

  lemma PlainWrite(p: Plain, fds: seq<nat>, fd: nat, src: seq<nat>, out: seq<nat>, full: bool, calm: bool)
    requires fd < |fds| == |p.pos| && fds[fd] in p.files && out <= src && p.pos[fd] <= |p.files[fds[fd]]|
    requires (p.full ==> full) && (calm ==> out == src || full)
    ensures PlainStep(p, fds, WriteOp(fd, src), out,
                      Plain(Stored(p.files, fds[fd], p.pos[fd], out), p.pos[fd := p.pos[fd] + |out|], full), calm)
  {
  }

  ghost predicate Positioned(f: Fs, fds: seq<nat>, pos: seq<nat>)
  {
    |pos| == |fds| && forall i | 0 <= i < |fds| :: fds[i] in f.inodes && pos[i] <= f.inodes[fds[i]].size
  }

  /** How much of `count` bytes from `pos` on a file of this size has. */
  function Available(size: nat, pos: nat, count: nat): nat
  {
    if pos >= size then 0 else if count < size - pos then count else size - pos
  }

  /** How far one pass of a copying loop goes: to the end of the block, or of what is left. */
  function Chunk(ofs: nat, left: nat): (n: nat)
    requires left > 0
    ensures 0 < n <= left && ofs % BLK + n <= BLK
  {
    if BLK - ofs % BLK < left then BLK - ofs % BLK else left
  }

  /** The size after a write of `count` bytes at `ofs` of which `total` got through. */
  function NewSize(size: nat, ofs: nat, total: nat, count: nat): nat
  {
    if count > 0 && ofs + total > size then ofs + total else size
  }

  /** At most zeroed blocks that one offset needs appeared. */
  ghost predicate Grew(f: Fs, g: Fs, inum: nat, ofs: nat)
  {
    && Inv(g) && Wrote(f, g, inum, ofs, []) && inum in f.inodes && g.inodes[inum].size == f.inodes[inum].size
    && OnlyNeeded(f.owner, g.owner, inum, ofs / BLK)
  }

  /** Block `idx` of a file goes through address i of its inode. */
  predicate AddrFor(i: nat, idx: nat)
  {
    if i < NDIRECT then i == idx else NDIRECT + (i - NDIRECT) * WORDS <= idx
  }

  /** What an error says: nothing was to be allocated, or nothing could be. */
  ghost predicate GrowErr(r: Err, alloc: bool, f: Fs, g: Fs)
    requires Shape(g)
  {
    !r.Panic? && (r.NotExist? ==> !alloc) && (!alloc ==> g == f && !r.NoRes?) && (r.NoRes? ==> Full(g))
  }

  lemma GrewChain(f: Fs, g: Fs, h: Fs, inum: nat, ofs: nat)
    requires Grew(f, g, inum, ofs) && Grew(g, h, inum, ofs)
    ensures Grew(f, h, inum, ofs)
  {
    var none: seq<nat> := [];
    WroteChain(f, g, h, inum, ofs, none, none);
    assert none + none == none;
  }

  lemma AddrLinked(f: Fs, n: nat, inum: nat, i: nat, ofs: nat)
    requires Inv(f) && n < f.lay.size && !Used(f, n) && inum in f.inodes && i < NDIRECT + NINDIRECT
    requires f.inodes[inum].addrs[i] == 0 && AddrFor(i, ofs / BLK)
    ensures Grew(f, LinkAddr(Alloc(f, n), inum, i, f.lay.data + n), inum, ofs)
  {
    var g := LinkAddr(Alloc(f, n), inum, i, f.lay.data + n);
    AllocKeeps(f, n);
    LinkAddrKeeps(Alloc(f, n), inum, i, f.lay.data + n);
    AllocLow(f, n);
    LowChain(f, Alloc(f, n), g);
    forall m, p: nat | m in f.inodes && p < MAX_FILE_SIZE ensures ByteOk(f, g, inum, ofs, [], m, p) {
      AddrView(f, n, inum, i, m, p);
    }
  }

  lemma EntryLinked(f: Fs, n: nat, inum: nat, k: nat, e: nat, ofs: nat)
    requires Inv(f) && n < f.lay.size && !Used(f, n) && inum in f.inodes && k < NINDIRECT && e < WORDS
    requires Content(f, Indirect(inum, k)) != 0 && Content(f, Entry(inum, k, e)) == 0
    requires ofs < MAX_FILE_SIZE && DataSlot(inum, ofs / BLK) == Entry(inum, k, e)
    ensures Shape(Alloc(f, n)) && f.inodes[inum].addrs[NDIRECT + k] < |f.blocks|
    ensures f.inodes[inum].addrs[NDIRECT + k] != f.lay.data + n && WordAt(Alloc(f, n).blocks[f.inodes[inum].addrs[NDIRECT + k]], e) == 0
    ensures var g := LinkEntry(Alloc(f, n), inum, k, e, f.lay.data + n);
            Grew(f, g, inum, ofs) && Content(g, Entry(inum, k, e)) == f.lay.data + n
  {
    var h, b := Alloc(f, n), f.lay.data + n;
    AllocKeeps(f, n);
    AllocContent(f, n, Indirect(inum, k));
    AllocContent(f, n, Entry(inum, k, e));
    assert SlotOwns(h, Indirect(inum, k)) && OwnerOk(h, Content(h, Indirect(inum, k)));
    LinkEntryKeeps(h, inum, k, e, b);
    LinkEntryContent(h, inum, k, e, b, Entry(inum, k, e));
    var g := LinkEntry(h, inum, k, e, b);
    AllocLow(f, n);
    LowChain(f, h, g);
    forall m, p: nat | m in f.inodes && p < MAX_FILE_SIZE ensures ByteOk(f, g, inum, ofs, [], m, p) {
      EntryView(f, n, inum, k, e, m, p);
      assert DataSlot(inum, p / BLK) == DataSlot(inum, ofs / BLK) ==> p / BLK == ofs / BLK;
    }
  }

  /** What searching bitmap block k tells about the blocks below. */
  lemma BelowNext(f: Fs, k: nat, size: nat, index: int, b: Block)
    requires Shape(f) && k < f.lay.nb && UsedBelow(f, BITS * k) && size == BitmapBytes(f.lay, k)
    requires -1 <= index < 8 * size && b == f.blocks[f.lay.bmap + k]
    requires forall n: nat | n < (if index < 0 then 8 * size else index) :: BlockBit(b, n)
    ensures index < 0 ==> UsedBelow(f, BITS * (k + 1))
    ensures index >= 0 ==> UsedBelow(f, BITS * k + index)
  {
    forall m: nat | m < (if index < 0 then BITS * (k + 1) else BITS * k + index) && Allocatable(f.lay, m)
      ensures m < f.lay.size && Used(f, m)
    {
      if m >= BITS * k {
        assert m / BITS == k && m % BITS == m - BITS * k;
        assert BlockBit(b, m - BITS * k);
      }
    }
  }

  lemma BlockInRange(f: Fs, inum: nat, idx: nat)
    requires Inv(f) && inum in f.inodes && idx < FILE_BLKS && BlockOf(f, inum, idx) != 0
    ensures InData(f.lay, BlockOf(f, inum, idx)) && BlockOf(f, inum, idx) < |f.blocks|
    ensures BlockOf(f, inum, idx) in f.owner && f.owner[BlockOf(f, inum, idx)] == DataSlot(inum, idx)
  {
    assert SlotOwns(f, DataSlot(inum, idx)) && OwnerOk(f, BlockOf(f, inum, idx));
  }

  /** A stretch of one block is a stretch of the file. */
  lemma SameBlock(f: Fs, inum: nat, ofs: nat, buf: seq<nat>)
    requires Inv(f) && inum in f.inodes && ofs < MAX_FILE_SIZE && BlockOf(f, inum, ofs / BLK) != 0
    requires ofs % BLK + |buf| <= BLK && BlockOf(f, inum, ofs / BLK) < |f.blocks|
    requires buf == f.blocks[BlockOf(f, inum, ofs / BLK)][ofs % BLK..ofs % BLK + |buf|]
    ensures forall i: nat | i < |buf| :: ofs + i < MAX_FILE_SIZE && ByteAt(f, inum, ofs + i) == Some(buf[i])
  {
    forall i: nat | i < |buf| ensures ofs + i < MAX_FILE_SIZE && ByteAt(f, inum, ofs + i) == Some(buf[i]) {
      assert (ofs + i) / BLK == ofs / BLK && (ofs + i) % BLK == ofs % BLK + i;
    }
  }

  lemma PutWrote(f: Fs, inum: nat, ofs: nat, src: seq<nat>, x: Block)
    requires Inv(f) && inum in f.inodes && ofs < MAX_FILE_SIZE && BlockOf(f, inum, ofs / BLK) != 0
    requires ofs % BLK + |src| <= BLK && BlockOf(f, inum, ofs / BLK) < |f.blocks|
    requires forall i | 0 <= i < |src| :: src[i] < 256
    requires x == Splice(f.blocks[BlockOf(f, inum, ofs / BLK)], ofs % BLK, src)
    ensures Inv(PutBlock(f, BlockOf(f, inum, ofs / BLK), x))
    ensures Wrote(f, PutBlock(f, BlockOf(f, inum, ofs / BLK), x), inum, ofs, src)
  {
    var idx := ofs / BLK;
    BlockInRange(f, inum, idx);
    var b := BlockOf(f, inum, idx);
    assert IsBlock(x);
    PutBlockKeeps(f, b, x);
    var g := PutBlock(f, b, x);
    forall m, p: nat | m in f.inodes && p < MAX_FILE_SIZE ensures ByteOk(f, g, inum, ofs, src, m, p) {
      PutView(f, inum, idx, x, m, p);
      assert p / BLK == idx ==> ofs - p == ofs % BLK - p % BLK;
      assert ofs <= p < ofs + |src| ==> p / BLK == idx;
    }
  }

  /** The size field plays no part in where bytes are. */
  lemma SizeKeeps(f: Fs, g: Fs, inum: nat, ofs: nat, src: seq<nat>, size: nat)
    requires Inv(g) && Wrote(f, g, inum, ofs, src) && inum in g.inodes && size <= MAX_FILE_SIZE
    ensures var h := g.(inodes := g.inodes[inum := g.inodes[inum].(size := size)]); Inv(h) && Wrote(f, h, inum, ofs, src)
  {
    var h := g.(inodes := g.inodes[inum := g.inodes[inum].(size := size)]);
    SizeInv(g, inum, size);
    LowChain(f, g, h);
    forall m, p: nat | m in f.inodes && p < MAX_FILE_SIZE ensures ByteOk(f, h, inum, ofs, src, m, p) {
      assert ByteOk(f, g, inum, ofs, src, m, p);
      assert ByteAt(h, m, p) == ByteAt(g, m, p);
    }
  }

  lemma SizeInv(g: Fs, inum: nat, size: nat)
    requires Inv(g) && inum in g.inodes && size <= MAX_FILE_SIZE
    ensures Inv(g.(inodes := g.inodes[inum := g.inodes[inum].(size := size)]))
  {
    var h := g.(inodes := g.inodes[inum := g.inodes[inum].(size := size)]);
    forall s | SlotOk(h, s) ensures SlotOwns(h, s) {
      assert SlotOk(g, s) && SlotOwns(g, s);
    }
    forall b | b in h.owner ensures OwnerOk(h, b) {
      assert OwnerOk(g, b);
    }
    forall n: nat | n < h.lay.size ensures BitOk(h, None, n) {
      assert BitOk(g, None, n);
    }
  }

  /** No block was given up, so a full device stays full. */
  lemma FullKept(f: Fs, g: Fs)
    requires Inv(f) && Inv(g) && g.lay == f.lay && f.owner.Keys <= g.owner.Keys
    ensures Full(f) ==> Full(g)
  {
    if Full(f) {
      forall m: nat | m < BITS * g.lay.nb && Allocatable(g.lay, m) ensures m < g.lay.size && Used(g, m) {
        assert BitOk(f, None, m) && BitOk(g, None, m);
      }
    }
  }

  lemma FullFrame(f: Fs, g: Fs)
    requires Shape(f) && Shape(g) && g.lay == f.lay && g.blocks == f.blocks
    ensures Full(f) ==> Full(g)
  {
    assert forall m: nat | m < f.lay.size :: Used(f, m) == Used(g, m);
  }

  /** A write that starts within the file leaves no hole, and no other file notices. */
  lemma WroteNoHoles(f: Fs, g: Fs, inum: nat, ofs: nat, src: seq<nat>, m: nat)
    requires Wrote(f, g, inum, ofs, src) && inum in f.inodes && m in f.inodes && NoHoles(f, m)
    requires m == inum ==> ofs <= f.inodes[m].size && g.inodes[m].size <= (if ofs + |src| > f.inodes[m].size then ofs + |src| else f.inodes[m].size)
    ensures NoHoles(g, m)
  {
    forall p: nat | p < g.inodes[m].size ensures ByteAt(g, m, p).Some? {
      assert ByteOk(f, g, inum, ofs, src, m, p);
    }
  }

  lemma ReadBack(f: Fs, g: Fs, inum: nat, ofs: nat, src: seq<nat>)
    requires Wrote(f, g, inum, ofs, src) && inum in f.inodes
    ensures forall i: nat | i < |src| && ofs + i < MAX_FILE_SIZE :: ByteAt(g, inum, ofs + i) == Some(src[i])
  {
    forall i: nat | i < |src| && ofs + i < MAX_FILE_SIZE ensures ByteAt(g, inum, ofs + i) == Some(src[i]) {
      assert ByteOk(f, g, inum, ofs, src, inum, ofs + i);
    }
  }

  // --- Files as independent byte arrays ---

  /** No file has a hole. */
  ghost predicate Solid(f: Fs)
  {
    Shape(f) && forall m | m in f.inodes :: NoHoles(f, m)
  }

  /** The bytes of every file. */
  ghost function Files(f: Fs): map<nat, seq<nat>>
    requires Solid(f)
  {
    map m | m in f.inodes :: Contents(f, m)
  }

  ghost function Contents(f: Fs, m: nat): (c: seq<nat>)
    requires Shape(f) && m in f.inodes && NoHoles(f, m)
    ensures |c| == f.inodes[m].size
  {
    seq(f.inodes[m].size, p requires 0 <= p < f.inodes[m].size => ByteAt(f, m, p).value)
  }

  /** A write on plain byte arrays: one file changes, and may grow at its end. */
  ghost function Stored(files: map<nat, seq<nat>>, m: nat, pos: nat, src: seq<nat>): map<nat, seq<nat>>
  {
    if m in files && pos <= |files[m]| then files[m := Overwrite(files[m], pos, src)] else files
  }

  ghost function Overwrite(c: seq<nat>, pos: nat, src: seq<nat>): seq<nat>
    requires pos <= |c|
  {
    c[..pos] + src + (if pos + |src| < |c| then c[pos + |src|..] else [])
  }

  lemma WroteFiles(f: Fs, g: Fs, inum: nat, pos: nat, src: seq<nat>)
    requires Wrote(f, g, inum, pos, src) && Solid(f) && inum in f.inodes && pos <= f.inodes[inum].size
    requires g.inodes[inum].size == if pos + |src| > f.inodes[inum].size then pos + |src| else f.inodes[inum].size
    ensures Solid(g) && Files(g) == Stored(Files(f), inum, pos, src)
  {
    WroteSolid(f, g, inum, pos, src);
    var before, after := Files(f), Files(g);
    forall m | m in g.inodes ensures after[m] == if m == inum then Overwrite(before[m], pos, src) else before[m] {
      WroteContents(f, g, inum, pos, src, m);
    }
    SameFiles(before, after, inum, pos, src);
  }

  lemma SameFiles(before: map<nat, seq<nat>>, after: map<nat, seq<nat>>, inum: nat, pos: nat, src: seq<nat>)
    requires after.Keys == before.Keys && inum in before && pos <= |before[inum]|
    requires forall m | m in after :: after[m] == if m == inum then Overwrite(before[m], pos, src) else before[m]
    ensures after == Stored(before, inum, pos, src)
  {
  }

  lemma WroteSolid(f: Fs, g: Fs, inum: nat, pos: nat, src: seq<nat>)
    requires Wrote(f, g, inum, pos, src) && Solid(f) && inum in f.inodes && pos <= f.inodes[inum].size
    requires g.inodes[inum].size == if pos + |src| > f.inodes[inum].size then pos + |src| else f.inodes[inum].size
    ensures Solid(g)
  {
    forall m | m in g.inodes ensures NoHoles(g, m) {
      WroteNoHoles(f, g, inum, pos, src, m);
    }
  }

  lemma ReadSlice(f: Fs, m: nat, pos: nat, out: seq<nat>)
    requires Solid(f) && m in f.inodes && pos + |out| <= f.inodes[m].size
    requires forall i: nat | i < |out| :: ByteAt(f, m, pos + i) == Some(out[i])
    ensures out == Files(f)[m][pos..pos + |out|]
  {
    var c := Contents(f, m);
    forall i: nat | i < |out| ensures out[i] == c[pos..pos + |out|][i] {
      assert ByteAt(f, m, pos + i) == Some(out[i]);
    }
  }

  lemma WroteContents(f: Fs, g: Fs, inum: nat, pos: nat, src: seq<nat>, m: nat)
    requires Wrote(f, g, inum, pos, src) && inum in f.inodes && m in f.inodes && NoHoles(f, m) && NoHoles(g, m)
    requires pos <= f.inodes[inum].size
    requires g.inodes[inum].size == if pos + |src| > f.inodes[inum].size then pos + |src| else f.inodes[inum].size
    ensures Contents(g, m) == if m == inum then Overwrite(Contents(f, m), pos, src) else Contents(f, m)
  {
    if m == inum {
      WroteSelf(f, g, m, pos, src);
    } else {
      forall p: nat | p < f.inodes[m].size ensures Contents(g, m)[p] == Contents(f, m)[p] {
        assert ByteOk(f, g, inum, pos, src, m, p);
      }
    }
  }

  lemma WroteSelf(f: Fs, g: Fs, m: nat, pos: nat, src: seq<nat>)
    requires Wrote(f, g, m, pos, src) && m in f.inodes && NoHoles(f, m) && NoHoles(g, m) && pos <= f.inodes[m].size
    requires g.inodes[m].size == if pos + |src| > f.inodes[m].size then pos + |src| else f.inodes[m].size
    ensures Contents(g, m) == Overwrite(Contents(f, m), pos, src)
  {
    var c, d := Contents(f, m), Contents(g, m);
    assert forall p: nat | p < |d| :: d[p] == if pos <= p < pos + |src| then src[p - pos] else c[p] by {
      forall p: nat | p < |d| ensures d[p] == if pos <= p < pos + |src| then src[p - pos] else c[p] {
        assert ByteOk(f, g, m, pos, src, m, p);
        assert ByteAt(g, m, p).Some? && (p < |c| ==> ByteAt(f, m, p).Some?);
      }
    }
    Overwritten(c, d, pos, src);
  }

  lemma Overwritten(c: seq<nat>, d: seq<nat>, pos: nat, src: seq<nat>)
    requires pos <= |c| && |d| == if pos + |src| > |c| then pos + |src| else |c|
    requires forall p: nat | p < |d| :: d[p] == if pos <= p < pos + |src| then src[p - pos] else c[p]
    ensures d == Overwrite(c, pos, src)
  {
  }
}
