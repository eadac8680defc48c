/** The kernel mounts a built image: it finds each inode in the table, and through it the file. */
module Mount {
  import opened Basics
  import opened SfsBlocks
  import opened SfsState
  import opened Sfs
  import opened SfsInode
  import opened Mkfs
  import opened SfsSpace

  /** The record of a file in the table; new files have one link and no mode. */
  function Record(node: Inode, ftype: nat): DiskInode
  {
    DiskInode(ftype, 0, 1, node.size, node.addrs)
  }

  /** Inode numbers and types that the table can hold. */
  ghost predicate TableOk(inums: set<nat>, types: map<nat, nat>)
  {
    forall m | m in inums :: 0 < m <= 256 && m in types && types[m] < 256
  }

  lemma RecordOk(f: Fs, m: nat, ftype: nat)
    requires Inv(f) && m in f.inodes && ftype < 256
    ensures DiskOk(Record(f.inodes[m], ftype))
  {
    forall i: nat | i < ADDRS ensures f.inodes[m].addrs[i] < 0x1_0000_0000 {
      var s := AddrSlot(m, i);
      assert SlotOwns(f, s);
      assert Content(f, s) in f.owner ==> OwnerOk(f, Content(f, s));
    }
  }

  /** The two states differ only in blocks before the bitmap. */
  ghost predicate SameData(f: Fs, g: Fs)
  {
    && Shape(f) && Shape(g) && g.lay == f.lay && g.inodes == f.inodes && g.owner == f.owner && |g.blocks| == |f.blocks|
    && forall b | f.lay.bmap <= b < |f.blocks| :: g.blocks[b] == f.blocks[b]
  }

  lemma SameContent(f: Fs, g: Fs, s: Slot)
    requires Inv(f) && SameData(f, g) && SlotOk(f, s)
    ensures SlotOk(g, s) && Content(g, s) == Content(f, s)
  {
    if s.Entry? {
      var t := Indirect(s.inum, s.k);
      assert SlotOwns(f, t);
      assert Content(f, t) in f.owner ==> OwnerOk(f, Content(f, t));
      ContentFrame(f, g, s);
    }
  }

  lemma SameInv(f: Fs, g: Fs)
    requires Inv(f) && SameData(f, g)
    ensures Inv(g)
  {
    forall s | SlotOk(g, s) ensures SlotOwns(g, s) {
      assert SlotOk(f, s) && SlotOwns(f, s);
      SameContent(f, g, s);
    }
    forall b | b in g.owner ensures OwnerOk(g, b) {
      assert OwnerOk(f, b);
      SameContent(f, g, f.owner[b]);
    }
    forall n: nat | n < g.lay.size ensures BitOk(g, None, n) {
      assert BitOk(f, None, n);
      BitmapApart(f, n);
    }
  }

  lemma SameTight(f: Fs, g: Fs)
    requires SameData(f, g)
    ensures Tight(f) ==> Tight(g)
  {
    forall b | b in g.owner && Tight(f) ensures OwnerFits(g, 0, 0, b) {
      assert OwnerFits(f, 0, 0, b);
    }
  }

  lemma SameByte(f: Fs, g: Fs, m: nat, p: nat)
    requires Inv(f) && SameData(f, g) && m in f.inodes && p < MAX_FILE_SIZE
    ensures ByteAt(g, m, p) == ByteAt(f, m, p)
  {
    var s := DataSlot(m, p / BLK);
    SameContent(f, g, s);
    assert SlotOwns(f, s);
    assert Content(f, s) in f.owner ==> OwnerOk(f, Content(f, s));
    ByteFrame(f, g, m, p);
  }

  lemma SameContents(f: Fs, g: Fs, m: nat)
    requires Inv(f) && SameData(f, g) && m in f.inodes && NoHoles(f, m)
    ensures NoHoles(g, m) && Contents(g, m) == Contents(f, m)
  {
    forall p: nat | p < f.inodes[m].size ensures ByteAt(g, m, p) == ByteAt(f, m, p) {
      SameByte(f, g, m, p);
    }
  }

  /** The inode table can change under the files. */
  lemma SameFiles(f: Fs, g: Fs)
    requires Inv(f) && Solid(f) && SameData(f, g)
    ensures Inv(g) && Solid(g) && Files(g) == Files(f) && (Tight(f) ==> Tight(g))
  {
    SameInv(f, g);
    SameTight(f, g);
    forall m | m in f.inodes ensures NoHoles(g, m) && Contents(g, m) == Contents(f, m) {
      SameContents(f, g, m);
    }
  }

  /** These inodes are in the table as they are in memory, with their types, one link and no mode. */
  ghost predicate Written(f: Fs, types: map<nat, nat>, done: set<nat>)
    requires Shape(f) && f.lay == IMAGE && done <= f.inodes.Keys && TableOk(done, types)
  {
    forall m | m in done :: OnDisk(ReadInode(f.blocks, m), f.inodes[m], types[m])
  }

  ghost predicate OnDisk(d: DiskInode, node: Inode, ftype: nat)
  {
    d.ftype == ftype && d.mode == 0 && d.nlink == 1 && d.size == node.size && d.addrs == node.addrs
  }

  ghost function PutInode(f: Fs, n: nat, d: DiskInode): Fs
    requires Shape(f) && f.lay == IMAGE && 0 < n <= MAX_INODES && DiskOk(d)
  {
    f.(blocks := WriteInode(f.blocks, n, d))
  }

  lemma PutInodeData(f: Fs, n: nat, d: DiskInode)
    requires Shape(f) && f.lay == IMAGE && 0 < n <= MAX_INODES && DiskOk(d)
    ensures SameData(f, PutInode(f, n, d))
  {
    ReadWritten(f.blocks, n, d, n);
  }

  lemma PutInodeWritten(f: Fs, types: map<nat, nat>, done: set<nat>, n: nat)
    requires Inv(f) && f.lay == IMAGE && n in f.inodes && done <= f.inodes.Keys
    requires TableOk(done, types) && TableOk({n}, types) && Written(f, types, done)
    ensures n in types && DiskOk(Record(f.inodes[n], types[n])) && 0 < n <= MAX_INODES
    ensures SameData(f, PutInode(f, n, Record(f.inodes[n], types[n])))
    ensures Written(PutInode(f, n, Record(f.inodes[n], types[n])), types, done + {n})
  {
    assert n in {n};
    RecordOk(f, n, types[n]);
    var d := Record(f.inodes[n], types[n]);
    var g := PutInode(f, n, d);
    PutInodeData(f, n, d);
    forall m | m in done + {n} ensures ReadInode(g.blocks, m) == Record(g.inodes[m], types[m]) {
      ReadWritten(f.blocks, n, d, m);
    }
  }

  /** `write_inode` of the builder: no file changes, nor any other inode. */
  method WriteOne(image: Image, n: nat, types: map<nat, nat>, ghost done: set<nat>)
    requires image.Valid() && image.lay == IMAGE && n in image.inodes && done <= image.inodes.Keys
    requires TableOk(done, types) && TableOk({n}, types) && Written(image.State(), types, done)
    modifies image`blocks
    ensures image.Valid() && Files(image.State()) == old(Files(image.State()))
    ensures Written(image.State(), types, done + {n})
    ensures var d := ReadInode(image.blocks, n); d.ftype == types[n] && d.mode == 0 && d.nlink == 1
  {
    ghost var f := image.State();
    PutInodeWritten(f, types, done, n);
    SameFiles(f, PutInode(f, n, Record(f.inodes[n], types[n])));
    image.blocks := WriteInode(image.blocks, n, Record(image.inodes[n], types[n]));
    assert image.State() == PutInode(f, n, Record(f.inodes[n], types[n]));
    assert n in done + {n};
  }

  // --- The builder's whole run ---

  /** The inode was written after the last append to its file. */
  ghost predicate Flushed(calls: seq<Call>, n: nat, m: nat)
    requires n <= |calls|
  {
    n > 0 && if calls[n - 1].inum == m then calls[n - 1].Flush? else Flushed(calls, n - 1, m)
  }

  ghost function AllFlushed(calls: seq<Call>, n: nat, inums: set<nat>): set<nat>
    requires n <= |calls|
  {
    set m | m in inums && Flushed(calls, n, m)
  }

  lemma FlushedNext(calls: seq<Call>, i: nat, inums: set<nat>)
    requires i < |calls| && calls[i].inum in inums
    ensures AllFlushed(calls, i + 1, inums) ==
      if calls[i].Flush? then AllFlushed(calls, i, inums) + {calls[i].inum} else AllFlushed(calls, i, inums) - {calls[i].inum}
  {
  }

  /** An append leaves the records of the other files right. */
  lemma WrittenKept(f: Fs, g: Fs, types: map<nat, nat>, done: set<nat>, inum: nat)
    requires Shape(f) && Shape(g) && f.lay == g.lay == IMAGE && done <= f.inodes.Keys && g.inodes.Keys == f.inodes.Keys
    requires TableOk(done, types) && Written(f, types, done) && LowKept(f, g) && inum in f.inodes
    requires forall m | m in g.inodes && m != inum :: g.inodes[m] == f.inodes[m]
    ensures Written(g, types, done - {inum})
  {
    forall m | m in done - {inum} ensures ReadInode(g.blocks, m) == Record(g.inodes[m], types[m]) {
      assert LowSame(f, g, InumToBlk(m));
      assert OnDisk(ReadInode(f.blocks, m), f.inodes[m], types[m]);
    }
  }

  /** The image after the first i calls. */
  ghost predicate Built(f: Fs, types: map<nat, nat>, calls: seq<Call>, i: nat)
  {
    && Inv(f) && Solid(f) && Tight(f) && f.lay == IMAGE && i <= |calls| && TableOk(f.inodes.Keys, types)
    && Holds(Files(f), calls, i) && Written(f, types, AllFlushed(calls, i, f.inodes.Keys))
  }

  method AppendNext(image: Image, calls: seq<Call>, i: nat, types: map<nat, nat>) returns (ok: bool)
    requires Built(image.State(), types, calls, i) && i < |calls| && calls[i].Append? && CallOk(calls[i], image.inodes.Keys)
    modifies image
    ensures ok ==> Built(image.State(), types, calls, i + 1) && image.inodes.Keys == old(image.inodes.Keys)
    ensures !ok ==> TooLong(calls) || Demand(Lengths(calls, old(image.inodes.Keys)), MAX_INODES + 1) > FS_SIZE
  {
    ghost var f := image.State();
    var inum := calls[i].inum;
    ok := image.InodeAppend(inum, calls[i].data);
    if ok {
      AppendBuilt(f, image.State(), types, calls, i);
    } else {
      GaveUp(f, image.State(), calls, i, MAX_INODES + 1);
    }
  }

  lemma AppendBuilt(f: Fs, g: Fs, types: map<nat, nat>, calls: seq<Call>, i: nat)
    requires Built(f, types, calls, i) && i < |calls| && calls[i].Append? && calls[i].inum in f.inodes
    requires Inv(g) && Solid(g) && Tight(g) && g.lay == f.lay && LowKept(f, g)
    requires Files(g) == Files(f)[calls[i].inum := Files(f)[calls[i].inum] + calls[i].data]
    requires forall m | m in g.inodes && m != calls[i].inum :: m in f.inodes && g.inodes[m] == f.inodes[m]
    ensures Built(g, types, calls, i + 1) && g.inodes.Keys == f.inodes.Keys
  {
    SameKeys(f, g, calls[i].inum, Files(f)[calls[i].inum] + calls[i].data);
    HoldsNext(Files(f), Files(g), calls, i);
    WrittenNext(f, g, types, calls, i);
  }

  lemma SameKeys(f: Fs, g: Fs, m: nat, c: seq<nat>)
    requires Solid(f) && Solid(g) && m in f.inodes && Files(g) == Files(f)[m := c]
    ensures g.inodes.Keys == f.inodes.Keys
  {
    assert Files(g).Keys == g.inodes.Keys && Files(f).Keys == f.inodes.Keys;
  }

  lemma WrittenNext(f: Fs, g: Fs, types: map<nat, nat>, calls: seq<Call>, i: nat)
    requires i < |calls| && calls[i].Append? && calls[i].inum in f.inodes && TableOk(f.inodes.Keys, types)
    requires Shape(f) && Shape(g) && f.lay == g.lay == IMAGE && g.inodes.Keys == f.inodes.Keys && LowKept(f, g)
    requires Written(f, types, AllFlushed(calls, i, f.inodes.Keys))
    requires forall m | m in g.inodes && m != calls[i].inum :: g.inodes[m] == f.inodes[m]
    ensures Written(g, types, AllFlushed(calls, i + 1, g.inodes.Keys))
  {
    FlushedNext(calls, i, f.inodes.Keys);
    WrittenKept(f, g, types, AllFlushed(calls, i, f.inodes.Keys), calls[i].inum);
  }

  method FlushNext(image: Image, calls: seq<Call>, i: nat, types: map<nat, nat>)
    requires Built(image.State(), types, calls, i) && i < |calls| && calls[i].Flush? && calls[i].inum in image.inodes
    modifies image`blocks
    ensures Built(image.State(), types, calls, i + 1)
  {
    ghost var inum, done := calls[i].inum, AllFlushed(calls, i, image.inodes.Keys);
    WriteOne(image, calls[i].inum, types, done);
    FlushedNext(calls, i, image.inodes.Keys);
    assert forall m: nat :: Appended(calls, i + 1, m) == Appended(calls, i, m) + [];
  }

  method BuildNext(image: Image, calls: seq<Call>, i: nat, types: map<nat, nat>) returns (ok: bool)
    requires Built(image.State(), types, calls, i) && i < |calls| && CallOk(calls[i], image.inodes.Keys)
    modifies image
    ensures ok ==> Built(image.State(), types, calls, i + 1) && image.inodes.Keys == old(image.inodes.Keys)
    ensures !ok ==> TooLong(calls) || Demand(Lengths(calls, old(image.inodes.Keys)), MAX_INODES + 1) > FS_SIZE
  {
    if calls[i].Append? {
      ok := AppendNext(image, calls, i, types);
    } else {
      FlushNext(image, calls, i, types);
      ok := true;
    }
  }

  /**
   * Any sequence of appends and inode writes; false if an append gave up. It
   * does exactly if a file gets too long or the files need too many blocks.
   */
  method Build(image: Image, calls: seq<Call>, types: map<nat, nat>) returns (ok: bool)
    requires Built(image.State(), types, calls, 0)
    requires forall i | 0 <= i < |calls| :: CallOk(calls[i], image.inodes.Keys)
    modifies image
    ensures ok ==> Built(image.State(), types, calls, |calls|) && image.inodes.Keys == old(image.inodes.Keys)
    ensures ok <==> !TooLong(calls) && Demand(Lengths(calls, old(image.inodes.Keys)), MAX_INODES + 1) <= FS_SIZE
  {
    ok := BuildAll(image, calls, types, image.inodes.Keys);
    if ok {
      BuiltFits(image.State(), calls, MAX_INODES + 1);
    }
  }

  method BuildAll(image: Image, calls: seq<Call>, types: map<nat, nat>, ghost inums: set<nat>) returns (ok: bool)
    requires Built(image.State(), types, calls, 0) && image.inodes.Keys == inums
    requires forall i | 0 <= i < |calls| :: CallOk(calls[i], inums)
    modifies image
    ensures ok ==> Built(image.State(), types, calls, |calls|) && image.inodes.Keys == inums
    ensures !ok ==> TooLong(calls) || Demand(Lengths(calls, inums), MAX_INODES + 1) > FS_SIZE
  {
    for i := 0 to |calls|
      invariant Built(image.State(), types, calls, i) && image.inodes.Keys == inums
    {
      ok := BuildNext(image, calls, i, types);
      if !ok {
        return;
      }
    }
    ok := true;
  }

  /** `sfs_read_inode` for each file. */
  function LoadInodes(blocks: seq<Block>, inums: set<nat>): (inodes: map<nat, Inode>)
    requires forall m | m in inums :: 0 < m && InumToBlk(m) < |blocks| && IsBlock(blocks[InumToBlk(m)])
  {
    map m | m in inums :: var d := ReadInode(blocks, m); Inode(d.addrs, d.size)
  }

  lemma LoadsSame(f: Fs, types: map<nat, nat>)
    requires Shape(f) && f.lay == IMAGE && TableOk(f.inodes.Keys, types) && Written(f, types, f.inodes.Keys)
    ensures LoadInodes(f.blocks, f.inodes.Keys) == f.inodes
  {
    var loaded := LoadInodes(f.blocks, f.inodes.Keys);
    forall m | m in f.inodes ensures loaded[m] == f.inodes[m] {
      assert OnDisk(ReadInode(f.blocks, m), f.inodes[m], types[m]);
    }
  }

  /** The kernel, mounted on nothing but the blocks of an image, reads a file back. */
  method ReadBack(image: Image, types: map<nat, nat>, inum: nat) returns (buf: seq<nat>)
    requires image.Valid() && image.lay == IMAGE && inum in image.inodes && TableOk(image.inodes.Keys, types)
    requires Written(image.State(), types, image.inodes.Keys)
    ensures buf == Files(image.State())[inum]
  {
    LoadsSame(image.State(), types);
    var fs := new Sfs(image.lay, image.blocks, LoadInodes(image.blocks, image.inodes.Keys), [], image.owner);
    assert fs.State() == image.State();
    buf := ReadWhole(fs, inum);
  }

  /**
   * What was appended to a file, in any order with any others, is what the kernel
   * reads from it. The builder gives up exactly if a file would be too long or
   * the files need more blocks than there are.
   */
  method MountAndRead(inums: set<nat>, types: map<nat, nat>, calls: seq<Call>, inum: nat) returns (ok: bool, buf: seq<nat>)
    requires inum in inums && TableOk(inums, types) && forall i | 0 <= i < |calls| :: CallOk(calls[i], inums)
    requires forall m | m in inums :: Flushed(calls, |calls|, m)
    ensures ok <==> !TooLong(calls) && Demand(Lengths(calls, inums), 257) <= 131072
    ensures ok ==> buf == Appended(calls, |calls|, inum)
  {
    var image := new Image(inums);
    buf := [];
    assert Built(image.State(), types, calls, 0);
    ok := Build(image, calls, types);
    if ok {
      assert AllFlushed(calls, |calls|, inums) == inums;
      buf := ReadBack(image, types, inum);
    }
  }

  /** A whole file, read by the kernel. */
  method ReadWhole(fs: Sfs, inum: nat) returns (buf: seq<nat>)
    requires fs.Valid() && Solid(fs.State()) && inum in fs.inodes && fs.oracle == []
    modifies fs
    ensures fs.State() == old(fs.State()) && buf == Files(fs.State())[inum]
  {
    var pos;
    buf, pos := fs.Read(inum, fs.inodes[inum].size, 0);
    ReadSlice(fs.State(), inum, 0, buf);
  }

  /** The kernel's allocator hands out a block of a built image exactly if one is unused, and never one that the builder used. */
  method MountAndAlloc(image: Image) returns (r: Err, blk: nat)
    requires image.Valid()
    ensures r.Ok? <==> !Full(image.State())
    ensures image.lay == IMAGE ==> (r.Ok? <==> exists n: nat :: n < FS_SIZE && !Used(image.State(), n))
    ensures r.Ok? ==> blk !in image.owner && InData(image.lay, blk)
    ensures r.Ok? ==> forall m, idx: nat | m in image.inodes && idx < FILE_BLKS :: blk != BlockOf(image.State(), m, idx)
  {
    var fs := new Sfs(image.lay, image.blocks, image.inodes, [], image.owner);
    r, blk := fs.AllocDataBlock();
    if image.lay == IMAGE {
      FullImage(image.State());
    }
    UnusedUnowned(image.State(), blk - image.lay.data, r.Ok?);
    forall m, idx: nat | r.Ok? && m in image.inodes && idx < FILE_BLKS ensures blk != BlockOf(image.State(), m, idx) {
      assert SlotOwns(image.State(), DataSlot(m, idx));
    }
  }

  /** No block of an image is out of the allocator's reach. */
  lemma FullImage(f: Fs)
    requires Inv(f) && f.lay == IMAGE
    ensures Full(f) <==> forall n: nat | n < FS_SIZE :: Used(f, n)
  {
    forall n: nat ensures Allocatable(f.lay, n) <==> n < FS_SIZE {
      if n < FS_SIZE {
        WholeBytes(f.lay, n);
      }
    }
    if Full(f) {
      forall n: nat | n < FS_SIZE ensures Used(f, n) {
        assert Allocatable(f.lay, n);
      }
    }
  }

  lemma UnusedUnowned(f: Fs, n: int, ok: bool)
    requires Inv(f) && (ok ==> 0 <= n < f.lay.size && !Used(f, n))
    ensures ok ==> f.lay.data + n !in f.owner
  {
    assert ok ==> BitOk(f, None, n);
  }
}
