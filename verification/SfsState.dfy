/**
 * The block layer of the simple file system: inode addresses, indirect blocks,
 * the data bitmap, and who owns each data block.
 */
module SfsState {
  import opened Basics
  import opened SfsBlocks

  const NDIRECT := 12
  const NINDIRECT := 2
  const FILE_BLKS := NDIRECT + NINDIRECT * WORDS
  const MAX_FILE_SIZE := FILE_BLKS * BLK

  /** Where the bitmap and the data blocks lie; the journal lies between them. */
  datatype Layout = Layout(bmap: nat, nb: nat, data: nat, size: nat)

  datatype Inode = Inode(addrs: seq<nat>, size: nat)

  /** A place that can hold the number of a data block. */
  datatype Slot = Direct(inum: nat, i: nat) | Indirect(inum: nat, k: nat) | Entry(inum: nat, k: nat, e: nat)

  /** `owner` maps each allocated data block to the slot that holds its number. */
  datatype Fs = Fs(lay: Layout, blocks: seq<Block>, inodes: map<nat, Inode>, owner: map<nat, Slot>)

  predicate LayoutOk(l: Layout)
  {
    && 0 < l.nb && 0 < l.bmap && l.bmap + l.nb <= l.data && BITS * (l.nb - 1) <= l.size <= BITS * l.nb
    && l.data + l.size <= 0x1_0000_0000
  }

  ghost predicate Shape(f: Fs)
  {
    && LayoutOk(f.lay) && f.lay.data + f.lay.size <= |f.blocks|
    && (forall b | 0 <= b < |f.blocks| :: IsBlock(f.blocks[b]))
    && (forall n | n in f.inodes :: |f.inodes[n].addrs| == NDIRECT + NINDIRECT && f.inodes[n].size <= MAX_FILE_SIZE)
  }

  ghost predicate SlotOk(f: Fs, s: Slot)
  {
    && s.inum in f.inodes && |f.inodes[s.inum].addrs| == NDIRECT + NINDIRECT
    && match s
       case Direct(_, i) => i < NDIRECT
       case Indirect(_, k) => k < NINDIRECT
       case Entry(_, k, e) => k < NINDIRECT && e < WORDS
  }

  /** The number in the slot; 0 says that there is no block. */
  ghost function Content(f: Fs, s: Slot): nat
    requires SlotOk(f, s)
  {
    match s
    case Direct(n, i) => f.inodes[n].addrs[i]
    case Indirect(n, k) => f.inodes[n].addrs[NDIRECT + k]
    case Entry(n, k, e) =>
      var b := f.inodes[n].addrs[NDIRECT + k];
      if 0 < b < |f.blocks| && |f.blocks[b]| == BLK then WordAt(f.blocks[b], e) else 0
  }

  predicate InData(l: Layout, b: nat)
  {
    l.data <= b < l.data + l.size
  }

  /** The bitmap bit of data block `data + n` is set. */
  ghost predicate Used(f: Fs, n: nat)
    requires Shape(f) && n < f.lay.size
  {
    BlockBit(f.blocks[f.lay.bmap + n / BITS], n % BITS)
  }

  ghost predicate SlotOwns(f: Fs, s: Slot)
    requires SlotOk(f, s)
  {
    var b := Content(f, s); b != 0 ==> b in f.owner && f.owner[b] == s
  }

  ghost predicate OwnerOk(f: Fs, b: nat)
    requires b in f.owner
  {
    InData(f.lay, b) && SlotOk(f, f.owner[b]) && Content(f, f.owner[b]) == b
  }

  /** Exactly the owned blocks, and `extra` while it is being linked, have their bit set. */
  ghost predicate BitOk(f: Fs, extra: Option<nat>, n: nat)
    requires Shape(f) && n < f.lay.size
  {
    Used(f, n) <==> f.lay.data + n in f.owner || extra == Some(f.lay.data + n)
  }

  ghost predicate InvX(f: Fs, extra: Option<nat>)
  {
    && Shape(f)
    && (forall s {:trigger SlotOwns(f, s)} | SlotOk(f, s) :: SlotOwns(f, s))
    && (forall b {:trigger OwnerOk(f, b)} | b in f.owner :: OwnerOk(f, b))
    && (forall n: nat {:trigger BitOk(f, extra, n)} | n < f.lay.size :: BitOk(f, extra, n))
    && (extra.Some? ==> extra.value !in f.owner && InData(f.lay, extra.value))
  }

  /** Every allocated bit belongs to exactly one slot and every slot's block is allocated. */
  ghost predicate Inv(f: Fs)
  {
    InvX(f, None)
  }

  // --- Files as byte arrays ---

  /** The slot for block `idx` of a file. */
  function DataSlot(inum: nat, idx: nat): (s: Slot)
    requires idx < FILE_BLKS
  {
    if idx < NDIRECT then Direct(inum, idx) else Entry(inum, (idx - NDIRECT) / WORDS, (idx - NDIRECT) % WORDS)
  }

  /** The first block of a file that cannot do without this slot. */
  function First(s: Slot): nat
  {
    match s
    case Direct(_, i) => i
    case Indirect(_, k) => NDIRECT + k * WORDS
    case Entry(_, k, e) => NDIRECT + k * WORDS + e
  }

  /** Only slots that block `idx` of the file or an earlier one needs were filled. */
  ghost predicate OnlyNeeded(before: map<nat, Slot>, after: map<nat, Slot>, inum: nat, idx: nat)
  {
    forall b | b in after :: (b in before && after[b] == before[b]) || (after[b].inum == inum && First(after[b]) <= idx)
  }

  ghost function BlockOf(f: Fs, inum: nat, idx: nat): nat
    requires Shape(f) && inum in f.inodes && idx < FILE_BLKS
  {
    Content(f, DataSlot(inum, idx))
  }

  /** The byte at offset p of a file, if there is a block there. */
  ghost function ByteAt(f: Fs, inum: nat, p: nat): Option<nat>
    requires Shape(f) && inum in f.inodes && p < MAX_FILE_SIZE
  {
    var b := BlockOf(f, inum, p / BLK);
    if 0 < b < |f.blocks| then Some(f.blocks[b][p % BLK]) else None
  }

  /**
   * The same, read off the blocks: twelve addresses lead to data, two more to
   * blocks of 128 addresses each.
   */
  ghost function DiskByte(blocks: seq<Block>, addrs: seq<nat>, p: nat): Option<nat>
    requires |addrs| == 14 && p < 137216 && forall b | 0 <= b < |blocks| :: |blocks[b]| == 512
  {
    var idx := p / 512;
    var at := if idx < 12 then 0 else addrs[12 + (idx - 12) / 128];
    var b := if idx < 12 then addrs[idx] else if 0 < at < |blocks| then Word32(blocks[at], 4 * ((idx - 12) % 128)) else 0;
    if 0 < b < |blocks| then Some(blocks[b][p % 512]) else None
  }

  lemma FileBytes(f: Fs, inum: nat, p: nat)
    requires Shape(f) && inum in f.inodes && p < 137216
    ensures ByteAt(f, inum, p) == DiskByte(f.blocks, f.inodes[inum].addrs, p)
  {
  }

  /** A data block is marked in the bitmap, one bit for each, the first in the lowest bit of the first byte. */
  lemma UsedDigit(f: Fs, n: nat)
    requires Shape(f) && n < f.lay.size
    ensures Used(f, n) <==> f.blocks[f.lay.bmap + n / 4096][n % 4096 / 8] / [1, 2, 4, 8, 16, 32, 64, 128][n % 8] % 2 == 1
  {
    BitmapApart(f, n);
    BlockBitDigit(f.blocks[f.lay.bmap + n / 4096], n % 4096);
  }

  /** All of the file's bytes are in blocks. */
  ghost predicate NoHoles(f: Fs, inum: nat)
    requires Shape(f) && inum in f.inodes
  {
    forall p: nat | p < f.inodes[inum].size :: ByteAt(f, inum, p).Some?
  }

  // --- Steps ---

  ghost function SetUsed(f: Fs, n: nat, on: bool): (r: Fs)
    requires Shape(f) && n < f.lay.size
  {
    var at := f.lay.bmap + n / BITS;
    f.(blocks := f.blocks[at := SetBlockBit(f.blocks[at], n % BITS, on)])
  }

  /** `alloc_data_block`: the bit is set and the block is cleared. */
  ghost function Alloc(f: Fs, n: nat): (r: Fs)
    requires Shape(f) && n < f.lay.size
  {
    var g := SetUsed(f, n, true);
    g.(blocks := g.blocks[f.lay.data + n := Zero()])
  }

  /** A block number is stored in an address of the inode. */
  ghost function LinkAddr(f: Fs, inum: nat, i: nat, b: nat): (r: Fs)
    requires inum in f.inodes && i < |f.inodes[inum].addrs|
  {
    var node := f.inodes[inum];
    f.(inodes := f.inodes[inum := node.(addrs := node.addrs[i := b])],
       owner := f.owner[b := if i < NDIRECT then Direct(inum, i) else Indirect(inum, i - NDIRECT)])
  }

  /** A block number is stored in an entry of an indirect block. */
  ghost function LinkEntry(f: Fs, inum: nat, k: nat, e: nat, b: nat): (r: Fs)
    requires Shape(f) && inum in f.inodes && k < NINDIRECT && e < WORDS && b < 0x1_0000_0000
    requires f.inodes[inum].addrs[NDIRECT + k] < |f.blocks|
  {
    var at := f.inodes[inum].addrs[NDIRECT + k];
    f.(blocks := f.blocks[at := SetWord(f.blocks[at], e, b)], owner := f.owner[b := Entry(inum, k, e)])
  }

  // --- What the steps keep ---

  lemma BitmapApart(f: Fs, n: nat)
    requires Shape(f) && n < f.lay.size
    ensures f.lay.bmap + n / BITS < f.lay.bmap + f.lay.nb <= f.lay.data <= f.lay.data + n < |f.blocks|
  {
  }

  lemma UsedAfterSet(f: Fs, n: nat, on: bool, m: nat)
    requires Shape(f) && n < f.lay.size && m < f.lay.size
    ensures Shape(SetUsed(f, n, on)) && Used(SetUsed(f, n, on), m) == if m == n then on else Used(f, m)
  {
    var at := f.lay.bmap + n / BITS;
    BitmapApart(f, n);
    BitmapApart(f, m);
    BlockBitSet(f.blocks[at], n % BITS, on);
    assert m / BITS == n / BITS && m % BITS == n % BITS ==> m == n;
  }

  /** Slots read the same when only blocks outside the owned ones change. */
  lemma ContentFrame(f: Fs, g: Fs, s: Slot)
    requires Shape(f) && SlotOk(f, s) && g.inodes == f.inodes && |g.blocks| == |f.blocks|
    requires s.Entry? && Content(f, Indirect(s.inum, s.k)) != 0 ==>
      var b := Content(f, Indirect(s.inum, s.k)); b < |f.blocks| && g.blocks[b] == f.blocks[b]
    ensures SlotOk(g, s) && Content(g, s) == Content(f, s)
  {
  }

  lemma AllocContent(f: Fs, n: nat, s: Slot)
    requires Inv(f) && n < f.lay.size && f.lay.data + n !in f.owner && SlotOk(f, s)
    ensures SlotOk(Alloc(f, n), s) && Content(Alloc(f, n), s) == Content(f, s)
  {
    BitmapApart(f, n);
    if s.Entry? {
      var t := Indirect(s.inum, s.k);
      assert SlotOwns(f, t);
      assert Content(f, t) in f.owner ==> OwnerOk(f, Content(f, t));
      ContentFrame(f, Alloc(f, n), s);
    }
  }

  /** Allocating an unused block keeps every slot and leaves just that block to be linked. */
  lemma AllocKeeps(f: Fs, n: nat)
    requires Inv(f) && n < f.lay.size && !Used(f, n)
    ensures InvX(Alloc(f, n), Some(f.lay.data + n))
    ensures f.lay.data + n !in f.owner && Alloc(f, n).blocks[f.lay.data + n] == Zero()
  {
    var g, b := Alloc(f, n), f.lay.data + n;
    assert BitOk(f, None, n);
    AllocUsed(f, n, n);
    forall s | SlotOk(g, s) ensures SlotOwns(g, s) {
      AllocContent(f, n, s);
      assert SlotOwns(f, s);
    }
    forall c | c in g.owner ensures OwnerOk(g, c) {
      assert OwnerOk(f, c);
      AllocContent(f, n, f.owner[c]);
    }
    forall m: nat | m < g.lay.size ensures BitOk(g, Some(b), m) {
      AllocUsed(f, n, m);
      assert BitOk(f, None, m);
    }
  }

  lemma AllocUsed(f: Fs, n: nat, m: nat)
    requires Shape(f) && n < f.lay.size && m < f.lay.size
    ensures Shape(Alloc(f, n)) && Used(Alloc(f, n), m) == (m == n || Used(f, m))
  {
    BitmapApart(f, n);
    BitmapApart(f, m);
    UsedAfterSet(f, n, true, m);
  }

  ghost function AddrSlot(inum: nat, i: nat): Slot
  {
    if i < NDIRECT then Direct(inum, i) else Indirect(inum, i - NDIRECT)
  }

  lemma LinkAddrContent(f: Fs, inum: nat, i: nat, b: nat, s: Slot)
    requires Shape(f) && inum in f.inodes && i < NDIRECT + NINDIRECT && f.inodes[inum].addrs[i] == 0
    requires 0 < b < |f.blocks| && f.blocks[b] == Zero() && SlotOk(f, s)
    ensures var g := LinkAddr(f, inum, i, b);
            SlotOk(g, s) && Content(g, s) == if s == AddrSlot(inum, i) then b else Content(f, s)
  {
    var g := LinkAddr(f, inum, i, b);
    assert forall j | 0 <= j < NDIRECT + NINDIRECT && j != i :: g.inodes[inum].addrs[j] == f.inodes[inum].addrs[j];
  }

  lemma LinkAddrKeeps(f: Fs, inum: nat, i: nat, b: nat)
    requires InvX(f, Some(b)) && inum in f.inodes && i < NDIRECT + NINDIRECT && f.inodes[inum].addrs[i] == 0
    requires f.blocks[b] == Zero()
    ensures Inv(LinkAddr(f, inum, i, b))
  {
    var g := LinkAddr(f, inum, i, b);
    forall s | SlotOk(g, s) ensures SlotOwns(g, s) {
      assert SlotOk(f, s) && SlotOwns(f, s);
      LinkAddrContent(f, inum, i, b, s);
    }
    forall c | c in g.owner ensures OwnerOk(g, c) {
      assert c in f.owner ==> OwnerOk(f, c);
      var s := AddrSlot(inum, i);
      assert c in f.owner && f.owner[c] == s ==> Content(f, s) == c;
      LinkAddrContent(f, inum, i, b, g.owner[c]);
    }
    forall m: nat | m < g.lay.size ensures BitOk(g, None, m) {
      assert BitOk(f, Some(b), m);
    }
  }

  lemma LinkEntryContent(f: Fs, inum: nat, k: nat, e: nat, b: nat, s: Slot)
    requires InvX(f, Some(b)) && inum in f.inodes && k < NINDIRECT && e < WORDS && SlotOk(f, s)
    requires Content(f, Indirect(inum, k)) in f.owner
    ensures f.inodes[inum].addrs[NDIRECT + k] < |f.blocks|
    ensures var g := LinkEntry(f, inum, k, e, b);
            Shape(g) && SlotOk(g, s) && Content(g, s) == if s == Entry(inum, k, e) then b else Content(f, s)
  {
    var at := Content(f, Indirect(inum, k));
    assert OwnerOk(f, at) && SlotOwns(f, Indirect(inum, k));
    if s.Entry? {
      WordOfSetWord(f.blocks[at], e, b, s.e);
      assert SlotOwns(f, Indirect(s.inum, s.k));
    } else {
      WordOfSetWord(f.blocks[at], e, b, 0);
    }
  }

  lemma LinkEntryKeeps(f: Fs, inum: nat, k: nat, e: nat, b: nat)
    requires InvX(f, Some(b)) && inum in f.inodes && k < NINDIRECT && e < WORDS
    requires Content(f, Indirect(inum, k)) in f.owner && Content(f, Entry(inum, k, e)) == 0
    ensures f.inodes[inum].addrs[NDIRECT + k] < |f.blocks|
    ensures Inv(LinkEntry(f, inum, k, e, b))
  {
    var at := Content(f, Indirect(inum, k));
    assert OwnerOk(f, at);
    LinkEntryContent(f, inum, k, e, b, Indirect(inum, k));
    var g := LinkEntry(f, inum, k, e, b);
    forall s | SlotOk(g, s) ensures SlotOwns(g, s) {
      assert SlotOk(f, s) && SlotOwns(f, s);
      LinkEntryContent(f, inum, k, e, b, s);
    }
    forall c | c in g.owner ensures OwnerOk(g, c) {
      assert c in f.owner ==> OwnerOk(f, c);
      LinkEntryContent(f, inum, k, e, b, g.owner[c]);
    }
    forall m: nat | m < g.lay.size ensures BitOk(g, None, m) {
      assert BitOk(f, Some(b), m);
      BitmapApart(f, m);
    }
  }

  /** A block that holds file data is rewritten. */
  ghost function PutBlock(f: Fs, b: nat, x: Block): Fs
    requires b < |f.blocks|
  {
    f.(blocks := f.blocks[b := x])
  }

  lemma PutBlockContent(f: Fs, b: nat, x: Block, s: Slot)
    requires Inv(f) && b in f.owner && !f.owner[b].Indirect? && b < |f.blocks| && IsBlock(x) && SlotOk(f, s)
    ensures SlotOk(PutBlock(f, b, x), s) && Content(PutBlock(f, b, x), s) == Content(f, s)
  {
    if s.Entry? {
      assert SlotOwns(f, Indirect(s.inum, s.k));
    }
  }

  lemma PutBlockKeeps(f: Fs, b: nat, x: Block)
    requires Inv(f) && b in f.owner && !f.owner[b].Indirect? && IsBlock(x)
    ensures b < |f.blocks| && Inv(PutBlock(f, b, x))
  {
    assert OwnerOk(f, b);
    var g := PutBlock(f, b, x);
    forall s | SlotOk(g, s) ensures SlotOwns(g, s) {
      assert SlotOk(f, s) && SlotOwns(f, s);
      PutBlockContent(f, b, x, s);
    }
    forall c | c in g.owner ensures OwnerOk(g, c) {
      assert OwnerOk(f, c);
      PutBlockContent(f, b, x, f.owner[c]);
    }
    forall m: nat | m < g.lay.size ensures BitOk(g, None, m) {
      assert BitOk(f, None, m);
      BitmapApart(f, m);
    }
  }

  // --- What the steps do to files ---

  /** Byte p of file m after `src` was written to file `inum` at `ofs`; blocks that appear are zero. */
  ghost predicate ByteOk(f: Fs, g: Fs, inum: nat, ofs: nat, src: seq<nat>, m: nat, p: nat)
    requires Shape(f) && Shape(g) && m in f.inodes && m in g.inodes && p < MAX_FILE_SIZE
  {
    if m == inum && ofs <= p < ofs + |src| then
      ByteAt(g, m, p) == Some(src[p - ofs])
    else
      || ByteAt(g, m, p) == ByteAt(f, m, p)
      || (&& m == inum && ByteAt(f, m, p) == None && ByteAt(g, m, p) == Some(0)
          && ofs / BLK <= p / BLK <= (ofs + |src|) / BLK)
  }

  /** The blocks before the bitmap, where the inode table is, are the same. */
  ghost predicate LowKept(f: Fs, g: Fs)
  {
    |g.blocks| == |f.blocks| && forall b: nat {:trigger LowSame(f, g, b)} | b < f.lay.bmap :: LowSame(f, g, b)
  }

  ghost predicate LowSame(f: Fs, g: Fs, b: nat)
  {
    b < |f.blocks| && b < |g.blocks| && g.blocks[b] == f.blocks[b]
  }

  lemma LowChain(f: Fs, g: Fs, h: Fs)
    requires LowKept(f, g) && LowKept(g, h) && g.lay == f.lay
    ensures LowKept(f, h)
  {
    forall b: nat | b < f.lay.bmap ensures LowSame(f, h, b) {
      assert LowSame(f, g, b) && LowSame(g, h, b);
    }
  }

  lemma AllocLow(f: Fs, n: nat)
    requires Shape(f) && n < f.lay.size
    ensures LowKept(f, Alloc(f, n))
  {
    BitmapApart(f, n);
  }

  /**
   * `src` was written to file `inum` at `ofs`, nothing else changed in any file
   * or in the inode table, and no block was given up.
   */
  ghost predicate Wrote(f: Fs, g: Fs, inum: nat, ofs: nat, src: seq<nat>)
  {
    && Shape(f) && Shape(g) && g.lay == f.lay && g.inodes.Keys == f.inodes.Keys && f.owner.Keys <= g.owner.Keys
    && LowKept(f, g)
    && (forall m {:trigger f.inodes[m]} {:trigger g.inodes[m]} | m in f.inodes && m != inum :: g.inodes[m] == f.inodes[m])
    && (forall m, p: nat {:trigger ByteOk(f, g, inum, ofs, src, m, p)} | m in f.inodes && p < MAX_FILE_SIZE ::
          ByteOk(f, g, inum, ofs, src, m, p))
  }

  lemma WroteNothing(f: Fs, inum: nat, ofs: nat)
    requires Shape(f)
    ensures Wrote(f, f, inum, ofs, [])
  {
  }

  lemma WroteChain(f: Fs, g: Fs, h: Fs, inum: nat, ofs: nat, a: seq<nat>, b: seq<nat>)
    requires Wrote(f, g, inum, ofs, a) && Wrote(g, h, inum, ofs + |a|, b)
    ensures Wrote(f, h, inum, ofs, a + b)
  {
    LowChain(f, g, h);
    forall m, p: nat | m in f.inodes && p < MAX_FILE_SIZE ensures ByteOk(f, h, inum, ofs, a + b, m, p) {
      assert ByteOk(f, g, inum, ofs, a, m, p) && ByteOk(g, h, inum, ofs + |a|, b, m, p);
    }
  }

  /** Bytes read the same where the slot and its block do. */
  lemma ByteFrame(f: Fs, g: Fs, m: nat, p: nat)
    requires InvX(f, None) && Shape(g) && |g.blocks| == |f.blocks| && m in f.inodes && m in g.inodes && p < MAX_FILE_SIZE
    requires BlockOf(g, m, p / BLK) == BlockOf(f, m, p / BLK)
    requires var b := BlockOf(f, m, p / BLK); b in f.owner && b < |f.blocks| ==> g.blocks[b] == f.blocks[b]
    ensures ByteAt(g, m, p) == ByteAt(f, m, p)
  {
    assert SlotOwns(f, DataSlot(m, p / BLK));
  }

  lemma AllocView(f: Fs, n: nat, m: nat, p: nat)
    requires Inv(f) && n < f.lay.size && !Used(f, n) && m in f.inodes && p < MAX_FILE_SIZE
    ensures Shape(Alloc(f, n)) && ByteAt(Alloc(f, n), m, p) == ByteAt(f, m, p)
  {
    AllocUsed(f, n, n);
    BitmapApart(f, n);
    assert BitOk(f, None, n);
    var s := DataSlot(m, p / BLK);
    AllocContent(f, n, s);
    assert Content(f, s) in f.owner ==> OwnerOk(f, Content(f, s));
    ByteFrame(f, Alloc(f, n), m, p);
  }

  /** A fresh block is linked into the file: its bytes appear, as zeros. */
  lemma AddrView(f: Fs, n: nat, inum: nat, i: nat, m: nat, p: nat)
    requires Inv(f) && n < f.lay.size && !Used(f, n) && m in f.inodes && p < MAX_FILE_SIZE
    requires inum in f.inodes && i < NDIRECT + NINDIRECT && f.inodes[inum].addrs[i] == 0
    ensures var g := LinkAddr(Alloc(f, n), inum, i, f.lay.data + n);
            Shape(g) && ByteAt(g, m, p) == if m == inum && i < NDIRECT && p / BLK == i then Some(0) else ByteAt(f, m, p)
  {
    var h, b := Alloc(f, n), f.lay.data + n;
    var g := LinkAddr(h, inum, i, b);
    AllocUsed(f, n, n);
    AllocView(f, n, m, p);
    BitmapApart(f, n);
    assert h.blocks[b] == Zero();
    LinkAddrContent(h, inum, i, b, DataSlot(m, p / BLK));
  }

  lemma EntryView(f: Fs, n: nat, inum: nat, k: nat, e: nat, m: nat, p: nat)
    requires Inv(f) && n < f.lay.size && !Used(f, n) && m in f.inodes && p < MAX_FILE_SIZE
    requires inum in f.inodes && k < NINDIRECT && e < WORDS
    requires Content(f, Indirect(inum, k)) != 0 && Content(f, Entry(inum, k, e)) == 0
    ensures f.inodes[inum].addrs[NDIRECT + k] < |f.blocks| && Shape(Alloc(f, n))
    ensures var g := LinkEntry(Alloc(f, n), inum, k, e, f.lay.data + n);
            && Shape(g)
            && ByteAt(g, m, p) == if m == inum && DataSlot(m, p / BLK) == Entry(inum, k, e) then Some(0) else ByteAt(f, m, p)
  {
    var h, b, at := Alloc(f, n), f.lay.data + n, Content(f, Indirect(inum, k));
    AllocUsed(f, n, n);
    AllocKeeps(f, n);
    AllocView(f, n, m, p);
    assert SlotOwns(f, Indirect(inum, k)) && OwnerOk(f, at);
    AllocContent(f, n, Indirect(inum, k));
    var s := DataSlot(m, p / BLK);
    LinkEntryContent(h, inum, k, e, b, s);
    assert SlotOwns(h, s) && SlotOwns(h, Indirect(inum, k));
    assert at != b;
  }

  lemma PutView(f: Fs, inum: nat, idx: nat, x: Block, m: nat, p: nat)
    requires Inv(f) && inum in f.inodes && idx < FILE_BLKS && BlockOf(f, inum, idx) != 0 && IsBlock(x)
    requires m in f.inodes && p < MAX_FILE_SIZE
    ensures BlockOf(f, inum, idx) < |f.blocks|
    ensures var g := PutBlock(f, BlockOf(f, inum, idx), x);
            Shape(g) && ByteAt(g, m, p) == if m == inum && p / BLK == idx then Some(x[p % BLK]) else ByteAt(f, m, p)
  {
    var b, s := BlockOf(f, inum, idx), DataSlot(m, p / BLK);
    assert SlotOwns(f, DataSlot(inum, idx)) && OwnerOk(f, b) && SlotOwns(f, s);
    PutBlockKeeps(f, b, x);
    PutBlockContent(f, b, x, s);
    assert m == inum && s == DataSlot(inum, idx) ==> p / BLK == idx;
  }
}
