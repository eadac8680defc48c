/** How many blocks files need: their data blocks and the indirect blocks on the way to them. */
module SfsSpace {
  import opened Basics
  import opened SfsBlocks
  import opened SfsState
  import opened Sfs

  /** The data blocks of a file of this size. */
  function DataBlks(size: nat): nat
  {
    (size + BLK - 1) / BLK
  }

  /** The blocks that a file with d data blocks takes up. */
  function BlksFor(d: nat): nat
  {
    d + if d <= NDIRECT then 0 else (d - NDIRECT + WORDS - 1) / WORDS
  }

  /** The blocks that files of these sizes need, for inode numbers below n. */
  function Demand(sizes: map<nat, nat>, n: nat): nat
  {
    if n == 0 then 0 else Demand(sizes, n - 1) + FileBlks(sizes, n - 1)
  }

  function FileBlks(sizes: map<nat, nat>, m: nat): nat
  {
    if m in sizes then BlksFor(DataBlks(sizes[m])) else 0
  }

  ghost predicate SlotShape(s: Slot)
  {
    match s
    case Direct(_, i) => i < NDIRECT
    case Indirect(_, k) => k < NINDIRECT
    case Entry(_, k, e) => k < NINDIRECT && e < WORDS
  }

  /** The slots that the first d blocks of a file need. */
  ghost function SlotsFor(inum: nat, d: nat): set<Slot>
    requires d <= FILE_BLKS
  {
    if d == 0 then {} else SlotsFor(inum, d - 1) + NewSlots(inum, d - 1)
  }

  /** The slots that no block before `idx` needs. */
  ghost function NewSlots(inum: nat, idx: nat): set<Slot>
    requires idx < FILE_BLKS
  {
    if idx >= NDIRECT && (idx - NDIRECT) % WORDS == 0 then {DataSlot(inum, idx), Indirect(inum, (idx - NDIRECT) / WORDS)}
    else {DataSlot(inum, idx)}
  }

  lemma InNew(inum: nat, idx: nat, s: Slot)
    requires idx < FILE_BLKS
    ensures s in NewSlots(inum, idx) <==> s.inum == inum && SlotShape(s) && First(s) == idx
  {
  }

  lemma {:induction false} InSlots(inum: nat, d: nat, s: Slot)
    requires d <= FILE_BLKS
    ensures s in SlotsFor(inum, d) <==> s.inum == inum && SlotShape(s) && First(s) < d
  {
    if d > 0 {
      InSlots(inum, d - 1, s);
      InNew(inum, d - 1, s);
    }
  }

  lemma {:induction false} SlotCount(inum: nat, d: nat)
    requires d <= FILE_BLKS
    ensures |SlotsFor(inum, d)| == BlksFor(d)
  {
    if d > 0 {
      SlotCount(inum, d - 1);
      MoreFor(inum, d);
      BlksStep(d - 1);
    }
  }

  lemma MoreFor(inum: nat, d: nat)
    requires 0 < d <= FILE_BLKS
    ensures |SlotsFor(inum, d)| == |SlotsFor(inum, d - 1)| + NewBlks(d - 1)
  {
    SlotsApart(inum, d - 1);
    NewCount(inum, d - 1);
    SumSize(SlotsFor(inum, d - 1), NewSlots(inum, d - 1), SlotsFor(inum, d));
  }

  /** The blocks that data block `idx` is the first to need: itself, and at times an indirect block. */
  function NewBlks(idx: nat): nat
  {
    if idx >= NDIRECT && (idx - NDIRECT) % WORDS == 0 then 2 else 1
  }

  lemma NewCount(inum: nat, idx: nat)
    requires idx < FILE_BLKS
    ensures |NewSlots(inum, idx)| == NewBlks(idx)
  {
  }

  lemma SlotsApart(inum: nat, d: nat)
    requires d < FILE_BLKS
    ensures SlotsFor(inum, d) !! NewSlots(inum, d)
  {
    forall s | s in SlotsFor(inum, d) ensures s !in NewSlots(inum, d) {
      InSlots(inum, d, s);
      InNew(inum, d, s);
    }
  }

  lemma BlksStep(d: nat)
    ensures BlksFor(d + 1) == BlksFor(d) + NewBlks(d)
  {
  }

  /** The sizes are sizes of files. */
  ghost predicate SizesOk(sizes: map<nat, nat>)
  {
    forall m | m in sizes :: sizes[m] <= MAX_FILE_SIZE
  }

  ghost function AllSlots(sizes: map<nat, nat>, n: nat): set<Slot>
    requires SizesOk(sizes)
  {
    if n == 0 then {} else AllSlots(sizes, n - 1) + FileSlots(sizes, n - 1)
  }

  ghost function FileSlots(sizes: map<nat, nat>, m: nat): set<Slot>
    requires SizesOk(sizes)
  {
    if m in sizes then SlotsFor(m, DataBlks(sizes[m])) else {}
  }

  lemma {:induction false} InAll(sizes: map<nat, nat>, n: nat, s: Slot)
    requires SizesOk(sizes)
    ensures s in AllSlots(sizes, n) <==>
      s.inum < n && s.inum in sizes && SlotShape(s) && First(s) < DataBlks(sizes[s.inum])
  {
    if n > 0 {
      InAll(sizes, n - 1, s);
      if n - 1 in sizes {
        InSlots(n - 1, DataBlks(sizes[n - 1]), s);
      }
    }
  }

  lemma AllApart(sizes: map<nat, nat>, m: nat)
    requires SizesOk(sizes)
    ensures AllSlots(sizes, m) !! FileSlots(sizes, m)
  {
    forall s | s in AllSlots(sizes, m) ensures s !in FileSlots(sizes, m) {
      InAll(sizes, m, s);
      if m in sizes {
        InSlots(m, DataBlks(sizes[m]), s);
      }
    }
  }

  lemma FileCount(sizes: map<nat, nat>, m: nat)
    requires SizesOk(sizes)
    ensures |FileSlots(sizes, m)| == FileBlks(sizes, m)
  {
    if m in sizes {
      SlotCount(m, DataBlks(sizes[m]));
    }
  }

  lemma {:induction false} AllSlotCount(sizes: map<nat, nat>, n: nat)
    requires SizesOk(sizes)
    ensures |AllSlots(sizes, n)| == Demand(sizes, n)
  {
    if n > 0 {
      AllSlotCount(sizes, n - 1);
      MoreSlots(sizes, n);
      MoreBlks(sizes, n);
    }
  }

  lemma MoreBlks(sizes: map<nat, nat>, n: nat)
    requires n > 0
    ensures Demand(sizes, n) == Demand(sizes, n - 1) + FileBlks(sizes, n - 1)
  {
  }

  lemma MoreSlots(sizes: map<nat, nat>, n: nat)
    requires SizesOk(sizes) && n > 0
    ensures |AllSlots(sizes, n)| == |AllSlots(sizes, n - 1)| + FileBlks(sizes, n - 1)
  {
    AllApart(sizes, n - 1);
    FileCount(sizes, n - 1);
    SumSize(AllSlots(sizes, n - 1), FileSlots(sizes, n - 1), AllSlots(sizes, n));
  }

  lemma SumSize<T>(a: set<T>, b: set<T>, c: set<T>)
    requires a !! b && c == a + b
    ensures |c| == |a| + |b|
  {
  }

  lemma {:induction false} DemandGrows(sizes: map<nat, nat>, more: map<nat, nat>, n: nat)
    requires forall m | m in sizes :: m in more && sizes[m] <= more[m]
    ensures Demand(sizes, n) <= Demand(more, n)
  {
    if n > 0 {
      DemandGrows(sizes, more, n - 1);
      if n - 1 in sizes {
        BlksGrow(DataBlks(sizes[n - 1]), DataBlks(more[n - 1]));
      }
    }
  }

  lemma BlksGrow(d: nat, e: nat)
    requires d <= e
    ensures BlksFor(d) <= BlksFor(e)
  {
  }

  /** Block b is one that its file needs, or would need with `more` bytes if it is file `inum`. */
  ghost predicate OwnerFits(f: Fs, inum: nat, more: nat, b: nat)
    requires b in f.owner
  {
    var m := f.owner[b].inum;
    m in f.inodes && First(f.owner[b]) < DataBlks(f.inodes[m].size + if m == inum then more else 0)
  }

  ghost predicate Fits(f: Fs, inum: nat, more: nat)
  {
    forall b {:trigger OwnerFits(f, inum, more, b)} | b in f.owner :: OwnerFits(f, inum, more, b)
  }

  /** Every block in use is one that some file needs. */
  ghost predicate Tight(f: Fs)
  {
    Fits(f, 0, 0)
  }

  /** With a bitmap of whole bytes the allocator sees every block. */
  lemma FullOwned(f: Fs, n: nat)
    requires Inv(f) && Full(f) && f.lay.size % 8 == 0 && n < f.lay.size
    ensures f.lay.data + n in f.owner
  {
    WholeBytes(f.lay, n);
    assert BitOk(f, None, n);
  }

  lemma WholeBytes(l: Layout, n: nat)
    requires LayoutOk(l) && l.size % 8 == 0 && n < l.size
    ensures Allocatable(l, n)
  {
    BytesLeft(l.size, n);
  }

  lemma BytesLeft(size: nat, n: nat)
    requires size % 8 == 0 && n < size
    ensures n == BITS * (n / BITS) + n % BITS && 0 <= n % BITS < BITS
    ensures 8 * ((size - BITS * (n / BITS)) / 8) == size - BITS * (n / BITS)
  {
    var k, q := n / BITS, size / 8;
    assert size == 8 * q;
    assert size - BITS * k == 8 * (q - BLK * k);
  }

  lemma AllOwned(f: Fs, b: nat)
    requires Inv(f) && Full(f) && f.lay.size % 8 == 0 && f.lay.data <= b < f.lay.data + f.lay.size
    ensures b in f.owner && OwnerOk(f, b)
  {
    FullOwned(f, b - f.lay.data);
  }

  /** The owners of a run of blocks. */
  ghost function Owners(owner: map<nat, Slot>, lo: nat, hi: nat): (r: set<Slot>)
    requires lo <= hi && forall b: nat | lo <= b < hi :: b in owner
    decreases hi
  {
    if hi == lo then {} else Owners(owner, lo, hi - 1) + {owner[hi - 1]}
  }

  lemma {:induction false} InOwners(owner: map<nat, Slot>, lo: nat, hi: nat, s: Slot) returns (b: nat)
    requires lo <= hi && (forall b: nat | lo <= b < hi :: b in owner) && s in Owners(owner, lo, hi)
    ensures lo <= b < hi && s == owner[b]
    decreases hi
  {
    if s == owner[hi - 1] {
      b := hi - 1;
    } else {
      b := InOwners(owner, lo, hi - 1, s);
    }
  }

  lemma {:induction false} OwnerCount(f: Fs, lo: nat, hi: nat)
    requires lo <= hi && (forall b: nat | lo <= b < hi :: b in f.owner)
    requires forall b: nat {:trigger OwnerOk(f, b)} | lo <= b < hi :: OwnerOk(f, b)
    ensures |Owners(f.owner, lo, hi)| == hi - lo
    decreases hi
  {
    if lo < hi {
      OwnerCount(f, lo, hi - 1);
      OwnerNew(f, lo, hi - 1);
    }
  }

  lemma OwnerNew(f: Fs, lo: nat, hi: nat)
    requires lo <= hi && (forall b: nat | lo <= b <= hi :: b in f.owner)
    requires forall b: nat {:trigger OwnerOk(f, b)} | lo <= b <= hi :: OwnerOk(f, b)
    ensures f.owner[hi] !in Owners(f.owner, lo, hi)
  {
    forall b: nat | lo <= b < hi ensures f.owner[b] != f.owner[hi] {
      assert OwnerOk(f, b) && OwnerOk(f, hi);
    }
    if f.owner[hi] in Owners(f.owner, lo, hi) {
      var b := InOwners(f.owner, lo, hi, f.owner[hi]);
    }
  }

  /** No block is left, and the next byte of the file needs one. */
  ghost predicate Stuck(f: Fs, inum: nat)
  {
    && Inv(f) && Full(f) && inum in f.inodes && f.inodes[inum].size < MAX_FILE_SIZE
    && BlockOf(f, inum, f.inodes[inum].size / BLK) == 0
    && Fits(f, inum, 1)
  }

  ghost function Sizes(f: Fs): map<nat, nat>
  {
    map m | m in f.inodes :: f.inodes[m].size
  }

  /** Blocks that the next byte of a file needs are ones that the longer file needs. */
  lemma FitsMore(f: Fs, g: Fs, inum: nat, more: nat)
    requires Tight(f) && inum in f.inodes && OnlyNeeded(f.owner, g.owner, inum, f.inodes[inum].size / BLK)
    requires g.inodes.Keys == f.inodes.Keys && forall m | m in f.inodes && m != inum :: g.inodes[m].size == f.inodes[m].size
    requires f.inodes[inum].size < g.inodes[inum].size + more
    ensures Fits(g, inum, more)
  {
    forall b | b in g.owner ensures OwnerFits(g, inum, more, b) {
      assert b in f.owner ==> OwnerFits(f, 0, 0, b);
    }
  }

  /** An append of n bytes stopped before its end, for want of a block. */
  ghost predicate Stopped(f: Fs, g: Fs, inum: nat, n: nat)
  {
    && Stuck(g, inum) && g.lay == f.lay && g.inodes.Keys == f.inodes.Keys
    && g.inodes[inum].size < f.inodes[inum].size + n
    && forall m | m in f.inodes && m != inum :: g.inodes[m].size == f.inodes[m].size
  }

  /** Files that do not fit are files that need more blocks than there are. */
  lemma StuckDemand(f: Fs, inum: nat, sizes: map<nat, nat>, n: nat)
    requires Stuck(f, inum) && f.lay.size % 8 == 0 && forall m | m in f.inodes :: m < n
    requires forall m | m in f.inodes :: m in sizes && f.inodes[m].size + (if m == inum then 1 else 0) <= sizes[m]
    ensures Demand(sizes, n) > f.lay.size
  {
    var now := Sizes(f)[inum := f.inodes[inum].size + 1];
    StuckCount(f, inum, n);
    AllSlotCount(now, n);
    DemandGrows(now, sizes, n);
  }

  lemma StuckCount(f: Fs, inum: nat, n: nat)
    requires Stuck(f, inum) && f.lay.size % 8 == 0 && forall m | m in f.inodes :: m < n
    ensures SizesOk(Sizes(f)[inum := f.inodes[inum].size + 1])
    ensures f.lay.size < |AllSlots(Sizes(f)[inum := f.inodes[inum].size + 1], n)|
  {
    var lo, hi := f.lay.data, f.lay.data + f.lay.size;
    forall b: nat | lo <= b < hi ensures b in f.owner && OwnerOk(f, b) {
      AllOwned(f, b);
    }
    OwnerCount(f, lo, hi);
    NextUnowned(f, inum, n, Owners(f.owner, lo, hi));
  }

  /** An owner is a slot that the files need, and not the one that the next byte needs. */
  lemma OwnerNeeded(f: Fs, inum: nat, n: nat, b: nat)
    requires Stuck(f, inum) && b in f.owner && forall m | m in f.inodes :: m < n
    ensures SizesOk(Sizes(f)[inum := f.inodes[inum].size + 1])
    ensures f.owner[b] in AllSlots(Sizes(f)[inum := f.inodes[inum].size + 1], n)
    ensures f.owner[b] != DataSlot(inum, f.inodes[inum].size / BLK)
  {
    var now := Sizes(f)[inum := f.inodes[inum].size + 1];
    assert OwnerOk(f, b) && OwnerFits(f, inum, 1, b);
    InAll(now, n, f.owner[b]);
  }

  lemma NextNeeded(f: Fs, inum: nat, n: nat)
    requires Stuck(f, inum) && inum < n
    ensures SizesOk(Sizes(f)[inum := f.inodes[inum].size + 1])
    ensures DataSlot(inum, f.inodes[inum].size / BLK) in AllSlots(Sizes(f)[inum := f.inodes[inum].size + 1], n)
  {
    var now := Sizes(f)[inum := f.inodes[inum].size + 1];
    InAll(now, n, DataSlot(inum, f.inodes[inum].size / BLK));
  }

  lemma NextUnowned(f: Fs, inum: nat, n: nat, owned: set<Slot>)
    requires Stuck(f, inum) && (forall m | m in f.inodes :: m < n)
    requires forall b: nat | f.lay.data <= b < f.lay.data + f.lay.size :: b in f.owner
    requires owned == Owners(f.owner, f.lay.data, f.lay.data + f.lay.size)
    ensures SizesOk(Sizes(f)[inum := f.inodes[inum].size + 1])
    ensures |owned| < |AllSlots(Sizes(f)[inum := f.inodes[inum].size + 1], n)|
  {
    NextNeeded(f, inum, n);
    var all, next := AllSlots(Sizes(f)[inum := f.inodes[inum].size + 1], n), DataSlot(inum, f.inodes[inum].size / BLK);
    forall s | s in owned ensures s in all && s != next {
      var b := InOwners(f.owner, f.lay.data, f.lay.data + f.lay.size, s);
      OwnerNeeded(f, inum, n, b);
    }
    SubsetSize(owned, all - {next});
  }

  // --- Every slot that a file needs is filled ---

  ghost predicate Filled(f: Fs, s: Slot)
  {
    SlotOk(f, s) && InData(f.lay, Content(f, s)) && Content(f, s) in f.owner && f.owner[Content(f, s)] == s
  }

  lemma SlotFilled(f: Fs, s: Slot)
    requires Inv(f) && SlotOk(f, s) && Content(f, s) != 0
    ensures Filled(f, s)
  {
    assert SlotOwns(f, s) && OwnerOk(f, Content(f, s));
  }

  /** A file without holes has filled every slot that its size needs. */
  lemma NeededFilled(f: Fs, s: Slot)
    requires Inv(f) && s.inum in f.inodes && NoHoles(f, s.inum) && SlotShape(s) && First(s) < DataBlks(f.inodes[s.inum].size)
    ensures Filled(f, s)
  {
    var t := DataSlot(s.inum, First(s));
    assert First(s) * BLK < f.inodes[s.inum].size;
    assert ByteAt(f, s.inum, First(s) * BLK).Some?;
    assert Content(f, t) != 0;
    SlotFilled(f, s);
  }

  /** Filled slots hold different blocks, so there are no more of them than blocks. */
  lemma {:induction false} FilledFit(f: Fs, slots: set<Slot>, hi: nat)
    requires f.lay.data <= hi && forall s | s in slots :: Filled(f, s) && Content(f, s) < hi
    ensures |slots| <= hi - f.lay.data
    decreases hi
  {
    if hi > f.lay.data {
      var rest := if hi - 1 in f.owner then slots - {f.owner[hi - 1]} else slots;
      forall s | s in rest ensures Filled(f, s) && Content(f, s) < hi - 1 {
        assert s in slots;
      }
      FilledFit(f, rest, hi - 1);
    } else {
      assert slots == {};
    }
  }

  lemma AllFilled(f: Fs, n: nat, s: Slot)
    requires Inv(f) && Solid(f) && SizesOk(Sizes(f)) && s in AllSlots(Sizes(f), n)
    ensures Filled(f, s)
  {
    InAll(Sizes(f), n, s);
    NeededFilled(f, s);
  }

  /** Files that are there fit. */
  lemma SolidDemand(f: Fs, n: nat)
    requires Inv(f) && Solid(f)
    ensures Demand(Sizes(f), n) <= f.lay.size
  {
    assert SizesOk(Sizes(f));
    var slots := AllSlots(Sizes(f), n);
    forall s | s in slots ensures Filled(f, s) && Content(f, s) < f.lay.data + f.lay.size {
      AllFilled(f, n, s);
    }
    FilledFit(f, slots, f.lay.data + f.lay.size);
    AllSlotCount(Sizes(f), n);
  }
}
