/** Inodes as the 64-byte records of the inode table, which the kernel and the image builder both read and write. */
module SfsInode {
  import opened SfsBlocks

  const TABLE_BLK := 4
  const INODE_WORDS := 16
  const PER_BLK := 8
  const ADDRS := 14

  datatype DiskInode = DiskInode(ftype: nat, mode: nat, nlink: nat, size: nat, addrs: seq<nat>)

  predicate DiskOk(d: DiskInode)
  {
    && d.ftype < 256 && d.mode < 256 && d.nlink < 65536 && d.size < 0x1_0000_0000 && |d.addrs| == ADDRS
    && forall i | 0 <= i < ADDRS :: d.addrs[i] < 0x1_0000_0000
  }

  /** `inum_to_blk`; inode numbers start from 1. */
  function InumToBlk(inum: nat): nat
    requires inum > 0
  {
    TABLE_BLK + (inum - 1) / PER_BLK
  }

  /** `inum_to_ofs`, in words. */
  function InumToWord(inum: nat): (w: nat)
    requires inum > 0
    ensures w + INODE_WORDS <= WORDS
  {
    (inum - 1) * INODE_WORDS % WORDS
  }

  /** The record as 32-bit words: type, mode and links share the first. */
  function Encode(d: DiskInode): (ws: seq<nat>)
    ensures |d.addrs| == ADDRS ==> |ws| == INODE_WORDS
  {
    [d.ftype + 256 * d.mode + 65536 * d.nlink, d.size] + d.addrs
  }

  function Decode(ws: seq<nat>): DiskInode
    requires |ws| == INODE_WORDS
  {
    DiskInode(ws[0] % 256, ws[0] / 256 % 256, ws[0] / 65536, ws[1], ws[2..])
  }

  lemma DecodeEncode(d: DiskInode)
    requires DiskOk(d)
    ensures Decode(Encode(d)) == d && forall i | 0 <= i < INODE_WORDS :: Encode(d)[i] < 0x1_0000_0000
  {
    var w := d.ftype + 256 * d.mode + 65536 * d.nlink;
    assert w % 256 == d.ftype && w / 256 % 256 == d.mode && w / 65536 == d.nlink;
    assert Encode(d)[2..] == d.addrs;
  }

  /** Consecutive words of a block. */
  function GetWords(b: Block, at: nat, n: nat): (ws: seq<nat>)
    requires |b| == BLK && at + n <= WORDS
    ensures |ws| == n && forall i | 0 <= i < n :: ws[i] == WordAt(b, at + i)
  {
    if n == 0 then [] else GetWords(b, at, n - 1) + [WordAt(b, at + n - 1)]
  }

  function PutWords(b: Block, at: nat, ws: seq<nat>): (r: Block)
    requires |b| == BLK && at + |ws| <= WORDS && forall i | 0 <= i < |ws| :: ws[i] < 0x1_0000_0000
    ensures |r| == BLK
    decreases |ws|
  {
    if ws == [] then b else PutWords(SetWord(b, at, ws[0]), at + 1, ws[1..])
  }

  lemma {:induction false} WordOfPutWords(b: Block, at: nat, ws: seq<nat>, i: nat)
    requires IsBlock(b) && at + |ws| <= WORDS && (forall k | 0 <= k < |ws| :: ws[k] < 0x1_0000_0000) && i < WORDS
    ensures IsBlock(PutWords(b, at, ws))
    ensures WordAt(PutWords(b, at, ws), i) == if at <= i < at + |ws| then ws[i - at] else WordAt(b, i)
    decreases |ws|
  {
    if ws != [] {
      WordOfSetWord(b, at, ws[0], i);
      WordOfPutWords(SetWord(b, at, ws[0]), at + 1, ws[1..], i);
    }
  }

  // --- The table ---

  function ReadInode(blocks: seq<Block>, inum: nat): DiskInode
    requires inum > 0 && InumToBlk(inum) < |blocks| && IsBlock(blocks[InumToBlk(inum)])
  {
    Decode(GetWords(blocks[InumToBlk(inum)], InumToWord(inum), INODE_WORDS))
  }

  function WriteInode(blocks: seq<Block>, inum: nat, d: DiskInode): (r: seq<Block>)
    requires inum > 0 && InumToBlk(inum) < |blocks| && IsBlock(blocks[InumToBlk(inum)])
    requires DiskOk(d)
    ensures |r| == |blocks| && forall b | 0 <= b < |blocks| && b != InumToBlk(inum) :: r[b] == blocks[b]
  {
    var b := InumToBlk(inum);
    DecodeEncode(d);
    blocks[b := PutWords(blocks[b], InumToWord(inum), Encode(d))]
  }

  /** Two inodes in the same block lie apart. */
  lemma SlotsApart(n: nat, m: nat)
    requires n > 0 && m > 0 && n != m && InumToBlk(n) == InumToBlk(m)
    ensures InumToWord(n) + INODE_WORDS <= InumToWord(m) || InumToWord(m) + INODE_WORDS <= InumToWord(n)
  {
    WordOfSlot(n);
    WordOfSlot(m);
  }

  lemma WordOfSlot(n: nat)
    requires n > 0
    ensures InumToWord(n) == (n - 1) % PER_BLK * INODE_WORDS
  {
  }

  lemma SameWords(ws: seq<nat>, b: Block, at: nat)
    requires |b| == BLK && at + |ws| <= WORDS && forall i | 0 <= i < |ws| :: ws[i] == WordAt(b, at + i)
    ensures GetWords(b, at, |ws|) == ws
  {
  }

  /** An inode's 64 bytes: type, mode, links, size and addresses, each in little-endian order. */
  ghost function RecordAt(b: Block, o: nat): DiskInode
    requires o + 64 <= |b|
  {
    DiskInode(b[o], b[o + 1], b[o + 2] + 256 * b[o + 3], Word32(b, o + 4), seq(14, i requires 0 <= i < 14 => Word32(b, o + 8 + 4 * i)))
  }

  /** The table starts at block 4 with eight inodes to a block. */
  lemma RecordBytes(blocks: seq<Block>, n: nat)
    requires n > 0 && 4 + (n - 1) / 8 < |blocks| && IsBlock(blocks[4 + (n - 1) / 8])
    ensures ReadInode(blocks, n) == RecordAt(blocks[4 + (n - 1) / 8], (n - 1) % 8 * 64)
  {
    var b, o := blocks[4 + (n - 1) / 8], (n - 1) % 8 * 64;
    WordOfSlot(n);
    var ws := GetWords(b, InumToWord(n), 16);
    assert 4 * InumToWord(n) == o;
    FirstWord(b[o], b[o + 1], b[o + 2], b[o + 3]);
    assert ws[0] == Word32(b, o) && ws[1] == Word32(b, o + 4);
    assert ws[2..] == seq(14, i requires 0 <= i < 14 => Word32(b, o + 8 + 4 * i));
  }

  lemma FirstWord(x: nat, y: nat, z: nat, t: nat)
    requires x < 256 && y < 256 && z < 256 && t < 256
    ensures var w := x + 256 * y + 65536 * z + 16777216 * t; w % 256 == x && w / 256 % 256 == y && w / 65536 == z + 256 * t
  {
  }

  lemma GetPut(b: Block, at: nat, ws: seq<nat>)
    requires IsBlock(b) && at + |ws| <= WORDS && forall k | 0 <= k < |ws| :: ws[k] < 0x1_0000_0000
    ensures GetWords(PutWords(b, at, ws), at, |ws|) == ws
  {
    var c := PutWords(b, at, ws);
    forall i | 0 <= i < |ws| ensures ws[i] == WordAt(c, at + i) {
      WordOfPutWords(b, at, ws, at + i);
    }
    SameWords(ws, c, at);
  }

  lemma GetOther(b: Block, at: nat, ws: seq<nat>, to: nat, n: nat)
    requires IsBlock(b) && at + |ws| <= WORDS && to + n <= WORDS && (forall k | 0 <= k < |ws| :: ws[k] < 0x1_0000_0000)
    requires at + |ws| <= to || to + n <= at
    ensures GetWords(PutWords(b, at, ws), to, n) == GetWords(b, to, n)
  {
    var c, us := PutWords(b, at, ws), GetWords(b, to, n);
    forall i | 0 <= i < n ensures us[i] == WordAt(c, to + i) {
      WordOfPutWords(b, at, ws, to + i);
    }
    SameWords(us, c, to);
  }

  /** Reading an inode gives what was last written to it, whatever was written to others. */
  lemma ReadWritten(blocks: seq<Block>, n: nat, d: DiskInode, m: nat)
    requires n > 0 && m > 0 && InumToBlk(n) < |blocks| && InumToBlk(m) < |blocks| && DiskOk(d)
    requires IsBlock(blocks[InumToBlk(n)]) && IsBlock(blocks[InumToBlk(m)])
    ensures IsBlock(WriteInode(blocks, n, d)[InumToBlk(n)]) && IsBlock(WriteInode(blocks, n, d)[InumToBlk(m)])
    ensures ReadInode(WriteInode(blocks, n, d), m) == if m == n then d else ReadInode(blocks, m)
  {
    DecodeEncode(d);
    var b, at, ws := blocks[InumToBlk(n)], InumToWord(n), Encode(d);
    WordOfPutWords(b, at, ws, 0);
    if m == n {
      GetPut(b, at, ws);
    } else if InumToBlk(m) == InumToBlk(n) {
      SlotsApart(n, m);
      GetOther(b, at, ws, InumToWord(m), INODE_WORDS);
    }
  }
}
