/** The contents of one 512-byte block: as bytes, as bits and as 32-bit words. */
module SfsBlocks {

  const BLK := 512
  const BITS := 4096
  const WORDS := 128

  type Block = seq<nat>

  predicate IsBlock(b: Block)
  {
    |b| == BLK && forall i | 0 <= i < BLK :: b[i] < 256
  }

  function Zero(): (b: Block)
    ensures IsBlock(b)
  {
    seq(BLK, _ => 0)
  }

  // --- Bits of a byte ---

  /** `x & (1 << k)` is not zero. */
  predicate Bit(x: nat, k: nat)
  {
    if k == 0 then x % 2 == 1 else Bit(x / 2, k - 1)
  }

  /** `x | (1 << k)` if `on`, else `x & ~(1 << k)`. */
  function SetBit(x: nat, k: nat, on: bool): nat
  {
    if k == 0 then x - x % 2 + (if on then 1 else 0) else 2 * SetBit(x / 2, k - 1, on) + x % 2
  }

  function Pow(k: nat): nat
  {
    if k == 0 then 1 else 2 * Pow(k - 1)
  }

  lemma {:induction false} SetBitSmall(x: nat, k: nat, n: nat, on: bool)
    requires k < n && x < Pow(n)
    ensures SetBit(x, k, on) < Pow(n)
  {
    var half := Pow(n - 1);
    assert Pow(n) == 2 * half;
    if k > 0 {
      assert x / 2 < half;
      SetBitSmall(x / 2, k - 1, n - 1, on);
    }
  }

  lemma {:induction false} BitOfSetBit(x: nat, k: nat, on: bool, i: nat)
    ensures Bit(SetBit(x, k, on), i) == if i == k then on else Bit(x, i)
  {
    var y := SetBit(x, k, on);
    if k == 0 {
      assert i > 0 ==> y / 2 == x / 2;
    } else {
      assert y / 2 == SetBit(x / 2, k - 1, on) && y % 2 == x % 2;
      if i > 0 {
        BitOfSetBit(x / 2, k - 1, on, i - 1);
      }
    }
  }

  lemma {:induction false} SetBitSame(x: nat, k: nat, on: bool)
    requires Bit(x, k) == on
    ensures SetBit(x, k, on) == x
  {
    if k > 0 {
      SetBitSame(x / 2, k - 1, on);
    }
  }

  lemma {:induction false} SetBitTwice(x: nat, k: nat, on: bool)
    ensures SetBit(SetBit(x, k, !on), k, on) == SetBit(x, k, on)
  {
    if k > 0 {
      assert SetBit(x, k, !on) / 2 == SetBit(x / 2, k - 1, !on) && SetBit(x, k, !on) % 2 == x % 2;
      SetBitTwice(x / 2, k - 1, on);
    }
  }

  // --- Bits of a block ---

  predicate BlockBit(b: Block, n: nat)
    requires |b| == BLK && n < BITS
  {
    Bit(b[n / 8], n % 8)
  }

  function SetBlockBit(b: Block, n: nat, on: bool): (r: Block)
    requires |b| == BLK && n < BITS
    ensures |r| == BLK
  {
    b[n / 8 := SetBit(b[n / 8], n % 8, on)]
  }

  lemma BlockBitSet(b: Block, n: nat, on: bool)
    requires IsBlock(b) && n < BITS
    ensures IsBlock(SetBlockBit(b, n, on))
    ensures forall i: nat | i < BITS :: BlockBit(SetBlockBit(b, n, on), i) == if i == n then on else BlockBit(b, i)
  {
    assert Pow(8) == 256 by {
      assert Pow(2) == 4 && Pow(4) == 16 && Pow(6) == 64;
    }
    SetBitSmall(b[n / 8], n % 8, 8, on);
    forall i: nat | i < BITS ensures BlockBit(SetBlockBit(b, n, on), i) == if i == n then on else BlockBit(b, i) {
      BitOfSetBit(b[n / 8], n % 8, on, i % 8);
    }
  }

  /** Bit n of a block is a binary digit of its byte n / 8. */
  lemma BlockBitDigit(b: Block, n: nat)
    requires IsBlock(b) && n < 4096
    ensures BlockBit(b, n) <==> b[n / 8] / [1, 2, 4, 8, 16, 32, 64, 128][n % 8] % 2 == 1
  {
    BitDigit(b[n / 8], n % 8);
  }

  lemma BitDigit(x: nat, k: nat)
    requires k < 8
    ensures Bit(x, k) <==> x / [1, 2, 4, 8, 16, 32, 64, 128][k] % 2 == 1
  {
    if k > 0 {
      BitDigit(x / 2, k - 1);
      Halves(x, k);
    }
  }

  lemma Halves(x: nat, k: nat)
    requires 0 < k < 8
    ensures x / 2 / [1, 2, 4, 8, 16, 32, 64, 128][k - 1] == x / [1, 2, 4, 8, 16, 32, 64, 128][k]
  {
    if k == 1 {
    } else if k == 2 {
    } else if k == 3 {
    } else if k == 4 {
    } else if k == 5 {
    } else if k == 6 {
    } else {
    }
  }

  lemma SetThenClear(b: Block, n: nat)
    requires IsBlock(b) && n < BITS && !BlockBit(b, n)
    ensures SetBlockBit(SetBlockBit(b, n, true), n, false) == b
  {
    SetBitTwice(b[n / 8], n % 8, false);
    SetBitSame(b[n / 8], n % 8, false);
  }

  // --- 32-bit little-endian words of a block ---

  function WordAt(b: Block, e: nat): (w: nat)
    requires |b| == BLK && e < WORDS
  {
    b[4 * e] + 256 * b[4 * e + 1] + 65536 * b[4 * e + 2] + 16777216 * b[4 * e + 3]
  }

  function SetWord(b: Block, e: nat, w: nat): (r: Block)
    requires |b| == BLK && e < WORDS && w < 0x1_0000_0000
    ensures |r| == BLK
  {
    b[4 * e := w % 256][4 * e + 1 := w / 256 % 256][4 * e + 2 := w / 65536 % 256][4 * e + 3 := w / 16777216]
  }

  /** Four bytes of a block as the processor reads a 32-bit word. */
  ghost function Word32(b: Block, o: nat): nat
    requires o + 4 <= |b|
  {
    b[o] + 256 * b[o + 1] + 65536 * b[o + 2] + 16777216 * b[o + 3]
  }

  lemma WordOfSetWord(b: Block, e: nat, w: nat, i: nat)
    requires IsBlock(b) && e < WORDS && w < 0x1_0000_0000 && i < WORDS
    ensures IsBlock(SetWord(b, e, w)) && WordAt(SetWord(b, e, w), i) == if i == e then w else WordAt(b, i)
  {
    var r := SetWord(b, e, w);
    var p := 4 * e;
    assert forall k | 0 <= k < BLK && !(p <= k < p + 4) :: r[k] == b[k];
    Bytes(w);
    assert i != e ==> 4 * i + 3 < p || p + 3 < 4 * i;
  }

  lemma Bytes(w: nat)
    requires w < 0x1_0000_0000
    ensures w == w % 256 + 256 * (w / 256 % 256) + 65536 * (w / 65536 % 256) + 16777216 * (w / 16777216)
    ensures w / 16777216 < 256
  {
  }

  // --- Byte ranges ---

  /** `memmove(b + o, src, |src|)`. */
  function Splice(b: Block, o: nat, src: seq<nat>): (r: Block)
    requires |b| == BLK && o + |src| <= BLK
    ensures |r| == BLK
    ensures forall i | 0 <= i < BLK :: r[i] == if o <= i < o + |src| then src[i - o] else b[i]
  {
    b[..o] + src + b[o + |src|..]
  }
}
