/**
 * The boot memory allocator: a bitmap of pages searched first-fit. Its result
 * is what the buddy allocator starts from.
 */
module BootBitmap {

  ghost predicate RangeClear(bits: seq<bool>, a: int, n: nat)
  {
    0 <= a && a + n <= |bits| && forall i | a <= i < a + n :: !bits[i]
  }

  /** Every bit from `contig` on is clear, and the bit before it is set. */
  ghost predicate ContigOk(bits: seq<bool>, contig: int)
  {
    && 0 <= contig <= |bits|
    && (forall i | contig <= i < |bits| :: !bits[i])
    && (contig > 0 ==> bits[contig - 1])
  }

  /** `a` starts the first run of n clear bits. */
  ghost predicate FirstRun(bits: seq<bool>, a: int, n: nat)
  {
    RangeClear(bits, a, n) && forall b | 0 <= b < a :: !RangeClear(bits, b, n)
  }

  function CountSet(bits: seq<bool>): (c: nat)
    ensures c <= |bits|
    ensures c == |bits| <==> forall i | 0 <= i < |bits| :: bits[i]
  {
    if bits == [] then 0 else
      var c := CountSet(bits[..|bits| - 1]);
      if bits[|bits| - 1] then c + 1 else c
  }

  /**
   * `bitmap_find` answers with the number of set bits in front of the first
   * fitting run. The answer is a free range exactly when those set bits form a
   * prefix, that is, when no bit in front of the run is clear.
   */
  lemma FindRightIffPrefix(bits: seq<bool>, a: nat, n: nat)
    requires n > 0 && FirstRun(bits, a, n)
    ensures RangeClear(bits, CountSet(bits[..a]), n) <==> forall i | 0 <= i < a :: bits[i]
    ensures CountSet(bits[..a]) == a <==> forall i | 0 <= i < a :: bits[i]
  {
    var c := CountSet(bits[..a]);
    assert forall i | 0 <= i < a :: bits[..a][i] == bits[i];
    if c < a {
      assert !RangeClear(bits, c, n);
    }
  }

  /** With only page 1 of 4 taken, the search for two pages answers with a range that holds the taken page. */
  lemma FindWrongOnGap()
    ensures FirstRun([false, true, false, false], 2, 2)
    ensures CountSet([false, true, false, false][..2]) == 1
    ensures !RangeClear([false, true, false, false], 1, 2)
  {
    var bits := [false, true, false, false];
    assert bits[1];
    assert bits[..2][..1] == [false];
    assert CountSet([false]) == 0;
  }

  class BootMap {
    const bits: array<bool>
    var contig: int

    ghost predicate Valid()
      reads this, bits
    {
      ContigOk(bits[..], contig)
    }

    constructor (n: nat)
      ensures Valid() && bits.Length == n && forall i | 0 <= i < n :: !bits[i]
      ensures fresh(bits)
    {
      bits := new bool[n](_ => false);
      contig := 0;
    }

    /** `bitmap_alloc`. */
    method Alloc(index: nat, n: nat)
      requires Valid() && n > 0 && RangeClear(bits[..], index, n)
      modifies this, bits
      ensures Valid()
      ensures forall i | 0 <= i < bits.Length :: bits[i] == (old(bits[i]) || index <= i < index + n)
    {
      var i := 0;
      while i < n
        invariant 0 <= i <= n
        invariant forall j | 0 <= j < bits.Length :: bits[j] == (old(bits[j]) || index <= j < index + i)
        invariant contig == old(contig)
      {
        bits[index + i] := true;
        i := i + 1;
      }
      if index + n > contig {
        contig := index + n;
      }
    }

    /** `bitmap_free`: keeps `contig` at the end of the last set bit. */
    method Free(index: nat, n: nat)
      requires Valid() && n > 0 && index + n <= contig
      requires forall i | index <= i < index + n :: bits[i]
      modifies this, bits
      ensures Valid()
      ensures forall i | 0 <= i < bits.Length :: bits[i] == (old(bits[i]) && !(index <= i < index + n))
    {
      var i := 0;
      while i < n
        invariant 0 <= i <= n
        invariant forall j | 0 <= j < bits.Length :: bits[j] == (old(bits[j]) && !(index <= j < index + i))
        invariant contig == old(contig)
      {
        bits[index + i] := false;
        i := i + 1;
      }
      if index + n == contig {
        var k := index;
        while k > 0
          invariant 0 <= k <= index
          invariant forall j | k <= j < bits.Length :: !bits[j]
        {
          if bits[k - 1] {
            break;
          }
          k := k - 1;
        }
        contig := k;
      }
    }

    /** `bitmap_find`, with the count it actually returns. */
    method Find(n: nat) returns (r: int)
      requires n > 0
      ensures r == -1 <==> !exists a :: RangeClear(bits[..], a, n)
      ensures r != -1 ==> exists a: nat :: FirstRun(bits[..], a, n) && r == CountSet(bits[..a])
    {
      ghost var l := bits[..];
      var i, first, run := 0, 0, 0;
      while i < bits.Length
        invariant 0 <= run <= i <= bits.Length == |l| && run < n && l == bits[..]
        invariant first == CountSet(l[..i]) && Scanned(l, i, run, n)
      {
        assert l[..i + 1][..i] == l[..i];
        if bits[i] {
          SetBitEndsRun(l, i, run, n);
          run, first := 0, first + 1;
        } else {
          run := run + 1;
          if run >= n {
            RunFound(l, i, n);
            return first;
          }
          ClearBitExtends(l, i, run - 1, n);
        }
        i := i + 1;
      }
      return -1;
    }
  }

  /** The last `run` bits before i are clear and follow a set one, and no clear run of n bits ends by i. */
  ghost predicate Scanned(l: seq<bool>, i: nat, run: nat, n: nat)
  {
    && run <= i <= |l| && (forall j | i - run <= j < i :: !l[j]) && (run < i ==> l[i - run - 1])
    && forall a :: RangeClear(l, a, n) ==> a + n > i
  }

  lemma SetBitEndsRun(l: seq<bool>, i: nat, run: nat, n: nat)
    requires Scanned(l, i, run, n) && i < |l| && l[i] && n > 0
    ensures Scanned(l, i + 1, 0, n)
  {
    forall a | RangeClear(l, a, n) ensures a + n > i + 1 {
      assert !(a <= i < a + n);
    }
  }

  lemma ClearBitExtends(l: seq<bool>, i: nat, run: nat, n: nat)
    requires Scanned(l, i, run, n) && i < |l| && !l[i] && run + 1 < n
    ensures Scanned(l, i + 1, run + 1, n)
  {
    forall a | RangeClear(l, a, n) ensures a + n > i + 1 {
      assert run < i ==> !(a <= i - run - 1 < a + n);
    }
  }

  lemma RunFound(l: seq<bool>, i: nat, n: nat)
    requires n > 0 && Scanned(l, i, n - 1, n) && i < |l| && !l[i]
    ensures exists a: nat :: FirstRun(l, a, n) && CountSet(l[..i]) == CountSet(l[..a])
    ensures exists a :: RangeClear(l, a, n)
  {
    var s := i + 1 - n;
    assert RangeClear(l, s, n);
    SameCount(l, s, i);
    assert FirstRun(l, s, n);
  }

  lemma {:induction false} SameCount(bits: seq<bool>, s: nat, e: nat)
    requires s <= e <= |bits| && forall i | s <= i < e :: !bits[i]
    ensures CountSet(bits[..s]) == CountSet(bits[..e])
    decreases e
  {
    if s < e {
      SameCount(bits, s, e - 1);
      assert bits[..e][..e - 1] == bits[..e - 1];
    }
  }
}
