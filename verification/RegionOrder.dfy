/** Address ranges in order, in 64-bit arithmetic, and the search for a gap between them. */
module RegionOrder {
  import opened Basics

  const PG_SIZE := 4096
  const WORD := 0x1_0000_0000_0000_0000
  const KVM_BASE := 0xFFFFFFFF80000000
  const USTACK_PAGES := 10
  const USTACK_UPPER := 0xFFFFFF7FFFFFF000
  const USTACK_LOWER := USTACK_UPPER - USTACK_PAGES * PG_SIZE

  datatype Region = Region(start: nat, end: nat)

  predicate Aligned(a: nat)
  {
    a % PG_SIZE == 0
  }

  /** `pg_round_up`, which wraps around at the top. */
  function RoundUp(a: nat): (r: nat)
    ensures Aligned(r)
  {
    (a + PG_SIZE - 1) % WORD / PG_SIZE * PG_SIZE
  }

  lemma RoundUpPlain(a: nat)
    requires a + PG_SIZE - 1 < WORD
    ensures a <= RoundUp(a) < a + PG_SIZE
  {
  }

  /** The test of `memregion_allocated`. */
  predicate Overlaps(r: Region, start: nat, end: nat)
  {
    start < r.end && end > r.start
  }

  /** A region starts at a page and its last page ends below 2^64. */
  predicate RegionOk(r: Region)
  {
    Aligned(r.start) && r.start <= r.end <= WORD - PG_SIZE
  }

  /** In order and apart, empty regions included. */
  ghost predicate Ordered(l: seq<Region>)
  {
    && (forall i | 0 <= i < |l| :: RegionOk(l[i]))
    && (forall i, k | 0 <= i < k < |l| :: l[i].end <= l[k].start)
  }

  /** Where `list_append_ordered` with this comparator puts a region: before the first that starts at or after its end. */
  function Position(l: seq<Region>, r: Region): (k: nat)
    ensures k <= |l| && (k < |l| ==> l[k].start >= r.end) && forall i | 0 <= i < k :: l[i].start < r.end
  {
    if l == [] || l[0].start >= r.end then 0 else 1 + Position(l[1..], r)
  }

  function InsertAt(l: seq<Region>, k: nat, r: Region): (m: seq<Region>)
    requires k <= |l|
    ensures |m| == |l| + 1
    ensures forall i | 0 <= i < |m| :: m[i] == if i < k then l[i] else if i == k then r else l[i - 1]
  {
    l[..k] + [r] + l[k..]
  }

  /** A region that overlaps none of the others goes in at a place that keeps the order. */
  lemma InsertOrdered(l: seq<Region>, r: Region)
    requires Ordered(l) && RegionOk(r) && forall i | 0 <= i < |l| :: !Overlaps(l[i], r.start, r.end)
    ensures Ordered(InsertAt(l, Position(l, r), r))
  {
    var k := Position(l, r);
    var m := InsertAt(l, k, r);
    forall i, j | 0 <= i < j < |m| ensures m[i].end <= m[j].start {
      InsertPair(l, r, i, j);
    }
  }

  lemma InsertPair(l: seq<Region>, r: Region, i: nat, j: nat)
    requires Ordered(l) && RegionOk(r) && (forall n | 0 <= n < |l| :: !Overlaps(l[n], r.start, r.end)) && i < j <= |l|
    ensures var m := InsertAt(l, Position(l, r), r); m[i].end <= m[j].start
  {
    var k := Position(l, r);
    if i == k {
      assert j - 1 > k ==> l[k].end <= l[j - 1].start;
      assert RegionOk(l[k]);
    } else if j == k {
      assert !Overlaps(l[i], r.start, r.end);
    }
  }

  // --- The search for a gap ---

  /** `find_free_vaddr` from a candidate address on. */
  function Search(l: seq<Region>, addr: nat, size: nat): Option<nat>
  {
    if l == [] then
      if RoundUp((addr + size) % WORD) < (USTACK_LOWER - size) % WORD then Some(addr) else None
    else if RoundUp((addr + size) % WORD) < l[0].start then Some(addr)
    else Search(l[1..], RoundUp(l[0].end), size)
  }

  /** The range starts at a page, does not wrap and touches no region. */
  ghost predicate IsGap(l: seq<Region>, addr: nat, size: nat)
  {
    Aligned(addr) && addr + size < WORD && forall i | 0 <= i < |l| :: !Overlaps(l[i], addr, addr + size)
  }

  /** A gap, which above the last region stays clear of the stack. */
  ghost predicate IsUserGap(l: seq<Region>, addr: nat, size: nat)
  {
    IsGap(l, addr, size) && ((forall i | 0 <= i < |l| :: l[i].end <= addr) ==> addr + size <= 0xFFFFFF7FFFFF5000)
  }

  /** The address that is tried before region k, or after the last one. */
  function Candidate(l: seq<Region>, k: nat): nat
    requires k <= |l|
  {
    if k == 0 then 0 else RoundUp(l[k - 1].end)
  }

  /** From candidate k the range rounded up to pages, without wrap, ends before the next region, or well below the stack. */
  predicate Fits(l: seq<Region>, k: nat, size: nat)
    requires k <= |l|
  {
    && Candidate(l, k) + size + PG_SIZE - 1 < WORD
    && if k < |l| then RoundUp(Candidate(l, k) + size) < l[k].start
       else RoundUp(Candidate(l, k) + size) + size < 0xFFFFFF7FFFFF5000
  }

  /** Candidate j or a later one fits. */
  ghost predicate FitsFrom(l: seq<Region>, j: nat, size: nat)
  {
    exists k: nat {:trigger Fits(l, k, size)} :: j <= k <= |l| && Fits(l, k, size)
  }

  /** The search from candidate k on finds a gap. */
  ghost predicate FindsFrom(l: seq<Region>, k: nat, size: nat)
    requires k <= |l|
  {
    var a := Search(l[k..], Candidate(l, k), size); a.Some? && IsUserGap(l, a.value, size)
  }

  lemma CandidateAbove(l: seq<Region>, k: nat)
    requires Ordered(l) && k <= |l|
    ensures Aligned(Candidate(l, k)) && (forall i | 0 <= i < k :: l[i].end <= Candidate(l, k))
    ensures forall i | k <= i < |l| :: Candidate(l, k) <= l[i].start
  {
    if k > 0 {
      RoundUpPlain(l[k - 1].end);
      assert forall i | 0 <= i < k - 1 :: l[i].end <= l[k - 1].start;
      forall i | k <= i < |l| ensures Candidate(l, k) <= l[i].start {
        assert l[k - 1].end <= l[i].start && RegionOk(l[i]);
      }
    }
  }

  lemma CandidatesUp(l: seq<Region>, j: nat, k: nat)
    requires Ordered(l) && j <= k <= |l|
    ensures Candidate(l, j) <= Candidate(l, k)
  {
    CandidateAbove(l, j);
    if j < k {
      RoundUpPlain(l[k - 1].end);
      assert Candidate(l, j) <= l[k - 1].start;
    }
  }

  /** Where the rounded range wraps, it is no gap, and no later candidate fits. */
  lemma WrapsBad(l: seq<Region>, k: nat, size: nat)
    requires Ordered(l) && k <= |l| && Candidate(l, k) + size + PG_SIZE - 1 >= WORD
    ensures !IsUserGap(l, Candidate(l, k), size) && !FitsFrom(l, k, size)
  {
    var a := Candidate(l, k);
    if IsGap(l, a, size) {
      forall i | 0 <= i < |l| ensures l[i].end <= a {
        assert RegionOk(l[i]) && !Overlaps(l[i], a, a + size);
      }
    }
    forall j: nat | k <= j <= |l| ensures !Fits(l, j, size) {
      CandidatesUp(l, k, j);
    }
  }

  lemma NextFits(l: seq<Region>, k: nat, size: nat)
    requires k < |l| && !Fits(l, k, size)
    ensures FitsFrom(l, k, size) <==> FitsFrom(l, k + 1, size)
  {
  }

  lemma PlainGap(l: seq<Region>, k: nat, size: nat)
    requires Ordered(l) && k <= |l| && Fits(l, k, size)
    ensures IsUserGap(l, Candidate(l, k), size)
  {
    CandidateAbove(l, k);
    RoundUpPlain(Candidate(l, k) + size);
    assert forall i | k <= i < |l| :: l[k].start <= l[i].start;
  }

  /**
   * The search finds a gap exactly if some candidate fits: it never misses one,
   * and its answer is wrong exactly if it answers although none fits.
   */
  lemma {:induction false} SearchExact(l: seq<Region>, k: nat, size: nat)
    requires Ordered(l) && k <= |l| && size < WORD
    ensures FindsFrom(l, k, size) <==> FitsFrom(l, k, size)
    decreases |l| - k
  {
    var a := Candidate(l, k);
    if a + size + PG_SIZE - 1 >= WORD {
      WrapsFrom(l, k, size);
    } else if Fits(l, k, size) {
      FitsHere(l, k, size);
    } else if k < |l| {
      SearchExact(l, k + 1, size);
      FitsLater(l, k, size);
    } else {
      LastBad(l, size);
    }
  }

  lemma FitsHere(l: seq<Region>, k: nat, size: nat)
    requires Ordered(l) && k <= |l| && Fits(l, k, size)
    ensures FindsFrom(l, k, size) && FitsFrom(l, k, size)
  {
    PlainGap(l, k, size);
    FoundHere(l, k, size);
  }

  lemma FitsLater(l: seq<Region>, k: nat, size: nat)
    requires k < |l| && Candidate(l, k) + size + PG_SIZE - 1 < WORD && !Fits(l, k, size)
    ensures FindsFrom(l, k, size) <==> FindsFrom(l, k + 1, size)
    ensures FitsFrom(l, k, size) <==> FitsFrom(l, k + 1, size)
  {
    NextFits(l, k, size);
    NotHere(l, k, size);
  }

  lemma FoundHere(l: seq<Region>, k: nat, size: nat)
    requires k <= |l| && Fits(l, k, size)
    ensures Search(l[k..], Candidate(l, k), size) == Some(Candidate(l, k))
  {
    Small(Candidate(l, k) + size);
    if k < |l| {
      assert l[k..][0] == l[k];
    } else {
      Small(USTACK_LOWER - size);
    }
  }

  lemma Small(x: int)
    requires 0 <= x < WORD
    ensures x % WORD == x
  {
  }

  lemma NotHere(l: seq<Region>, k: nat, size: nat)
    requires k < |l| && Candidate(l, k) + size + PG_SIZE - 1 < WORD && !Fits(l, k, size)
    ensures Search(l[k..], Candidate(l, k), size) == Search(l[k + 1..], Candidate(l, k + 1), size)
  {
    Small(Candidate(l, k) + size);
    assert l[k..][0] == l[k];
    assert l[k..][1..] == l[k + 1..];
  }

  /** Past the last region a size beyond the stack makes the bound wrap, and the answer is no gap. */
  lemma LastBad(l: seq<Region>, size: nat)
    requires Ordered(l) && size < WORD && Candidate(l, |l|) + size + PG_SIZE - 1 < WORD && !Fits(l, |l|, size)
    ensures !FindsFrom(l, |l|, size) && !FitsFrom(l, |l|, size)
  {
    CandidateAbove(l, |l|);
    Small(Candidate(l, |l|) + size);
    if size <= USTACK_LOWER {
      Small(USTACK_LOWER - size);
    }
  }

  /** From a candidate that wraps on, no answer is a gap. */
  lemma {:induction false} WrapsFrom(l: seq<Region>, k: nat, size: nat)
    requires Ordered(l) && k <= |l| && size < WORD && Candidate(l, k) + size + PG_SIZE - 1 >= WORD
    ensures !FindsFrom(l, k, size) && !FitsFrom(l, k, size)
    decreases |l| - k
  {
    WrapsBad(l, k, size);
    if k < |l| {
      CandidatesUp(l, k, k + 1);
      assert l[k..][1..] == l[k + 1..];
      WrapsFrom(l, k + 1, size);
    }
  }

  /** An answer whose rounded range does not wrap is a gap. */
  lemma {:induction false} PlainAnswer(l: seq<Region>, k: nat, size: nat)
    requires Ordered(l) && k <= |l| && Search(l[k..], Candidate(l, k), size).Some?
    requires Search(l[k..], Candidate(l, k), size).value + size + PG_SIZE - 1 < WORD
    ensures IsGap(l, Search(l[k..], Candidate(l, k), size).value, size)
    decreases |l| - k
  {
    var a := Candidate(l, k);
    if k == |l| {
      CandidateAbove(l, k);
    } else if RoundUp((a + size) % WORD) < l[k].start {
      PlainHere(l, k, size);
    } else {
      assert l[k..][1..] == l[k + 1..];
      PlainAnswer(l, k + 1, size);
    }
  }

  lemma PlainHere(l: seq<Region>, k: nat, size: nat)
    requires Ordered(l) && k < |l| && Candidate(l, k) + size + PG_SIZE - 1 < WORD
    requires RoundUp((Candidate(l, k) + size) % WORD) < l[k].start
    ensures IsGap(l, Candidate(l, k), size)
  {
    CandidateAbove(l, k);
    Small(Candidate(l, k) + size);
    RoundUpPlain(Candidate(l, k) + size);
    assert forall i | k <= i < |l| :: l[k].start <= l[i].start;
  }

  /** The highest address that the search can try. */
  function Top(l: seq<Region>, addr: nat): nat
  {
    if l == [] then addr else RoundUp(l[|l| - 1].end)
  }

  /** The candidates only go up. */
  lemma {:induction false} SearchBelowTop(l: seq<Region>, addr: nat, size: nat)
    requires Ordered(l) && Search(l, addr, size).Some? && (l != [] ==> addr <= RoundUp(l[0].start))
    ensures Search(l, addr, size).value <= Top(l, addr)
  {
    if l != [] {
      var e := RoundUp(l[0].end);
      EndsGoUp(l);
      if RoundUp((addr + size) % WORD) >= l[0].start {
        assert Ordered(l[1..]);
        if |l| > 1 {
          assert l[0].end <= l[1].start;
          RoundUpPlain(l[0].end);
          RoundUpPlain(l[1].start);
          RoundUpMonotone(l[0].end, l[1].start);
        }
        SearchBelowTop(l[1..], e, size);
      }
    }
  }

  lemma RoundUpMonotone(a: nat, b: nat)
    requires a <= b && b + PG_SIZE - 1 < WORD
    ensures RoundUp(a) <= RoundUp(b)
  {
  }

  lemma EndsGoUp(l: seq<Region>)
    requires Ordered(l) && l != []
    ensures RoundUp(l[0].start) <= RoundUp(l[|l| - 1].end)
  {
    assert l[0].start <= l[0].end && (|l| > 1 ==> l[0].end <= l[|l| - 1].start);
    RoundUpMonotone(l[0].start, l[|l| - 1].end);
  }

  /** So a size that cannot wrap from the end of the last region on always gets a gap. */
  lemma SearchRight(l: seq<Region>, size: nat)
    requires Ordered(l) && size + Top(l, 0) + PG_SIZE - 1 < WORD && Search(l, 0, size).Some?
    ensures IsGap(l, Search(l, 0, size).value, size)
  {
    assert l[0..] == l;
    SearchBelowTop(l, 0, size);
    PlainAnswer(l, 0, size);
  }

  /** With a size near 2^64 the rounded sum wraps to 0 and the answer covers the first region. */
  lemma SearchWrapsExample()
    ensures var (l, size) := ([Region(0x1000, 0x2000)], WORD - PG_SIZE + 1);
            Ordered(l) && Search(l, 0, size) == Some(0) && Overlaps(l[0], 0, size) && !FitsFrom(l, 0, size)
  {
    var l := [Region(0x1000, 0x2000)];
    WrapsBad(l, 0, WORD - PG_SIZE + 1);
  }
}
