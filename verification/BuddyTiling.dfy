/**
 * The state of the binary buddy allocator as a value, its invariant, and what
 * each elementary update of a page or a free list does to that invariant.
 *
 * `owner` is bookkeeping that the kernel does not store: it names, for every
 * page, the first page of the block the page belongs to. It is what turns the
 * global claim "free and allocated blocks tile memory" into a local one.
 */
module BuddyTiling {
  import opened PowersOfTwo

  const MAX_ORDER: nat := 10

  /** The two fields of `struct page` the allocator works with. */
  datatype Page = Page(order: nat, refcnt: nat)

  datatype Mem = Mem(pages: seq<Page>, free: seq<seq<nat>>, owner: seq<nat>)

  /** Stands for "no block is between lists". */
  const NONE: int := -1

  /** Page `h` is the first page of a block. */
  ghost predicate Head(m: Mem, h: int)
    requires |m.owner| <= |m.pages|
  {
    0 <= h < |m.owner| && m.owner[h] == h
  }

  ghost predicate BlockOk(m: Mem, h: nat)
    requires |m.owner| <= |m.pages| && h < |m.owner|
  {
    var size := Pow2(m.pages[h].order);
    && m.pages[h].order <= MAX_ORDER
    && Aligned(h, m.pages[h].order)
    && h + size <= |m.owner|
    && (forall p | h <= p < h + size :: m.owner[p] == h)
  }

  /** Blocks are aligned to their order, disjoint, and cover `[0, |owner|)`. */
  ghost predicate Tiled(m: Mem)
  {
    && |m.owner| <= |m.pages|
    && (forall p | 0 <= p < |m.owner| :: 0 <= m.owner[p] <= p && Head(m, m.owner[p]))
    && (forall p | 0 <= p < |m.owner| :: p < m.owner[p] + Pow2(m.pages[m.owner[p]].order))
    && (forall h | Head(m, h) :: BlockOk(m, h))
  }

  ghost predicate FreeHead(m: Mem, h: int)
    requires |m.owner| <= |m.pages|
  {
    Head(m, h) && m.pages[h].refcnt == 0
  }

  /**
   * The free list of order k holds exactly the free blocks of order k, once
   * each. Block `x` (unless NONE) is free but in no list: it is the block an
   * operation has in its hands.
   */
  ghost predicate Listed(m: Mem, x: int)
    requires |m.owner| <= |m.pages|
  {
    && |m.free| == MAX_ORDER + 1
    && (x != NONE ==> FreeHead(m, x))
    && (forall k, i | 0 <= k <= MAX_ORDER && 0 <= i < |m.free[k]| ::
          FreeHead(m, m.free[k][i]) && m.pages[m.free[k][i]].order == k && m.free[k][i] != x)
    && (forall k, i, j | 0 <= k <= MAX_ORDER && 0 <= i < j < |m.free[k]| :: m.free[k][i] != m.free[k][j])
    && (forall h | FreeHead(m, h) && h != x ::
          m.pages[h].order <= MAX_ORDER && h in m.free[m.pages[h].order])
  }

  /** The two halves of an aligned block of order k + 1. */
  ghost predicate Siblings(lo: int, hi: int, k: nat)
  {
    0 <= lo && Aligned(lo, k + 1) && hi == lo + Pow2(k)
  }

  /** Blocks `lo` and `hi` are free buddies of equal order below MAX_ORDER. */
  ghost predicate Mergeable(m: Mem, lo: int, hi: int)
    requires |m.owner| <= |m.pages|
  {
    && FreeHead(m, lo) && FreeHead(m, hi)
    && m.pages[lo].order == m.pages[hi].order
    && m.pages[lo].order < MAX_ORDER
    && Siblings(lo, hi, m.pages[lo].order)
  }

  /** No two free buddies of equal order coexist, leaving out the block in hand. */
  ghost predicate Canonical(m: Mem, x: int)
    requires |m.owner| <= |m.pages|
  {
    forall lo, hi | Mergeable(m, lo, hi) :: lo == x || hi == x
  }

  ghost predicate Inv(m: Mem, x: int)
  {
    Tiled(m) && Listed(m, x) && Canonical(m, x)
  }

  /** All pages are in some block. */
  ghost predicate Complete(m: Mem)
  {
    |m.owner| == |m.pages|
  }

  /** Page `p` is in a free block. */
  ghost predicate FreePage(m: Mem, p: int)
    requires Tiled(m)
  {
    0 <= p < |m.owner| && m.pages[m.owner[p]].refcnt == 0
  }

  /** The aligned run of `2^k` pages at `a` is wholly free. */
  ghost predicate FreeRun(m: Mem, a: int, k: nat)
    requires Tiled(m)
  {
    && 0 <= a && Aligned(a, k) && a + Pow2(k) <= |m.owner|
    && (forall p | a <= p < a + Pow2(k) :: FreePage(m, p))
  }

  datatype Block = Block(start: nat, order: nat)

  ghost function FreeBlocks(m: Mem): set<Block>
    requires Tiled(m)
  {
    set h | 0 <= h < |m.owner| && FreeHead(m, h) :: Block(h, m.pages[h].order)
  }

  ghost predicate SameFreePages(m: Mem, m': Mem)
    requires Tiled(m) && Tiled(m')
  {
    |m.owner| == |m'.owner| && forall p | 0 <= p < |m.owner| :: FreePage(m, p) <==> FreePage(m', p)
  }

  /** Allocated blocks with their order and reference count. */
  ghost function Live(m: Mem): map<nat, Page>
    requires |m.owner| <= |m.pages|
  {
    map h: nat | h < |m.owner| && Head(m, h) && m.pages[h].refcnt > 0 :: m.pages[h]
  }

  // --- Geometry of one block and its buddy ---

  /** `find_buddy` without the test against the end of the page map. */
  function Buddy(h: nat, k: nat): (b: int)
  {
    if (h / Pow2(k)) % 2 == 1 then h - Pow2(k) else h + Pow2(k)
  }

  /** `find_buddy` gives the other half of the block one order up. */
  lemma BuddyIsSibling(h: nat, k: nat)
    requires Aligned(h, k)
    ensures Buddy(h, k) > h ==> Siblings(h, Buddy(h, k), k)
    ensures Buddy(h, k) < h ==> Siblings(Buddy(h, k), h, k)
    ensures Buddy(h, k) != h
  {
    HalfAligned(h, k);
  }

  /**
   * Half of an aligned block of order k + 1 that is itself a block of order k
   * has a block starting exactly at the other half.
   */
  lemma SiblingIsHead(m: Mem, h: nat, b: nat, k: nat)
    requires Tiled(m) && Head(m, h) && m.pages[h].order == k
    requires Siblings(h, b, k) || Siblings(b, h, k)
    requires b < |m.owner|
    ensures Head(m, b)
  {
    var g := m.owner[b];
    var j := m.pages[g].order;
    var low := if b < h then b else h;
    AlignedDown(low, k, k + 1);
    AlignedStep(low, k, k);
    if j <= k {
      StartInside(g, j, b, k, b);
    } else {
      StartInside(low, k + 1, g, j, b);
      Nested(low, k + 1, g, j);
    }
  }

  /**
   * The page `merge_block` looks at is always the head of a block, whatever the
   * stale fields of interior pages say.
   */
  lemma BuddyIsHead(m: Mem, h: nat)
    requires Tiled(m) && Head(m, h) && m.pages[h].order < MAX_ORDER
    requires Buddy(h, m.pages[h].order) < |m.owner|
    ensures Buddy(h, m.pages[h].order) >= 0
    ensures Head(m, Buddy(h, m.pages[h].order))
  {
    assert BlockOk(m, h);
    BuddyIsSibling(h, m.pages[h].order);
    SiblingIsHead(m, h, Buddy(h, m.pages[h].order), m.pages[h].order);
  }

  /** Two different blocks do not overlap. */
  lemma HeadsDisjoint(m: Mem, g: nat, h: nat)
    requires Tiled(m) && Head(m, g) && Head(m, h) && g < h
    ensures g + Pow2(m.pages[g].order) <= h
  {
    assert BlockOk(m, g);
  }

  // --- The free blocks are the maximal aligned runs of free pages ---

  /** An aligned run of free pages lies inside one free block of at least its order. */
  lemma {:induction false} RunInsideBlock(m: Mem, a: nat, k: nat)
    requires Inv(m, NONE) && Complete(m) && k <= MAX_ORDER && FreeRun(m, a, k)
    ensures m.pages[m.owner[a]].order >= k
    ensures FreeHead(m, m.owner[a])
    ensures forall p | a <= p < a + Pow2(k) :: m.owner[p] == m.owner[a]
    decreases k
  {
    assert FreePage(m, a);
    if k > 0 {
      var c := a + Pow2(k - 1);
      AlignedDown(a, k - 1, k);
      AlignedStep(a, k - 1, k - 1);
      assert FreeRun(m, a, k - 1);
      RunInsideBlock(m, a, k - 1);
      forall p | c <= p < c + Pow2(k - 1) ensures FreePage(m, p) {}
      assert FreeRun(m, c, k - 1);
      RunInsideBlock(m, c, k - 1);
      if m.pages[m.owner[a]].order == k - 1 {
        HeadOfAligned(m, a, k - 1);
        SiblingIsHead(m, a, c, k - 1);
        if m.pages[c].order > k - 1 {
          AlignedDown(c, k, m.pages[c].order);
          AlignedApart(a, c, k);
        }
        assert Mergeable(m, a, c);
      }
      NestedRun(m, a, k);
    }
  }

  /** A page aligned to the order of its block is the head of the block. */
  lemma HeadOfAligned(m: Mem, a: nat, k: nat)
    requires Tiled(m) && a < |m.owner| && Aligned(a, k)
    requires m.pages[m.owner[a]].order == k
    ensures m.owner[a] == a
  {
    var g := m.owner[a];
    if g < a {
      AlignedApart(g, a, k);
    }
  }

  /** A run no larger than the block around its first page lies in that block. */
  lemma NestedRun(m: Mem, a: nat, k: nat)
    requires Tiled(m) && Aligned(a, k) && a < |m.owner|
    requires m.pages[m.owner[a]].order >= k
    ensures forall p | a <= p < a + Pow2(k) :: p < |m.owner| && m.owner[p] == m.owner[a]
  {
    Nested(a, k, m.owner[a], m.pages[m.owner[a]].order);
  }

  lemma BlockIsRun(m: Mem, h: nat)
    requires Tiled(m) && FreeHead(m, h)
    ensures FreeRun(m, h, m.pages[h].order)
  {
  }

  /** The free pages alone determine the free blocks. */
  lemma FreeBlockDetermined(m: Mem, m': Mem, h: nat)
    requires Inv(m, NONE) && Complete(m) && Inv(m', NONE) && Complete(m')
    requires SameFreePages(m, m') && FreeHead(m, h)
    ensures FreeHead(m', h) && m'.pages[h].order == m.pages[h].order
  {
    var k := m.pages[h].order;
    BlockIsRun(m, h);
    forall p | h <= p < h + Pow2(k) ensures FreePage(m', p) { assert FreePage(m, p); }
    assert FreeRun(m', h, k);
    RunInsideBlock(m', h, k);
    var g := m'.owner[h];
    var j := m'.pages[g].order;
    BlockIsRun(m', g);
    forall p | g <= p < g + Pow2(j) ensures FreePage(m, p) { assert FreePage(m', p); }
    assert FreeRun(m, g, j);
    RunInsideBlock(m, g, j);
    assert m.owner[h] == m.owner[g];
  }

  lemma CanonicalForm(m: Mem, m': Mem)
    requires Inv(m, NONE) && Complete(m) && Inv(m', NONE) && Complete(m')
    requires SameFreePages(m, m')
    ensures FreeBlocks(m) == FreeBlocks(m')
  {
    forall b | b in FreeBlocks(m) ensures b in FreeBlocks(m') {
      FreeBlockDetermined(m, m', b.start);
    }
    forall b | b in FreeBlocks(m') ensures b in FreeBlocks(m) {
      FreeBlockDetermined(m', m, b.start);
    }
  }

  /** A block of order at least k is listed exactly when some aligned run of order k is wholly free. */
  lemma RunIffListed(m: Mem, k: nat)
    requires Inv(m, NONE) && Complete(m) && k <= MAX_ORDER
    ensures (exists a :: FreeRun(m, a, k)) <==> (exists j | k <= j <= MAX_ORDER :: m.free[j] != [])
  {
    if a :| FreeRun(m, a, k) {
      RunInsideBlock(m, a, k);
      var j := m.pages[m.owner[a]].order;
      assert m.owner[a] in m.free[j];
      assert m.free[j] != [];
    }
    if j :| k <= j <= MAX_ORDER && m.free[j] != [] {
      var h := m.free[j][0];
      BlockIsRun(m, h);
      AlignedDown(h, k, j);
      Pow2Monotone(k, j);
      forall p | h <= p < h + Pow2(k) ensures FreePage(m, p) {}
      assert FreeRun(m, h, k);
    }
  }
}
