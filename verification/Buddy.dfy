/**
 * The binary buddy allocator: the page map and the free lists of every order,
 * updated in place.
 */
module Buddy {
  import opened Basics
  import opened NatLists
  import opened PowersOfTwo
  import opened BuddyTiling
  import opened BuddySteps
  import opened BuddyBoot
  import opened BootBitmap

  datatype AllocResult = Allocated(page: nat) | NoMem | Panic

  /** The smallest order whose blocks hold n pages. */
  function MinOrder(n: nat): (k: nat)
    ensures n <= Pow2(k) && forall j: nat | j < k :: Pow2(j) < n
  {
    if n <= 1 then 0 else MinOrder((n + 1) / 2) + 1
  }

  /** The largest blocks have 1024 pages. */
  lemma OrderBound(n: nat)
    ensures MinOrder(n) <= MAX_ORDER <==> n <= 1024
  {
    assert Pow2(10) == 2 * Pow2(9) == 4 * Pow2(8) == 8 * Pow2(7) == 16 * Pow2(6) == 32 * Pow2(5) == 64 * Pow2(4);
    assert Pow2(4) == 16;
    if MinOrder(n) < 10 {
      PowUp(MinOrder(n), 10);
    }
  }

  /** `get_min_page_order`; no result stands for its panic above `2^MAX_ORDER` pages. */
  method GetMinPageOrder(n: nat) returns (r: Option<nat>)
    ensures r == if n <= 1024 then Some(MinOrder(n)) else None
    ensures r.Some? ==> r.value <= MAX_ORDER
  {
    var order := 0;
    while order <= MAX_ORDER
      invariant 0 <= order <= MAX_ORDER + 1
      invariant order <= MinOrder(n)
    {
      if Pow2(order) >= n {
        OrderBound(n);
        return Some(order);
      }
      order := order + 1;
    }
    OrderBound(n);
    return None;
  }

  /** The largest order of an aligned block that starts at `start` and stays below `end`. */
  method GetMaxPageOrder(start: nat, end: nat) returns (order: nat)
    requires start < end
    ensures order <= MAX_ORDER && Aligned(start, order) && start + Pow2(order) <= end
    ensures forall j: nat | order < j <= MAX_ORDER :: !(Aligned(start, j) && start + Pow2(j) <= end)
  {
    order := MAX_ORDER;
    while order > 0
      invariant order <= MAX_ORDER
      invariant forall j: nat | order < j <= MAX_ORDER :: !(Aligned(start, j) && start + Pow2(j) <= end)
    {
      AlignedIsDivisible(start, order);
      if start % Pow2(order) == 0 && start + Pow2(order) <= end {
        return;
      }
      order := order - 1;
    }
  }

  /** What a successful allocation of a block of order k at page p does. */
  ghost predicate AllocPost(m: Mem, m': Mem, p: nat, k: nat)
  {
    && Inv(m, NONE) && Inv(m', NONE) && Complete(m) && Complete(m')
    && |m.pages| == |m'.pages| && FreeRun(m, p, k)
    && (forall q | 0 <= q < |m.owner| :: FreePage(m', q) <==> FreePage(m, q) && !(p <= q < p + Pow2(k)))
    && Live(m') == Live(m)[p := Page(k, 1)]
  }

  /** What freeing the allocated block at page p does. */
  ghost predicate FreePost(m: Mem, m': Mem, p: nat)
  {
    && Inv(m, NONE) && Inv(m', NONE) && Complete(m) && Complete(m')
    && |m.pages| == |m'.pages| && p in Live(m)
    && (forall q | 0 <= q < |m.owner| ::
          FreePage(m', q) <==> FreePage(m, q) || p <= q < p + Pow2(Live(m)[p].order))
    && Live(m') == Live(m) - {p}
  }

  /** Freeing a block just allocated restores the very same free blocks. */
  lemma FreeAfterAlloc(m0: Mem, m1: Mem, m2: Mem, p: nat, k: nat)
    requires AllocPost(m0, m1, p, k) && FreePost(m1, m2, p)
    ensures FreeBlocks(m2) == FreeBlocks(m0)
    ensures Live(m2) == Live(m0)
  {
    SameAfterRoundTrip(m0, m1, m2, p, k);
    CanonicalForm(m0, m2);
  }

  lemma SameAfterRoundTrip(m0: Mem, m1: Mem, m2: Mem, p: nat, k: nat)
    requires AllocPost(m0, m1, p, k) && FreePost(m1, m2, p)
    ensures SameFreePages(m0, m2) && p !in Live(m0)
  {
    assert FreePage(m0, p);
    forall q | 0 <= q < |m0.owner| ensures FreePage(m0, q) <==> FreePage(m2, q) {
      assert FreePage(m2, q) <==> FreePage(m1, q) || p <= q < p + Pow2(k);
      assert FreePage(m1, q) <==> FreePage(m0, q) && !(p <= q < p + Pow2(k));
    }
  }

  /** An allocated block never overlaps another allocated block or a free page. */
  lemma LiveBlocksDisjoint(m: Mem, p: nat, q: nat)
    requires Inv(m, NONE) && p in Live(m) && q in Live(m) && p < q
    ensures p + Pow2(Live(m)[p].order) <= q
    ensures forall i | p <= i < p + Pow2(Live(m)[p].order) :: !FreePage(m, i)
  {
    HeadsDisjoint(m, p, q);
    assert BlockOk(m, p);
  }

  /** While page 0 is taken, no allocation answers with physical address zero. */
  lemma NeverNull(m: Mem, m': Mem, p: nat, k: nat)
    requires AllocPost(m, m', p, k) && 0 in Live(m)
    ensures p != 0
  {
    assert FreePage(m, p);
  }

  /** The end of the run of clear bits that starts at `index`. */
  method EndOfRun(bitmap: seq<bool>, index: nat, limit: nat) returns (probe: nat)
    requires index < limit <= |bitmap| && !bitmap[index]
    ensures index < probe <= limit && (forall i | index <= i < probe :: !bitmap[i]) && (probe < limit ==> bitmap[probe])
  {
    probe := index + 1;
    while probe < limit && !bitmap[probe]
      invariant index < probe <= limit
      invariant forall i | index <= i < probe :: !bitmap[i]
    {
      probe := probe + 1;
    }
  }

  class Pmem {
    const pages: array<Page>
    var free: seq<seq<nat>>
    ghost var owner: seq<nat>

    /**
     * `freeblocks_init`: pages below `start` and pages set in the boot bitmap
     * become allocated blocks of order 0; every run of clear pages is cut
     * greedily into the largest aligned blocks.
     */
    constructor (start: nat, bitmap: seq<bool>, contig: nat)
      requires ContigOk(bitmap, contig)
      ensures Valid() && pages.Length == start + |bitmap| && fresh(pages)
      ensures forall p | 0 <= p < pages.Length :: FreePage(State(), p) <==> BootFree(start, bitmap, p)
      ensures forall p: nat | p < pages.Length && !BootFree(start, bitmap, p) ::
        p in Live(State()) && Live(State())[p] == Page(0, 1)
    {
      pages := new Page[start + |bitmap|](_ => Page(0, 0));
      free := seq(MAX_ORDER + 1, _ => []);
      owner := [];
      new;
      TakeLow(start, bitmap);
      TakeContig(start, bitmap, contig);
      InsertRange(start + contig, pages.Length, start, bitmap);
      BootCanonical(State(), start, bitmap);
    }

    /** The pages below the first one that boot manages. */
    method TakeLow(start: nat, ghost bitmap: seq<bool>)
      requires BootInv(State(), start, bitmap) && owner == [] && start <= pages.Length
      modifies this, pages
      ensures BootInv(State(), start, bitmap) && |owner| == start
    {
      var paddr := 0;
      while paddr < start
        invariant 0 <= paddr <= start && paddr == |owner|
        invariant BootInv(State(), start, bitmap)
      {
        InsertTaken(paddr, start, bitmap);
        paddr := paddr + 1;
      }
    }

    /** The part of the bitmap that boot has searched. */
    method TakeContig(start: nat, bitmap: seq<bool>, contig: nat)
      requires BootInv(State(), start, bitmap) && ContigOk(bitmap, contig) && |owner| == start && start + |bitmap| == pages.Length
      modifies this, pages
      ensures BootInv(State(), start, bitmap) && |owner| == start + contig
    {
      var index := 0;
      while index < contig
        invariant 0 <= index <= contig && |owner| == start + index
        invariant BootInv(State(), start, bitmap)
      {
        if bitmap[index] {
          InsertTaken(start + index, start, bitmap);
          index := index + 1;
        } else {
          var probe := EndOfRun(bitmap, index, contig);
          InsertRange(start + index, start + probe, start, bitmap);
          index := probe;
        }
      }
    }

    /** A page boot has taken becomes an allocated block of order 0. */
    method InsertTaken(page: nat, ghost start: nat, ghost bitmap: seq<bool>)
      requires BootInv(State(), start, bitmap) && page == |owner| < pages.Length
      requires !BootFree(start, bitmap, page)
      modifies this, pages
      ensures BootInv(State(), start, bitmap) && |owner| == page + 1
    {
      ghost var m := State();
      pages[page] := Page(0, 1);
      owner := owner + seq(Pow2(0), _ => page);
      assert pages[..] == AddBlock(m, Page(0, 1)).pages;
      assert State() == AddBlock(m, Page(0, 1));
      AddBlockKeeps(m, Page(0, 1), start, bitmap);
    }

    /** `freeblocks_insert_range`: cuts a maximal run of free pages into blocks. */
    method InsertRange(first: nat, end: nat, ghost start: nat, ghost bitmap: seq<bool>)
      requires BootInv(State(), start, bitmap) && first == |owner| <= end <= pages.Length
      requires forall p | first <= p < end :: BootFree(start, bitmap, p)
      requires !BootFree(start, bitmap, end)
      modifies this, pages
      ensures BootInv(State(), start, bitmap) && |owner| == end
    {
      var s := first;
      while s < end
        invariant first <= s <= end && s == |owner|
        invariant BootInv(State(), start, bitmap)
      {
        var order := GetMaxPageOrder(s, end);
        InsertFree(s, order, end, start, bitmap);
        s := s + Pow2(order);
      }
    }

    /** One greedily chosen free block. */
    method InsertFree(page: nat, order: nat, ghost end: nat, ghost start: nat, ghost bitmap: seq<bool>)
      requires BootInv(State(), start, bitmap) && page == |owner| < end <= pages.Length
      requires forall p | page <= p < end :: BootFree(start, bitmap, p)
      requires !BootFree(start, bitmap, end)
      requires order <= MAX_ORDER && Aligned(page, order) && page + Pow2(order) <= end
      requires forall j: nat | order < j <= MAX_ORDER :: !(Aligned(page, j) && page + Pow2(j) <= end)
      modifies this, pages
      ensures BootInv(State(), start, bitmap) && |owner| == page + Pow2(order)
    {
      ghost var m := State();
      pages[page] := Page(order, 0);
      free := free[order := free[order] + [page]];
      owner := owner + seq(Pow2(order), _ => page);
      assert pages[..] == AddBlock(m, Page(order, 0)).pages;
      assert State() == AddBlock(m, Page(order, 0));
      if order < MAX_ORDER && Aligned(page, order + 1) {
        assert page <= end < page + Pow2(order + 1);
        assert Blocked(start, bitmap, page, order);
      }
      AddBlockKeeps(m, Page(order, 0), start, bitmap);
    }

    ghost function State(): Mem
      reads this, pages
    {
      Mem(pages[..], free, owner)
    }

    ghost predicate Valid()
      reads this, pages
    {
      Inv(State(), NONE) && Complete(State())
    }

    /** The block in hand is `x`; used between the steps of one operation. */
    ghost predicate Holding(x: nat)
      reads this, pages
    {
      Inv(State(), x) && Complete(State())
    }

    /** `find_buddy`: the other half of the enclosing block, or nothing past the last page. */
    method FindBuddy(page: nat) returns (b: Option<nat>)
      requires page < pages.Length && Aligned(page, pages[page].order)
      ensures b.Some? <==> Buddy(page, pages[page].order) < pages.Length
      ensures b.Some? ==> b.value < pages.Length && b.value == Buddy(page, pages[page].order)
    {
      var k := pages[page].order;
      BuddyIsSibling(page, k);
      var b' := Buddy(page, k);
      if b' >= pages.Length {
        return None;
      }
      return Some(b');
    }

    /**
     * `find_freeblock`: takes a block of the given order out of the lists,
     * splitting a larger one if need be. With `split` set, the block is halved
     * once more and the upper half listed.
     */
    method FindFreeblock(order: int, split: bool) returns (r: Option<nat>)
      requires Valid() && (split ==> order > 0)
      modifies this, pages
      ensures r.None? ==> State() == old(State())
      ensures r.None? <==> order < 0 || forall j | order <= j <= MAX_ORDER :: old(free)[j] == []
      ensures r.Some? ==> Holding(r.value) && pages[r.value].order == (if split then order - 1 else order)
      ensures r.Some? ==> SameView(old(State()), State())
      decreases MAX_ORDER + 1 - order
    {
      if order < 0 || order > MAX_ORDER {
        return None;
      }
      var page: nat;
      if free[order] != [] {
        page := free[order][0];
        PopKeeps(State(), order);
        free := free[order := free[order][1..]];
        assert State() == Pop(old(State()), order);
      } else {
        var p := FindFreeblock(order + 1, true);
        if p.None? {
          return None;
        }
        page := p.value;
      }
      if split {
        SplitInHand(page);
      }
      return Some(page);
    }

    /** The splitting half of `find_freeblock`. */
    method SplitInHand(page: nat)
      requires Holding(page) && pages[page].order > 0
      modifies this, pages
      ensures Holding(page) && SameView(old(State()), State())
      ensures pages[page].order == old(pages[page].order) - 1
    {
      ghost var m := State();
      SplitBuddy(m, page);
      var k := pages[page].order - 1;
      pages[page] := pages[page].(order := k);
      var buddy := FindBuddy(page);
      pages[buddy.value] := Page(k, 0);
      free := free[k := free[k] + [buddy.value]];
      owner := Retag(owner, buddy.value, Pow2(k), buddy.value);
      assert pages[..] == Split(m, page).pages;
      assert State() == Split(m, page);
      SplitKeeps(m, page);
    }

    /**
     * `pmem_nalloc` after boot: succeeds exactly when some aligned run of the
     * needed order is wholly free, and panics above the largest order.
     */
    method Nalloc(n: nat) returns (r: AllocResult)
      requires Valid() && n > 0
      modifies this, pages
      ensures Valid()
      ensures r.Panic? <==> n > 1024
      ensures r.NoMem? <==> n <= 1024 && !exists a :: FreeRun(old(State()), a, MinOrder(n))
      ensures !r.Allocated? ==> State() == old(State())
      ensures r.Allocated? ==> AllocPost(old(State()), State(), r.page, MinOrder(n))
    {
      var o := GetMinPageOrder(n);
      if o.None? {
        return Panic;
      }
      r := AllocBlock(o.value);
    }

    method AllocBlock(order: nat) returns (r: AllocResult)
      requires Valid() && order <= MAX_ORDER
      modifies this, pages
      ensures Valid() && !r.Panic?
      ensures r.NoMem? <==> !exists a :: FreeRun(old(State()), a, order)
      ensures !r.Allocated? ==> State() == old(State())
      ensures r.Allocated? ==> AllocPost(old(State()), State(), r.page, order)
    {
      RunIffListed(State(), order);
      var p := FindFreeblock(order, false);
      if p.None? {
        return NoMem;
      }
      ghost var m := State();
      Claim(p.value);
      AllocSteps(old(State()), m, State(), p.value, order);
      return Allocated(p.value);
    }

    /** The count of the block in hand becomes 1 and the block is the caller's. */
    method Claim(page: nat)
      requires Holding(page)
      modifies pages
      ensures Valid() && |State().pages| == |old(State()).pages|
      ensures FreeRun(old(State()), page, old(pages[page].order))
      ensures forall q | 0 <= q < |owner| ::
        FreePage(State(), q) <==> FreePage(old(State()), q) && !(page <= q < page + Pow2(old(pages[page].order)))
      ensures Live(State()) == Live(old(State()))[page := Page(old(pages[page].order), 1)]
    {
      ghost var m := State();
      ClaimKeeps(m, page, 1);
      SetRefPages(m, page, 1);
      BlockIsRun(m, page);
      pages[page] := pages[page].(refcnt := 1);
      assert pages[..] == SetRef(m, page, 1).pages;
      assert State() == SetRef(m, page, 1);
    }

    /** `merge_block`: merges the block in hand with free buddies as long as it can. */
    method MergeBlock(page: nat) returns (r: nat)
      requires Holding(page)
      modifies this, pages
      ensures Holding(r) && SameView(old(State()), State())
      ensures forall b :: !Mergeable(State(), r, b) && !Mergeable(State(), b, r)
      decreases MAX_ORDER - pages[page].order
    {
      ghost var m := State();
      assert BlockOk(m, page);
      var k := pages[page].order;
      if k == MAX_ORDER {
        return page;
      }
      var buddy := FindBuddy(page);
      NoOtherSibling(m, page);
      if buddy.Some? && pages[buddy.value].refcnt == 0 && pages[buddy.value].order == k {
        BuddyIsHead(m, page);
        var b := buddy.value;
        MergePair(page, b);
        r := MergeBlock(if page < b then page else b);
      } else {
        r := page;
      }
    }

    /** One round of `merge_block`. */
    method MergePair(page: nat, b: nat)
      requires Holding(page) && pages[page].order < MAX_ORDER
      requires FreeHead(State(), b) && pages[b].order == pages[page].order
      requires b == Buddy(page, pages[page].order)
      modifies this, pages
      ensures Holding(if page < b then page else b) && SameView(old(State()), State())
      ensures pages[if page < b then page else b].order == old(pages[page].order) + 1
    {
      ghost var m := State();
      var k := pages[page].order;
      var lo, hi := if page < b then page else b, if page < b then b else page;
      MergeSiblings(m, page, b);
      free := free[k := Without(free[k], b)];
      pages[lo] := pages[lo].(order := k + 1);
      owner := Retag(owner, hi, Pow2(k), lo);
      assert pages[..] == Merge(m, lo, hi, b).pages;
      assert State() == Merge(m, lo, hi, b);
      MergeKeeps(m, lo, hi, page, b);
    }

    /** `freeblocks_insert` of the block in hand. */
    method InsertInHand(page: nat)
      requires Holding(page)
      requires forall b :: !Mergeable(State(), page, b) && !Mergeable(State(), b, page)
      modifies this
      ensures Valid() && SameView(old(State()), State())
    {
      ghost var m := State();
      InsertKeeps(m, page);
      free := free[pages[page].order := free[pages[page].order] + [page]];
      assert State() == Insert(m, page);
    }

    /** `pmem_nfree` after boot: the whole block goes back, whatever size the caller names. */
    method Nfree(page: nat)
      requires Valid() && page in Live(State())
      modifies this, pages
      ensures FreePost(old(State()), State(), page)
      ensures Valid()
    {
      ghost var m := State();
      ReleaseKeeps(m, page);
      pages[page] := pages[page].(refcnt := 0);
      assert pages[..] == SetRef(m, page, 0).pages;
      assert State() == SetRef(m, page, 0);
      SetRefPages(m, page, 0);
      var block := MergeBlock(page);
      InsertInHand(block);
    }

    /** `pmem_inc_refcnt`. */
    method IncRefcnt(page: nat, n: nat)
      requires Valid() && page in Live(State()) && pages[page].order == 0
      modifies pages
      ensures Valid()
      ensures CountPost(old(State()), State(), page, old(pages[page].refcnt) + n)
    {
      ghost var m := State();
      var count := pages[page].refcnt + n;
      pages[page] := pages[page].(refcnt := count);
      assert pages[..] == SetRef(m, page, count).pages;
      assert State() == SetRef(m, page, count);
      Recounted(m, page, count);
    }

    /** `pmem_dec_refcnt`: the page is freed exactly when the last reference goes. */
    method DecRefcnt(page: nat)
      requires Valid() && page in Live(State()) && pages[page].order == 0
      modifies this, pages
      ensures Valid()
      ensures old(pages[page].refcnt) == 1 ==> FreePost(old(State()), State(), page)
      ensures old(pages[page].refcnt) > 1 ==> CountPost(old(State()), State(), page, old(pages[page].refcnt) - 1)
    {
      var count := pages[page].refcnt - 1;
      if count == 0 {
        Nfree(page);
      } else {
        ghost var m := State();
        pages[page] := pages[page].(refcnt := count);
        assert pages[..] == SetRef(m, page, count).pages;
        assert State() == SetRef(m, page, count);
        Recounted(m, page, count);
      }
    }
  }

  /** Only the reference count of the allocated page p has changed, to n. */
  ghost predicate CountPost(m: Mem, m': Mem, p: nat, n: nat)
  {
    && Inv(m, NONE) && Inv(m', NONE) && p in Live(m)
    && FreeBlocks(m') == FreeBlocks(m) && Live(m') == Live(m)[p := Page(Live(m)[p].order, n)]
  }

  lemma Recounted(m: Mem, page: nat, n: nat)
    requires Inv(m, NONE) && Complete(m) && page in Live(m) && n > 0
    ensures CountPost(m, SetRef(m, page, n), page, n) && Complete(SetRef(m, page, n))
  {
    RecountKeeps(m, page, n);
    SetRefPages(m, page, n);
    assert BlockOk(m, page);
    CanonicalForm(m, SetRef(m, page, n));
  }

  lemma AllocSteps(m: Mem, m1: Mem, m': Mem, p: nat, k: nat)
    requires Inv(m, NONE) && Complete(m) && Inv(m1, p) && SameView(m, m1) && Inv(m', NONE) && Complete(m')
    requires |m1.pages| == |m'.pages| && FreeRun(m1, p, k)
    requires forall q | 0 <= q < |m1.owner| :: FreePage(m', q) <==> FreePage(m1, q) && !(p <= q < p + Pow2(k))
    requires Live(m') == Live(m1)[p := Page(k, 1)]
    ensures AllocPost(m, m', p, k)
  {
    forall q | p <= q < p + Pow2(k) ensures FreePage(m, q) {
      assert FreePage(m1, q);
    }
  }

  lemma SplitBuddy(m: Mem, page: nat)
    requires Inv(m, page) && m.pages[page].order > 0
    ensures var k := m.pages[page].order - 1;
            Aligned(page, k) && Buddy(page, k) == page + Pow2(k) && page + Pow2(k) < |m.pages| && k < |m.free|
  {
    var k := m.pages[page].order - 1;
    assert BlockOk(m, page);
    AlignedDown(page, k, k + 1);
    HalfAligned(page, k);
  }

  lemma MergeSiblings(m: Mem, page: nat, b: nat)
    requires Inv(m, page) && m.pages[page].order < MAX_ORDER
    requires FreeHead(m, b) && m.pages[b].order == m.pages[page].order
    requires b == Buddy(page, m.pages[page].order)
    ensures Mergeable(m, if page < b then page else b, if page < b then b else page)
  {
    assert BlockOk(m, page);
    BuddyIsSibling(page, m.pages[page].order);
  }

  /** A block has one sibling: the one `find_buddy` computes. */
  lemma NoOtherSibling(m: Mem, page: nat)
    requires Tiled(m) && Head(m, page)
    ensures forall b | Mergeable(m, page, b) || Mergeable(m, b, page) :: b == Buddy(page, m.pages[page].order)
  {
    var k := m.pages[page].order;
    assert BlockOk(m, page);
    BuddyIsSibling(page, k);
    forall b | Mergeable(m, page, b) || Mergeable(m, b, page) ensures b == Buddy(page, k) {
      HalfAligned(page, k);
      if Mergeable(m, b, page) && Aligned(page, k + 1) {
        AlignedApart(b, page, k + 1);
      }
    }
  }
}
