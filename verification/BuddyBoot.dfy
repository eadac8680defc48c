/** Building the first free lists from the boot bitmap. */
module BuddyBoot {
  import opened PowersOfTwo
  import opened BuddyTiling
  import opened BuddySteps

  /** Boot-time description of memory: pages below `start` or set in `bitmap` are taken. */
  ghost predicate BootFree(start: nat, bitmap: seq<bool>, p: int)
  {
    start <= p < start + |bitmap| && !bitmap[p - start]
  }

  /** The block one order up around block `h` holds a page that boot has taken. */
  ghost predicate Blocked(start: nat, bitmap: seq<bool>, h: int, k: nat)
  {
    exists p :: h <= p < h + Pow2(k + 1) && !BootFree(start, bitmap, p)
  }

  /** The free blocks built so far were cut greedily. */
  ghost predicate Greedy(m: Mem, start: nat, bitmap: seq<bool>)
    requires |m.owner| <= |m.pages|
  {
    forall h | FreeHead(m, h) && m.pages[h].order < MAX_ORDER && Aligned(h, m.pages[h].order + 1) ::
      Blocked(start, bitmap, h, m.pages[h].order)
  }

  ghost predicate Faithful(m: Mem, start: nat, bitmap: seq<bool>)
    requires Tiled(m)
  {
    && (forall p | 0 <= p < |m.owner| :: FreePage(m, p) <==> BootFree(start, bitmap, p))
    && (forall p | 0 <= p < |m.owner| && !BootFree(start, bitmap, p) :: m.owner[p] == p && m.pages[p] == Page(0, 1))
  }

  /** Pages `[0, |owner|)` have been turned into blocks. */
  ghost predicate BootInv(m: Mem, start: nat, bitmap: seq<bool>)
  {
    && |m.pages| == start + |bitmap|
    && Tiled(m) && Listed(m, NONE) && Greedy(m, start, bitmap) && Faithful(m, start, bitmap)
  }

  /** The next block starts at the first page without an owner. */
  function AddBlock(m: Mem, pg: Page): (r: Mem)
    requires |m.owner| < |m.pages| && pg.order < |m.free|
  {
    var h := |m.owner|;
    Mem(m.pages[h := pg],
        if pg.refcnt == 0 then m.free[pg.order := m.free[pg.order] + [h]] else m.free,
        m.owner + seq(Pow2(pg.order), _ => h))
  }

  lemma AddBlockTiled(m: Mem, pg: Page)
    requires Tiled(m) && |m.free| == MAX_ORDER + 1 && pg.order <= MAX_ORDER
    requires |m.owner| + Pow2(pg.order) <= |m.pages| && Aligned(|m.owner|, pg.order)
    ensures Tiled(AddBlock(m, pg))
    ensures forall h :: Head(AddBlock(m, pg), h) <==> Head(m, h) || h == |m.owner|
  {
    var m' := AddBlock(m, pg);
    forall h ensures Head(m', h) <==> Head(m, h) || h == |m.owner| {}
    forall h | Head(m', h) ensures BlockOk(m', h) {
      if h < |m.owner| {
        assert BlockOk(m, h);
      }
    }
    forall p | 0 <= p < |m'.owner|
      ensures 0 <= m'.owner[p] <= p && Head(m', m'.owner[p])
      ensures p < m'.owner[p] + Pow2(m'.pages[m'.owner[p]].order)
    {
      if p < |m.owner| {
        assert Head(m, m.owner[p]);
      }
    }
  }

  lemma AddBlockListed(m: Mem, pg: Page)
    requires Tiled(m) && Listed(m, NONE) && pg.order <= MAX_ORDER && |m.owner| < |m.pages|
    requires |AddBlock(m, pg).owner| <= |m.pages|
    requires forall h :: Head(AddBlock(m, pg), h) <==> Head(m, h) || h == |m.owner|
    ensures Listed(AddBlock(m, pg), NONE)
  {
    var m' := AddBlock(m, pg);
    var x := |m.owner|;
    forall h | FreeHead(m', h) ensures m'.pages[h].order <= MAX_ORDER && h in m'.free[m'.pages[h].order] {
      if h == x {
        assert m'.free[pg.order][|m.free[pg.order]|] == x;
      } else {
        assert FreeHead(m, h) && h in m.free[m.pages[h].order];
      }
    }
    forall j, i | 0 <= j <= MAX_ORDER && 0 <= i < |m'.free[j]|
      ensures FreeHead(m', m'.free[j][i]) && m'.pages[m'.free[j][i]].order == j
    {
      if i < |m.free[j]| {
        assert FreeHead(m, m.free[j][i]);
      }
    }
  }

  /** What a new block at the first unowned page must satisfy. */
  ghost predicate Admissible(h: nat, pg: Page, start: nat, bitmap: seq<bool>)
  {
    if pg.refcnt == 0 then
      && (forall p | h <= p < h + Pow2(pg.order) :: BootFree(start, bitmap, p))
      && (pg.order < MAX_ORDER && Aligned(h, pg.order + 1) ==> Blocked(start, bitmap, h, pg.order))
    else
      pg == Page(0, 1) && !BootFree(start, bitmap, h)
  }

  lemma AddBlockGreedy(m: Mem, pg: Page, start: nat, bitmap: seq<bool>)
    requires Tiled(m) && Greedy(m, start, bitmap) && Admissible(|m.owner|, pg, start, bitmap)
    requires |m.owner| < |m.pages| && pg.order < |m.free| && Tiled(AddBlock(m, pg))
    requires forall h :: Head(AddBlock(m, pg), h) <==> Head(m, h) || h == |m.owner|
    ensures Greedy(AddBlock(m, pg), start, bitmap)
  {
    var m' := AddBlock(m, pg);
    forall h | FreeHead(m', h) && m'.pages[h].order < MAX_ORDER && Aligned(h, m'.pages[h].order + 1)
      ensures Blocked(start, bitmap, h, m'.pages[h].order)
    {
      if h != |m.owner| {
        assert FreeHead(m, h);
      }
    }
  }

  lemma AddBlockFaithful(m: Mem, pg: Page, start: nat, bitmap: seq<bool>)
    requires Tiled(m) && Faithful(m, start, bitmap) && Admissible(|m.owner|, pg, start, bitmap)
    requires |m.owner| < |m.pages| && pg.order < |m.free| && Tiled(AddBlock(m, pg))
    ensures Faithful(AddBlock(m, pg), start, bitmap)
  {
    var m' := AddBlock(m, pg);
    forall p | 0 <= p < |m'.owner|
      ensures FreePage(m', p) <==> BootFree(start, bitmap, p)
      ensures !BootFree(start, bitmap, p) ==> m'.owner[p] == p && m'.pages[p] == Page(0, 1)
    {
      if p < |m.owner| {
        assert FreePage(m, p) <==> BootFree(start, bitmap, p);
      }
    }
  }

  lemma AddBlockKeeps(m: Mem, pg: Page, start: nat, bitmap: seq<bool>)
    requires BootInv(m, start, bitmap) && pg.order <= MAX_ORDER
    requires |m.owner| + Pow2(pg.order) <= |m.pages| && Aligned(|m.owner|, pg.order)
    requires Admissible(|m.owner|, pg, start, bitmap)
    ensures BootInv(AddBlock(m, pg), start, bitmap)
  {
    AddBlockTiled(m, pg);
    AddBlockListed(m, pg);
    AddBlockGreedy(m, pg, start, bitmap);
    AddBlockFaithful(m, pg, start, bitmap);
  }

  /** Greedily cut blocks leave no two free buddies of equal order. */
  lemma BootCanonical(m: Mem, start: nat, bitmap: seq<bool>)
    requires BootInv(m, start, bitmap)
    ensures Inv(m, NONE)
  {
    forall lo, hi ensures !Mergeable(m, lo, hi) {
      NotMergeable(m, lo, hi, start, bitmap);
    }
  }

  lemma NotMergeable(m: Mem, lo: int, hi: int, start: nat, bitmap: seq<bool>)
    requires BootInv(m, start, bitmap)
    ensures !Mergeable(m, lo, hi)
  {
    if Mergeable(m, lo, hi) {
      BlockIsRun(m, lo);
      BlockIsRun(m, hi);
      assert false;
    }
  }
}
