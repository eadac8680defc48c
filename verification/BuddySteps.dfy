/**
 * The elementary updates the buddy allocator is built from, as functions on
 * states, each with the lemma that says what it keeps.
 */
module BuddySteps {
  import opened NatLists
  import opened PowersOfTwo
  import opened BuddyTiling

  /** Pages `[a, a + len)` now belong to the block headed by `h`. */
  function Retag(owner: seq<nat>, a: nat, len: nat, h: nat): (r: seq<nat>)
    ensures |r| == |owner|
    ensures forall i | 0 <= i < |r| :: r[i] == if a <= i < a + len then h else owner[i]
  {
    seq(|owner|, i requires 0 <= i < |owner| => if a <= i < a + len then h else owner[i])
  }

  /** What no elementary step changes: the free pages and the allocated blocks. */
  ghost predicate SameView(m: Mem, m': Mem)
    requires Tiled(m) && Tiled(m')
  {
    |m.pages| == |m'.pages| && SameFreePages(m, m') && Live(m) == Live(m')
  }

  /** Page `h` heads an allocated block. */
  ghost predicate LiveHead(m: Mem, h: int)
    requires |m.owner| <= |m.pages|
  {
    Head(m, h) && m.pages[h].refcnt > 0
  }

  lemma LiveSame(m: Mem, m': Mem)
    requires |m.owner| == |m'.owner| <= |m.pages| && |m.owner| <= |m'.pages|
    requires forall h :: LiveHead(m, h) <==> LiveHead(m', h)
    requires forall h | LiveHead(m, h) :: m.pages[h] == m'.pages[h]
    ensures Live(m) == Live(m')
  {
    forall h: nat | h < |m.owner|
      ensures h in Live(m) <==> h in Live(m')
      ensures h in Live(m) ==> Live(m)[h] == Live(m')[h]
    {
      assert LiveHead(m, h) <==> LiveHead(m', h);
    }
  }

  /** Relinking free lists moves no block. */
  lemma ListsApart(m: Mem, m': Mem)
    requires Tiled(m) && m'.pages == m.pages && m'.owner == m.owner
    ensures Tiled(m') && SameFreePages(m, m') && Live(m) == Live(m')
  {
    assert forall h :: Head(m', h) <==> Head(m, h);
    forall h | Head(m', h) ensures BlockOk(m', h) {
      assert BlockOk(m, h);
    }
  }

  // --- Taking the first block of a list ---

  function Pop(m: Mem, k: nat): (r: Mem)
    requires k < |m.free| && m.free[k] != []
  {
    m.(free := m.free[k := m.free[k][1..]])
  }

  lemma PopKeeps(m: Mem, k: nat)
    requires Inv(m, NONE) && k <= MAX_ORDER && m.free[k] != []
    ensures Inv(Pop(m, k), m.free[k][0]) && SameView(m, Pop(m, k))
    ensures m.pages[m.free[k][0]].order == k
  {
    var x := m.free[k][0];
    var m' := Pop(m, k);
    assert FreeHead(m, x) && m.pages[x].order == k;
    ListsApart(m, m');
    assert Canonical(m', x) by {
      assert forall lo, hi :: Mergeable(m', lo, hi) ==> Mergeable(m, lo, hi);
    }
    PopListed(m, k);
  }

  lemma PopListed(m: Mem, k: nat)
    requires Tiled(m) && Listed(m, NONE) && k <= MAX_ORDER && m.free[k] != []
    ensures Listed(Pop(m, k), m.free[k][0])
  {
    var x := m.free[k][0];
    var m' := Pop(m, k);
    forall h | FreeHead(m', h) && h != x
      ensures m'.pages[h].order <= MAX_ORDER && h in m'.free[m'.pages[h].order]
    {
      assert FreeHead(m, h);
      assert h in m.free[m.pages[h].order];
      if m.pages[h].order == k {
        var i :| 0 <= i < |m.free[k]| && m.free[k][i] == h;
        assert m'.free[k][i - 1] == h;
      }
    }
    forall j, i | 0 <= j <= MAX_ORDER && 0 <= i < |m'.free[j]|
      ensures FreeHead(m', m'.free[j][i]) && m'.pages[m'.free[j][i]].order == j && m'.free[j][i] != x
    {
      var i' := if j == k then i + 1 else i;
      assert m'.free[j][i] == m.free[j][i'];
      assert FreeHead(m, m.free[j][i']);
    }
  }

  // --- Splitting the block in hand ---

  function Split(m: Mem, x: nat): (r: Mem)
    requires x < |m.pages| && 1 <= m.pages[x].order <= |m.free|
    requires x + Pow2(m.pages[x].order - 1) < |m.pages|
  {
    var k := m.pages[x].order - 1;
    var b := x + Pow2(k);
    Mem(m.pages[x := m.pages[x].(order := k)][b := Page(k, 0)],
        m.free[k := m.free[k] + [b]],
        Retag(m.owner, b, Pow2(k), b))
  }

  lemma SplitHead(m: Mem, x: nat, b: nat, h: int)
    requires Tiled(m) && Head(m, x) && m.pages[x].order > 0 && |m.free| == MAX_ORDER + 1
    requires b == x + Pow2(m.pages[x].order - 1) && b < |m.pages|
    ensures Head(Split(m, x), h) <==> Head(m, h) || h == b
    ensures h != b && h != x && Head(m, h) ==> Split(m, x).pages[h] == m.pages[h]
  {
    assert BlockOk(m, x);
    var k := m.pages[x].order - 1;
    assert b + Pow2(k) == x + Pow2(k + 1);
    if b <= h < b + Pow2(k) {
      assert m.owner[h] == x;
    }
  }

  lemma SplitBlockOk(m: Mem, x: nat, b: nat, h: nat)
    requires Tiled(m) && Head(m, x) && m.pages[x].order > 0 && |m.free| == MAX_ORDER + 1
    requires b == x + Pow2(m.pages[x].order - 1) && b < |m.pages|
    requires Head(Split(m, x), h)
    ensures BlockOk(Split(m, x), h)
  {
    var k := m.pages[x].order - 1;
    assert BlockOk(m, x);
    assert b + Pow2(k) == x + Pow2(k + 1);
    AlignedDown(x, k, k + 1);
    AlignedStep(x, k, k);
    SplitHead(m, x, b, h);
    if h != x && h != b {
      assert BlockOk(m, h);
      forall p | h <= p < h + Pow2(m.pages[h].order) ensures Split(m, x).owner[p] == h {
        assert m.owner[p] == h;
      }
    }
  }

  lemma SplitPageOk(m: Mem, x: nat, b: nat, p: nat)
    requires Tiled(m) && Head(m, x) && m.pages[x].order > 0 && |m.free| == MAX_ORDER + 1
    requires b == x + Pow2(m.pages[x].order - 1) && b < |m.pages|
    requires p < |m.owner|
    ensures var m' := Split(m, x); m'.owner[p] <= p && Head(m', m'.owner[p])
    ensures var m' := Split(m, x); p < m'.owner[p] + Pow2(m'.pages[m'.owner[p]].order)
    ensures var m' := Split(m, x); m.pages[x].refcnt == 0 ==>
      (m'.pages[m'.owner[p]].refcnt == 0 <==> m.pages[m.owner[p]].refcnt == 0)
  {
    var k := m.pages[x].order - 1;
    assert BlockOk(m, x);
    assert b + Pow2(k) == x + Pow2(k + 1);
    assert Head(m, m.owner[p]);
    SplitHead(m, x, b, m.owner[p]);
    SplitHead(m, x, b, x);
    assert m.owner[b] == x;
    if b <= p < b + Pow2(k) {
      assert m.owner[p] == x;
    } else if m.owner[p] == x {
      assert p < b;
    }
  }

  lemma SplitTiled(m: Mem, x: nat)
    requires Tiled(m) && Head(m, x) && m.pages[x].order > 0 && |m.free| == MAX_ORDER + 1
    ensures x + Pow2(m.pages[x].order - 1) < |m.pages|
    ensures Tiled(Split(m, x))
  {
    var b := x + Pow2(m.pages[x].order - 1);
    assert BlockOk(m, x);
    var m' := Split(m, x);
    forall h | Head(m', h) ensures BlockOk(m', h) {
      SplitBlockOk(m, x, b, h);
    }
    forall p | 0 <= p < |m'.owner|
      ensures 0 <= m'.owner[p] <= p && Head(m', m'.owner[p])
      ensures p < m'.owner[p] + Pow2(m'.pages[m'.owner[p]].order)
    {
      SplitPageOk(m, x, b, p);
    }
  }

  lemma SplitCanonical(m: Mem, x: nat, b: nat)
    requires Inv(m, x) && m.pages[x].order > 0
    requires b == x + Pow2(m.pages[x].order - 1) && b < |m.pages|
    ensures Canonical(Split(m, x), x)
  {
    var m' := Split(m, x);
    var k := m.pages[x].order - 1;
    assert BlockOk(m, x);
    forall lo, hi | Mergeable(m', lo, hi) ensures lo == x || hi == x {
      SplitHead(m, x, b, lo);
      SplitHead(m, x, b, hi);
      if lo == b {
        AlignedApart(x, b, k + 1);
      } else if lo != x && hi != x && hi != b {
        assert Mergeable(m, lo, hi);
      }
    }
  }

  lemma SplitListedAll(m: Mem, x: nat, b: nat, h: int)
    requires Tiled(m) && Listed(m, x) && x != NONE && m.pages[x].order > 0
    requires b == x + Pow2(m.pages[x].order - 1) && b < |m.pages|
    requires FreeHead(Split(m, x), h) && h != x
    ensures var m' := Split(m, x); m'.pages[h].order <= MAX_ORDER && h in m'.free[m'.pages[h].order]
  {
    var m' := Split(m, x);
    var k := m.pages[x].order - 1;
    SplitHead(m, x, b, h);
    if h == b {
      assert m'.free[k][|m.free[k]|] == b;
    } else {
      assert FreeHead(m, h) && h in m.free[m.pages[h].order];
    }
  }

  lemma SplitListedOnly(m: Mem, x: nat, b: nat, j: nat, i: nat)
    requires Tiled(m) && Listed(m, x) && x != NONE && m.pages[x].order > 0
    requires b == x + Pow2(m.pages[x].order - 1) && b < |m.pages| && Head(Split(m, x), b)
    requires j <= MAX_ORDER && i < |Split(m, x).free[j]|
    ensures var m' := Split(m, x);
            FreeHead(m', m'.free[j][i]) && m'.pages[m'.free[j][i]].order == j && m'.free[j][i] != x
  {
    var m' := Split(m, x);
    var k := m.pages[x].order - 1;
    if j != k || i < |m.free[k]| {
      assert m'.free[j][i] == m.free[j][i];
      assert FreeHead(m, m.free[j][i]);
      SplitHead(m, x, b, m.free[j][i]);
    }
  }

  lemma SplitListed(m: Mem, x: nat, b: nat)
    requires Tiled(m) && Listed(m, x) && x != NONE && m.pages[x].order > 0
    requires b == x + Pow2(m.pages[x].order - 1) && b < |m.pages|
    ensures Listed(Split(m, x), x)
  {
    var m' := Split(m, x);
    assert BlockOk(m, x);
    assert m.owner[b] == x;
    SplitHead(m, x, b, x);
    SplitHead(m, x, b, b);
    forall h | FreeHead(m', h) && h != x
      ensures m'.pages[h].order <= MAX_ORDER && h in m'.free[m'.pages[h].order]
    {
      SplitListedAll(m, x, b, h);
    }
    forall j, i | 0 <= j <= MAX_ORDER && 0 <= i < |m'.free[j]|
      ensures FreeHead(m', m'.free[j][i]) && m'.pages[m'.free[j][i]].order == j && m'.free[j][i] != x
    {
      SplitListedOnly(m, x, b, j, i);
    }
    forall j, i, i' | 0 <= j <= MAX_ORDER && 0 <= i < i' < |m'.free[j]| ensures m'.free[j][i] != m'.free[j][i'] {
      assert m'.free[j][i] == m.free[j][i];
      assert i' < |m.free[j]| ==> m'.free[j][i'] == m.free[j][i'];
      assert FreeHead(m, m.free[j][i]);
    }
  }

  lemma SplitKeeps(m: Mem, x: nat)
    requires Inv(m, x) && m.pages[x].order > 0
    ensures x + Pow2(m.pages[x].order - 1) < |m.pages|
    ensures Inv(Split(m, x), x) && SameView(m, Split(m, x))
  {
    SplitTiled(m, x);
    var b := x + Pow2(m.pages[x].order - 1);
    SplitListed(m, x, b);
    SplitCanonical(m, x, b);
    SplitView(m, x, b);
  }

  lemma SplitView(m: Mem, x: nat, b: nat)
    requires Tiled(m) && FreeHead(m, x) && m.pages[x].order > 0 && |m.free| == MAX_ORDER + 1
    requires b == x + Pow2(m.pages[x].order - 1) && b < |m.pages| && Tiled(Split(m, x))
    ensures SameView(m, Split(m, x))
  {
    var m' := Split(m, x);
    forall p | 0 <= p < |m.owner| ensures FreePage(m, p) <==> FreePage(m', p) {
      SplitPageOk(m, x, b, p);
    }
    assert m.owner[b] == x by { assert BlockOk(m, x); }
    forall h
      ensures LiveHead(m, h) <==> LiveHead(m', h)
      ensures LiveHead(m, h) ==> m.pages[h] == m'.pages[h]
    {
      SplitHead(m, x, b, h);
    }
    LiveSame(m, m');
  }

  // --- Changing the reference count of a block ---

  function SetRef(m: Mem, x: nat, n: nat): (r: Mem)
    requires x < |m.pages|
  {
    m.(pages := m.pages[x := m.pages[x].(refcnt := n)])
  }

  lemma SetRefTiled(m: Mem, x: nat, n: nat)
    requires Tiled(m) && Head(m, x)
    ensures Tiled(SetRef(m, x, n))
    ensures forall h :: Head(SetRef(m, x, n), h) <==> Head(m, h)
  {
    var m' := SetRef(m, x, n);
    assert forall h :: Head(m', h) <==> Head(m, h);
    forall h | Head(m', h) ensures BlockOk(m', h) {
      assert BlockOk(m, h);
    }
  }

  /** Only the block's own pages can change between free and allocated. */
  lemma SetRefPages(m: Mem, x: nat, n: nat)
    requires Tiled(m) && Head(m, x) && Tiled(SetRef(m, x, n))
    ensures forall p | 0 <= p < |m.owner| ::
      FreePage(SetRef(m, x, n), p) <==> if x <= p < x + Pow2(m.pages[x].order) then n == 0 else FreePage(m, p)
  {
    assert BlockOk(m, x);
    forall p | 0 <= p < |m.owner| ensures m.owner[p] == x <==> x <= p < x + Pow2(m.pages[x].order) {
    }
  }

  lemma SetRefLive(m: Mem, x: nat, n: nat)
    requires |m.owner| <= |m.pages| && Head(m, x)
    ensures n > 0 ==> Live(SetRef(m, x, n)) == Live(m)[x := Page(m.pages[x].order, n)]
    ensures n == 0 ==> Live(SetRef(m, x, n)) == Live(m) - {x}
  {
    var m' := SetRef(m, x, n);
    forall h: nat | h != x
      ensures h in Live(m) <==> h in Live(m')
      ensures h in Live(m) ==> Live(m)[h] == Live(m')[h]
    {
      assert LiveHead(m, h) <==> LiveHead(m', h);
    }
  }

  /** A free block in hand is handed out with count n. */
  lemma ClaimKeeps(m: Mem, x: nat, n: nat)
    requires Inv(m, x) && n > 0
    ensures Inv(SetRef(m, x, n), NONE)
    ensures Live(SetRef(m, x, n)) == Live(m)[x := Page(m.pages[x].order, n)]
  {
    SetRefTiled(m, x, n);
    var m' := SetRef(m, x, n);
    assert forall h :: FreeHead(m', h) <==> FreeHead(m, h) && h != x;
    assert Canonical(m', NONE) by {
      assert forall lo, hi :: Mergeable(m', lo, hi) ==> Mergeable(m, lo, hi);
    }
    SetRefListed(m, x, n, x, NONE);
    SetRefLive(m, x, n);
  }

  /** An allocated block is taken back and becomes the block in hand. */
  lemma ReleaseKeeps(m: Mem, x: nat)
    requires Inv(m, NONE) && Head(m, x) && m.pages[x].refcnt > 0
    ensures Inv(SetRef(m, x, 0), x)
    ensures Live(SetRef(m, x, 0)) == Live(m) - {x}
  {
    SetRefTiled(m, x, 0);
    var m' := SetRef(m, x, 0);
    assert forall h :: FreeHead(m', h) <==> FreeHead(m, h) || h == x;
    assert Canonical(m', x) by {
      assert forall lo, hi :: Mergeable(m', lo, hi) && lo != x && hi != x ==> Mergeable(m, lo, hi);
    }
    SetRefListed(m, x, 0, NONE, x);
    SetRefLive(m, x, 0);
  }

  /** Changing a positive count to a positive count touches nothing else. */
  lemma RecountKeeps(m: Mem, x: nat, n: nat)
    requires Inv(m, NONE) && Head(m, x) && m.pages[x].refcnt > 0 && n > 0
    ensures Inv(SetRef(m, x, n), NONE)
    ensures Live(SetRef(m, x, n)) == Live(m)[x := Page(m.pages[x].order, n)]
  {
    SetRefTiled(m, x, n);
    var m' := SetRef(m, x, n);
    assert forall h :: FreeHead(m', h) <==> FreeHead(m, h);
    assert Canonical(m', NONE) by {
      assert forall lo, hi :: Mergeable(m', lo, hi) ==> Mergeable(m, lo, hi);
    }
    SetRefListed(m, x, n, NONE, NONE);
    SetRefLive(m, x, n);
  }

  lemma SetRefListed(m: Mem, x: nat, n: nat, y: int, y': int)
    requires Tiled(m) && Listed(m, y) && Head(m, x)
    requires m.pages[x].refcnt == 0 ==> y == x
    requires if n == 0 then y' == x else y' == NONE
    requires y == NONE || y == x
    ensures Listed(SetRef(m, x, n), y')
  {
    var m' := SetRef(m, x, n);
    assert forall h :: Head(m', h) <==> Head(m, h);
    forall h | FreeHead(m', h) && h != y'
      ensures m'.pages[h].order <= MAX_ORDER && h in m'.free[m'.pages[h].order]
    {
      assert FreeHead(m, h);
    }
    forall k, i | 0 <= k <= MAX_ORDER && 0 <= i < |m'.free[k]|
      ensures FreeHead(m', m'.free[k][i]) && m'.pages[m'.free[k][i]].order == k && m'.free[k][i] != y'
    {
      assert FreeHead(m, m.free[k][i]);
      assert m.free[k][i] != x;
    }
  }

  // --- Merging the block in hand with its buddy ---

  /** Block `gone`, one of the two siblings, leaves its list; the pair becomes one block at `lo`. */
  function Merge(m: Mem, lo: nat, hi: nat, gone: nat): (r: Mem)
    requires lo < |m.pages| && m.pages[lo].order < |m.free|
  {
    var k := m.pages[lo].order;
    Mem(m.pages[lo := m.pages[lo].(order := k + 1)],
        m.free[k := Without(m.free[k], gone)],
        Retag(m.owner, hi, Pow2(k), lo))
  }

  lemma MergeHead(m: Mem, lo: nat, hi: nat, gone: nat, h: int)
    requires Tiled(m) && |m.free| == MAX_ORDER + 1 && Mergeable(m, lo, hi)
    ensures Head(Merge(m, lo, hi, gone), h) <==> Head(m, h) && h != hi
  {
    var k := m.pages[lo].order;
    assert BlockOk(m, hi);
    if hi <= h < hi + Pow2(k) {
      assert m.owner[h] == hi;
    }
  }

  lemma MergeBlockOk(m: Mem, lo: nat, hi: nat, gone: nat, h: nat)
    requires Tiled(m) && |m.free| == MAX_ORDER + 1 && Mergeable(m, lo, hi)
    requires Head(Merge(m, lo, hi, gone), h)
    ensures BlockOk(Merge(m, lo, hi, gone), h)
  {
    var k := m.pages[lo].order;
    var m' := Merge(m, lo, hi, gone);
    MergeHead(m, lo, hi, gone, h);
    assert BlockOk(m, hi) && BlockOk(m, h);
    if h == lo {
      forall p | lo <= p < lo + Pow2(k + 1) ensures m'.owner[p] == lo {
        if p < hi {
          assert m.owner[p] == lo;
        }
      }
    } else {
      forall p | h <= p < h + Pow2(m.pages[h].order) ensures m'.owner[p] == h {
        assert m.owner[p] == h;
      }
    }
  }

  lemma MergePageOk(m: Mem, lo: nat, hi: nat, gone: nat, p: nat)
    requires Tiled(m) && |m.free| == MAX_ORDER + 1 && Mergeable(m, lo, hi)
    requires p < |m.owner|
    ensures var m' := Merge(m, lo, hi, gone); m'.owner[p] <= p && Head(m', m'.owner[p])
    ensures var m' := Merge(m, lo, hi, gone); p < m'.owner[p] + Pow2(m'.pages[m'.owner[p]].order)
    ensures var m' := Merge(m, lo, hi, gone);
            m'.pages[m'.owner[p]].refcnt == 0 <==> m.pages[m.owner[p]].refcnt == 0
  {
    var k := m.pages[lo].order;
    assert BlockOk(m, hi);
    assert Head(m, m.owner[p]);
    MergeHead(m, lo, hi, gone, m.owner[p]);
    MergeHead(m, lo, hi, gone, lo);
    if hi <= p < hi + Pow2(k) {
      assert m.owner[p] == hi;
    }
  }

  lemma MergeTiled(m: Mem, lo: nat, hi: nat, gone: nat)
    requires Tiled(m) && |m.free| == MAX_ORDER + 1 && Mergeable(m, lo, hi)
    ensures Tiled(Merge(m, lo, hi, gone))
  {
    var m' := Merge(m, lo, hi, gone);
    forall h | Head(m', h) ensures BlockOk(m', h) {
      MergeBlockOk(m, lo, hi, gone, h);
    }
    forall p | 0 <= p < |m'.owner|
      ensures 0 <= m'.owner[p] <= p && Head(m', m'.owner[p])
      ensures p < m'.owner[p] + Pow2(m'.pages[m'.owner[p]].order)
    {
      MergePageOk(m, lo, hi, gone, p);
    }
  }

  lemma MergeKeeps(m: Mem, lo: nat, hi: nat, x: nat, gone: nat)
    requires Inv(m, x) && Mergeable(m, lo, hi)
    requires (x == lo && gone == hi) || (x == hi && gone == lo)
    ensures Inv(Merge(m, lo, hi, gone), lo) && Merge(m, lo, hi, gone).pages[lo].order == m.pages[x].order + 1
    ensures SameView(m, Merge(m, lo, hi, gone))
  {
    MergeTiled(m, lo, hi, gone);
    var m' := Merge(m, lo, hi, gone);
    assert Canonical(m', lo) by {
      forall l, h | Mergeable(m', l, h) ensures l == lo || h == lo {
        MergeHead(m, lo, hi, gone, l);
        MergeHead(m, lo, hi, gone, h);
        if l != lo && h != lo {
          assert Mergeable(m, l, h);
        }
      }
    }
    MergeListed(m, lo, hi, x, gone);
    MergeView(m, lo, hi, gone);
  }

  lemma MergeListed(m: Mem, lo: nat, hi: nat, x: nat, gone: nat)
    requires Tiled(m) && Listed(m, x) && Mergeable(m, lo, hi)
    requires (x == lo && gone == hi) || (x == hi && gone == lo)
    ensures Listed(Merge(m, lo, hi, gone), lo)
  {
    var k := m.pages[lo].order;
    var m' := Merge(m, lo, hi, gone);
    assert NoDup(m.free[k]);
    WithoutList(m.free[k], gone);
    MergeHead(m, lo, hi, gone, lo);
    forall j, i | 0 <= j <= MAX_ORDER && 0 <= i < |m'.free[j]|
      ensures FreeHead(m', m'.free[j][i]) && m'.pages[m'.free[j][i]].order == j && m'.free[j][i] != lo
    {
      var f := m'.free[j][i];
      assert f in m'.free[j];
      assert f in m.free[j];
      var i' :| 0 <= i' < |m.free[j]| && m.free[j][i'] == f;
      assert FreeHead(m, f) && m.pages[f].order == j && f != x;
      assert f != gone;
      MergeHead(m, lo, hi, gone, f);
    }
    forall h | FreeHead(m', h) && h != lo
      ensures m'.pages[h].order <= MAX_ORDER && h in m'.free[m'.pages[h].order]
    {
      MergeHead(m, lo, hi, gone, h);
      assert FreeHead(m, h) && h in m.free[m.pages[h].order];
    }
    forall j, i, i' | 0 <= j <= MAX_ORDER && 0 <= i < i' < |m'.free[j]| ensures m'.free[j][i] != m'.free[j][i'] {
      assert NoDup(m'.free[j]);
    }
  }

  lemma MergeView(m: Mem, lo: nat, hi: nat, gone: nat)
    requires Tiled(m) && |m.free| == MAX_ORDER + 1 && Mergeable(m, lo, hi) && Tiled(Merge(m, lo, hi, gone))
    ensures SameView(m, Merge(m, lo, hi, gone))
  {
    var m' := Merge(m, lo, hi, gone);
    forall p | 0 <= p < |m.owner| ensures FreePage(m, p) <==> FreePage(m', p) {
      MergePageOk(m, lo, hi, gone, p);
    }
    forall h
      ensures LiveHead(m, h) <==> LiveHead(m', h)
      ensures LiveHead(m, h) ==> m.pages[h] == m'.pages[h]
    {
      MergeHead(m, lo, hi, gone, h);
    }
    LiveSame(m, m');
  }

  // --- Putting the block in hand on its list ---

  function Insert(m: Mem, x: nat): (r: Mem)
    requires x < |m.pages| && m.pages[x].order < |m.free|
  {
    m.(free := m.free[m.pages[x].order := m.free[m.pages[x].order] + [x]])
  }

  lemma InsertKeeps(m: Mem, x: nat)
    requires Inv(m, x)
    requires forall b :: !Mergeable(m, x, b) && !Mergeable(m, b, x)
    ensures m.pages[x].order <= MAX_ORDER
    ensures Inv(Insert(m, x), NONE) && SameView(m, Insert(m, x))
  {
    assert BlockOk(m, x);
    var m' := Insert(m, x);
    ListsApart(m, m');
    assert Canonical(m', NONE) by {
      assert forall lo, hi :: Mergeable(m', lo, hi) ==> Mergeable(m, lo, hi);
    }
    InsertListed(m, x);
  }

  lemma InsertListed(m: Mem, x: nat)
    requires Tiled(m) && Listed(m, x) && m.pages[x].order <= MAX_ORDER
    ensures Listed(Insert(m, x), NONE)
  {
    var k := m.pages[x].order;
    var m' := Insert(m, x);
    forall h | FreeHead(m', h) ensures m'.pages[h].order <= MAX_ORDER && h in m'.free[m'.pages[h].order] {
      if h == x {
        assert m'.free[k][|m.free[k]|] == x;
      } else {
        assert FreeHead(m, h) && h in m.free[m.pages[h].order];
      }
    }
    forall j, i | 0 <= j <= MAX_ORDER && 0 <= i < |m'.free[j]|
      ensures FreeHead(m', m'.free[j][i]) && m'.pages[m'.free[j][i]].order == j
    {
      if j != k || i < |m.free[k]| {
        assert FreeHead(m, m.free[j][i]);
      }
    }
  }
}
