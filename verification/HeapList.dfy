/**
 * The K&R free list, in units of one header. `free` are the blocks on the
 * circular list, with the empty `base` block; `live` are the blocks handed out;
 * `owned` are the units that have been obtained from the kernel.
 */
module HeapList {

  datatype Heap = Heap(base: nat, ptr: map<nat, nat>, size: map<nat, nat>, free: set<nat>,
                       live: map<nat, nat>, owned: set<nat>)

  predicate Apart(a: nat, m: nat, b: nat, n: nat)
  {
    a + m <= b || b + n <= a
  }

  /** b follows a on the ring: it is the next higher block, or the base after the highest. */
  ghost predicate IsNext(free: set<nat>, base: nat, a: nat, b: nat)
  {
    b in free && if a < b then forall x | x in free :: !(a < x < b) else b == base && forall x | x in free :: x <= a
  }

  /** The list is address-ordered with one wrap point. */
  ghost predicate LinkOk(h: Heap, a: nat)
  {
    a in h.ptr && IsNext(h.free, h.base, a, h.ptr[a])
  }

  ghost predicate FreeOk(h: Heap, a: nat)
  {
    a in h.size && h.base <= a && (h.size[a] == 0 <==> a == h.base)
  }

  /** Free blocks do not overlap, and touch only after a block in `loose`. */
  ghost predicate PairOk(h: Heap, loose: set<nat>, a: nat, b: nat)
    requires a in h.size
  {
    a < b ==> a + h.size[a] < b || (a in loose && a + h.size[a] == b)
  }

  ghost predicate LiveOk(h: Heap, a: nat)
  {
    a in h.live && a in h.size && h.size[a] == h.live[a] > 0 && h.base < a
  }

  /** A live block overlaps no free block and no other live block. */
  ghost predicate LiveApart(h: Heap, a: nat, b: nat)
  {
    && a in h.live
    && (b in h.live && b != a ==> Apart(a, h.live[a], b, h.live[b]))
    && (b in h.free && b in h.size && b != h.base ==> Apart(a, h.live[a], b, h.size[b]))
  }

  ghost predicate InFree(h: Heap, u: nat)
  {
    exists a :: a in h.free && a in h.size && a <= u < a + h.size[a]
  }

  ghost predicate InLive(h: Heap, u: nat)
  {
    exists a :: a in h.live && a <= u < a + h.live[a]
  }

  /** A unit was obtained from the kernel iff it is in a free or a live block. */
  ghost predicate UnitOk(h: Heap, u: nat)
  {
    u in h.owned <==> InFree(h, u) || InLive(h, u)
  }

  ghost predicate ListInv(h: Heap, loose: set<nat>)
  {
    && h.base in h.free
    && (forall a {:trigger FreeOk(h, a)} | a in h.free :: FreeOk(h, a))
    && (forall a {:trigger LinkOk(h, a)} | a in h.free :: LinkOk(h, a))
    && (forall a, b {:trigger PairOk(h, loose, a, b)} | a in h.free && a in h.size && b in h.free :: PairOk(h, loose, a, b))
  }

  ghost predicate LiveInv(h: Heap)
  {
    && (forall a {:trigger LiveOk(h, a)} | a in h.live :: LiveOk(h, a))
    && (forall a, b {:trigger LiveApart(h, a, b)} | a in h.live :: LiveApart(h, a, b))
  }

  ghost predicate UnitInv(h: Heap)
  {
    forall u: nat {:trigger UnitOk(h, u)} :: UnitOk(h, u)
  }

  ghost predicate InvX(h: Heap, loose: set<nat>)
  {
    ListInv(h, loose) && LiveInv(h) && UnitInv(h)
  }

  ghost predicate Inv(h: Heap)
  {
    InvX(h, {})
  }

  // --- Steps ---

  /** A live block is put into the list after block p. */
  ghost function Insert(h: Heap, p: nat, b: nat): Heap
    requires p in h.ptr
  {
    h.(free := h.free + {b}, live := h.live - {b}, ptr := h.ptr[b := h.ptr[p]][p := b])
  }

  /** Block a swallows the next one. */
  ghost function Merge(h: Heap, a: nat): Heap
    requires a in h.ptr && a in h.size && h.ptr[a] in h.size && h.ptr[a] in h.ptr
  {
    var b := h.ptr[a];
    h.(free := h.free - {b}, size := h.size[a := h.size[a] + h.size[b]], ptr := h.ptr[a := h.ptr[b]])
  }

  /** The block after p is handed out whole. */
  ghost function Take(h: Heap, p: nat): Heap
    requires p in h.ptr && h.ptr[p] in h.size && h.ptr[p] in h.ptr
  {
    var a := h.ptr[p];
    h.(free := h.free - {a}, live := h.live[a := h.size[a]], ptr := h.ptr[p := h.ptr[a]])
  }

  /** The last n units of a free block are handed out. */
  ghost function Carve(h: Heap, a: nat, n: nat): Heap
    requires a in h.size && n < h.size[a]
  {
    var b := a + h.size[a] - n;
    h.(size := h.size[a := h.size[a] - n][b := n], live := h.live[b := n])
  }

  /** Fresh units come from the kernel, as one block that is not free yet. */
  ghost function Grow(h: Heap, b: nat, n: nat): Heap
  {
    h.(size := h.size[b := n], live := h.live[b := n], owned := h.owned + Units(b, n))
  }

  predicate Within(u: nat, b: nat, n: nat)
  {
    b <= u < b + n
  }

  ghost function Units(b: nat, n: nat): set<nat>
  {
    set u: nat {:trigger Within(u, b, n)} | b <= u < b + n && Within(u, b, n)
  }

  ghost predicate Fresh(h: Heap, b: nat, n: nat)
  {
    h.base < b && n > 0 && forall u: nat {:trigger Within(u, b, n)} | Within(u, b, n) :: u !in h.owned
  }

  // --- Each step keeps the invariant ---

  /** b belongs between p and the block after it. */
  ghost predicate Place(h: Heap, p: nat, b: nat)
  {
    p in h.free && p in h.ptr && p < b && (b < h.ptr[p] || h.ptr[p] <= p)
  }

  lemma InsertKeeps(h: Heap, p: nat, b: nat)
    requires Inv(h) && b in h.live && Place(h, p, b)
    ensures InvX(Insert(h, p, b), {p, b})
  {
    var g := Insert(h, p, b);
    InsertList(h, p, b, {p, b});
    InsertLive(h, p, b);
    forall u: nat ensures UnitOk(g, u) {
      assert UnitOk(h, u);
      InsertCover(h, p, b, u);
    }
  }

  lemma InsertList(h: Heap, p: nat, b: nat, loose: set<nat>)
    requires Inv(h) && b in h.live && Place(h, p, b) && p in loose && b in loose
    ensures ListInv(Insert(h, p, b), loose)
  {
    var g := Insert(h, p, b);
    InsertFree(h, p, b);
    InsertPairs(h, p, b, loose);
    forall a | a in g.free ensures LinkOk(g, a) {
      InsertLink(h, p, b, a);
    }
  }

  lemma InsertFree(h: Heap, p: nat, b: nat)
    requires Inv(h) && b in h.live && p in h.ptr
    ensures forall a | a in Insert(h, p, b).free :: FreeOk(Insert(h, p, b), a)
  {
    var g := Insert(h, p, b);
    assert LiveOk(h, b);
    forall a | a in g.free ensures FreeOk(g, a) {
      assert a != b ==> FreeOk(h, a);
    }
  }

  lemma InsertPairs(h: Heap, p: nat, b: nat, loose: set<nat>)
    requires Inv(h) && b in h.live && Place(h, p, b) && p in loose && b in loose
    ensures var g := Insert(h, p, b); forall a, c | a in g.free && a in g.size && c in g.free :: PairOk(g, loose, a, c)
  {
    var g := Insert(h, p, b);
    forall a, c | a in g.free && a in g.size && c in g.free ensures PairOk(g, loose, a, c) {
      InsertPair(h, p, b, loose, a, c);
    }
  }

  lemma InsertLive(h: Heap, p: nat, b: nat)
    requires LiveInv(h) && b in h.live && p in h.ptr
    ensures LiveInv(Insert(h, p, b))
  {
    var g := Insert(h, p, b);
    assert LiveOk(h, b);
    forall a | a in g.live ensures LiveOk(g, a) {
      assert LiveOk(h, a);
    }
    forall a, c | a in g.live ensures LiveApart(g, a, c) {
      assert LiveApart(h, a, c) && LiveApart(h, a, b);
    }
  }

  lemma InsertLink(h: Heap, p: nat, b: nat, a: nat)
    requires Inv(h) && b in h.live && Place(h, p, b) && (a in h.free || a == b)
    ensures LinkOk(Insert(h, p, b), a)
  {
    assert LinkOk(h, p) && LiveOk(h, b) && (a in h.free ==> LinkOk(h, a));
  }

  lemma InsertPair(h: Heap, p: nat, b: nat, loose: set<nat>, a: nat, c: nat)
    requires Inv(h) && b in h.live && Place(h, p, b) && p in loose && b in loose
    requires (a in h.free || a == b) && (c in h.free || c == b) && a in h.size
    ensures PairOk(Insert(h, p, b), loose, a, c)
  {
    assert LinkOk(h, p) && FreeOk(h, p) && LiveOk(h, b);
    if a == b {
      assert c in h.free ==> LiveApart(h, b, c) && FreeOk(h, c);
    } else if c == b {
      assert PairOk(h, {}, a, p) && LiveApart(h, b, a) && FreeOk(h, a);
    } else {
      assert PairOk(h, {}, a, c);
    }
  }

  lemma InsertCover(h: Heap, p: nat, b: nat, u: nat)
    requires Inv(h) && b in h.live && p in h.ptr
    ensures (InFree(h, u) || InLive(h, u)) <==> (InFree(Insert(h, p, b), u) || InLive(Insert(h, p, b), u))
  {
    assert LiveOk(h, b);
    var g := Insert(h, p, b);
    assert forall a | a in g.live :: a in h.live && g.live[a] == h.live[a];
    assert forall a | a in h.live :: a == b || a in g.live;
  }

  // --- Merging with the next block ---

  lemma MergeKeeps(h: Heap, loose: set<nat>, a: nat)
    requires InvX(h, loose) && a in h.free && a != h.base && a in h.ptr && a in h.size
    requires a + h.size[a] == h.ptr[a] && h.ptr[a] !in loose
    ensures h.ptr[a] in h.size && h.ptr[a] in h.ptr
    ensures InvX(Merge(h, a), loose - {a})
  {
    var b := h.ptr[a];
    assert LinkOk(h, a) && FreeOk(h, a) && FreeOk(h, b) && LinkOk(h, b);
    var g := Merge(h, a);
    MergeList(h, loose, a);
    MergeLive(h, loose, a);
    forall u: nat ensures UnitOk(g, u) {
      assert UnitOk(h, u);
      MergeCover(h, a, u);
    }
  }

  lemma MergeList(h: Heap, loose: set<nat>, a: nat)
    requires ListInv(h, loose) && a in h.free && a != h.base && a in h.ptr && a in h.size
    requires a + h.size[a] == h.ptr[a] && h.ptr[a] !in loose && h.ptr[a] in h.size && h.ptr[a] in h.ptr
    ensures ListInv(Merge(h, a), loose - {a})
  {
    var b, g := h.ptr[a], Merge(h, a);
    assert LinkOk(h, a) && FreeOk(h, a) && FreeOk(h, b) && LinkOk(h, b);
    forall c | c in g.free ensures FreeOk(g, c) {
      assert FreeOk(h, c);
    }
    forall c | c in g.free ensures LinkOk(g, c) {
      MergeLink(h, loose, a, c);
    }
    forall c, d | c in g.free && c in g.size && d in g.free ensures PairOk(g, loose - {a}, c, d) {
      assert PairOk(h, loose, c, d) && PairOk(h, loose, b, d);
    }
  }

  lemma MergeLink(h: Heap, loose: set<nat>, a: nat, c: nat)
    requires ListInv(h, loose) && a in h.free && a in h.ptr && a in h.size && c in h.free && c != h.ptr[a]
    requires a < h.ptr[a] && h.ptr[a] in h.size && h.ptr[a] in h.ptr
    ensures LinkOk(Merge(h, a), c)
  {
    assert LinkOk(h, a) && LinkOk(h, h.ptr[a]) && LinkOk(h, c) && FreeOk(h, a);
    assert c != a ==> h.ptr[c] != h.ptr[a];
  }

  lemma MergeLive(h: Heap, loose: set<nat>, a: nat)
    requires ListInv(h, loose) && LiveInv(h) && a in h.free && a != h.base && a in h.ptr && a in h.size
    requires a + h.size[a] == h.ptr[a] && h.ptr[a] in h.size && h.ptr[a] in h.ptr
    ensures LiveInv(Merge(h, a))
  {
    var b, g := h.ptr[a], Merge(h, a);
    assert LinkOk(h, a) && FreeOk(h, a) && FreeOk(h, b);
    forall c | c in g.live ensures LiveOk(g, c) {
      assert LiveOk(h, c) && LiveApart(h, c, a);
    }
    forall c, d | c in g.live ensures LiveApart(g, c, d) {
      assert LiveOk(h, c) && LiveApart(h, c, d) && LiveApart(h, c, b);
    }
  }

  lemma MergeCover(h: Heap, a: nat, u: nat)
    requires a in h.free && a in h.ptr && a in h.size && h.ptr[a] in h.free && h.ptr[a] in h.size && h.ptr[a] in h.ptr
    requires a + h.size[a] == h.ptr[a] && h.ptr[a] != a
    ensures InFree(Merge(h, a), u) <==> InFree(h, u)
    ensures InLive(Merge(h, a), u) <==> InLive(h, u)
  {
    var b, g := h.ptr[a], Merge(h, a);
    if InFree(h, u) {
      var c :| c in h.free && c in h.size && c <= u < c + h.size[c];
      var d := if c == b then a else c;
      assert d in g.free && d in g.size && d <= u < d + g.size[d];
    }
    if InFree(g, u) {
      var c :| c in g.free && c in g.size && c <= u < c + g.size[c];
      var d := if c == a && u >= b then b else c;
      assert d in h.free && d in h.size && d <= u < d + h.size[d];
    }
  }

  // --- Handing out ---

  lemma TakeKeeps(h: Heap, p: nat)
    requires Inv(h) && p in h.free && p in h.ptr && h.ptr[p] != h.base
    ensures h.ptr[p] in h.size && h.ptr[p] in h.ptr && Inv(Take(h, p))
  {
    var a := h.ptr[p];
    assert LinkOk(h, p) && FreeOk(h, a) && LinkOk(h, a);
    var g := Take(h, p);
    TakeList(h, p);
    TakeLive(h, p);
    FreeNotLive(h, a);
    forall u: nat ensures UnitOk(g, u) {
      assert UnitOk(h, u);
      TakeCover(h, p, u);
    }
  }

  lemma FreeNotLive(h: Heap, a: nat)
    requires Inv(h) && a in h.free
    ensures a !in h.live
  {
    assert FreeOk(h, a);
    assert a in h.live ==> LiveOk(h, a) && LiveApart(h, a, a);
  }

  lemma TakeList(h: Heap, p: nat)
    requires Inv(h) && p in h.free && p in h.ptr && h.ptr[p] != h.base && h.ptr[p] in h.size && h.ptr[p] in h.ptr
    ensures ListInv(Take(h, p), {})
  {
    var a, g := h.ptr[p], Take(h, p);
    assert LinkOk(h, p) && LinkOk(h, a) && FreeOk(h, a);
    forall c | c in g.free ensures FreeOk(g, c) {
      assert FreeOk(h, c);
    }
    forall c | c in g.free ensures LinkOk(g, c) {
      assert LinkOk(h, c);
    }
    forall c, d | c in g.free && c in g.size && d in g.free ensures PairOk(g, {}, c, d) {
      assert PairOk(h, {}, c, d);
    }
  }

  lemma TakeLive(h: Heap, p: nat)
    requires Inv(h) && p in h.free && p in h.ptr && h.ptr[p] != h.base && h.ptr[p] in h.size && h.ptr[p] in h.ptr
    ensures LiveInv(Take(h, p))
  {
    var a, g := h.ptr[p], Take(h, p);
    assert LinkOk(h, p) && FreeOk(h, a);
    forall c | c in g.live ensures LiveOk(g, c) {
      assert c in h.live ==> LiveOk(h, c);
    }
    forall c, d | c in g.live ensures LiveApart(g, c, d) {
      assert c in h.live ==> LiveApart(h, c, d) && LiveApart(h, c, a);
      assert d in h.live ==> LiveApart(h, d, a);
      assert d in h.free ==> PairOk(h, {}, a, d) && FreeOk(h, d) && PairOk(h, {}, d, a);
    }
  }

  lemma TakeCover(h: Heap, p: nat, u: nat)
    requires Inv(h) && p in h.ptr && h.ptr[p] in h.free && h.ptr[p] in h.size && h.ptr[p] in h.ptr && h.ptr[p] !in h.live
    ensures (InFree(h, u) || InLive(h, u)) <==> (InFree(Take(h, p), u) || InLive(Take(h, p), u))
  {
    var a, g := h.ptr[p], Take(h, p);
    assert forall c | c in h.live :: c in g.live && g.live[c] == h.live[c];
    assert forall c | c in h.free :: c == a || c in g.free;
    assert a in g.live;
  }

  lemma CarveKeeps(h: Heap, a: nat, n: nat)
    requires Inv(h) && a in h.free && a in h.size && 0 < n < h.size[a]
    ensures Inv(Carve(h, a, n)) && a + h.size[a] - n !in h.live
  {
    var g := Carve(h, a, n);
    CarveFresh(h, a, n);
    CarveList(h, a, n);
    CarveLive(h, a, n);
    forall u: nat ensures UnitOk(g, u) {
      assert UnitOk(h, u);
      CarveCover(h, a, n, u);
    }
  }

  /** No block starts inside the carved one. */
  lemma CarveFresh(h: Heap, a: nat, n: nat)
    requires Inv(h) && a in h.free && a in h.size && 0 < n < h.size[a]
    ensures a + h.size[a] - n !in h.live && a + h.size[a] - n !in h.free && a != h.base && a !in h.live
  {
    var b: nat := a + h.size[a] - n;
    assert FreeOk(h, a);
    FreeNotLive(h, a);
    assert b in h.live ==> LiveOk(h, b) && LiveApart(h, b, a);
    assert b in h.free ==> PairOk(h, {}, a, b);
  }

  lemma CarveList(h: Heap, a: nat, n: nat)
    requires Inv(h) && a in h.free && a in h.size && 0 < n < h.size[a]
    requires a + h.size[a] - n !in h.free && a != h.base
    ensures ListInv(Carve(h, a, n), {})
  {
    var g := Carve(h, a, n);
    forall c | c in g.free ensures FreeOk(g, c) {
      assert FreeOk(h, c);
    }
    forall c | c in g.free ensures LinkOk(g, c) {
      LinkSame(h, g, c);
    }
    forall c, d | c in g.free && c in g.size && d in g.free ensures PairOk(g, {}, c, d) {
      CarvePair(h, a, n, c, d);
    }
  }

  lemma LinkSame(h: Heap, g: Heap, c: nat)
    requires ListInv(h, {}) && g.ptr == h.ptr && g.free == h.free && g.base == h.base && c in h.free
    ensures LinkOk(g, c)
  {
    assert LinkOk(h, c);
  }

  lemma CarvePair(h: Heap, a: nat, n: nat, c: nat, d: nat)
    requires ListInv(h, {}) && a in h.free && a in h.size && 0 < n < h.size[a] && a + h.size[a] - n !in h.free
    requires c in h.free && d in h.free
    ensures c in Carve(h, a, n).size && PairOk(Carve(h, a, n), {}, c, d)
  {
    assert FreeOk(h, c) && PairOk(h, {}, c, d);
  }

  lemma CarveLive(h: Heap, a: nat, n: nat)
    requires Inv(h) && a in h.free && a in h.size && 0 < n < h.size[a] && a != h.base && a !in h.live
    ensures LiveInv(Carve(h, a, n))
  {
    var g, b := Carve(h, a, n), a + h.size[a] - n;
    assert FreeOk(h, a);
    forall c | c in g.live ensures LiveOk(g, c) {
      assert c in h.live ==> LiveOk(h, c);
    }
    forall c, d | c in g.live ensures LiveApart(g, c, d) {
      assert c in h.live ==> LiveApart(h, c, d) && LiveApart(h, c, a);
      assert d in h.live ==> LiveApart(h, d, a);
      assert d in h.free ==> PairOk(h, {}, a, d) && FreeOk(h, d) && PairOk(h, {}, d, a);
    }
  }

  lemma CarveCover(h: Heap, a: nat, n: nat, u: nat)
    requires Inv(h) && a in h.free && a in h.size && 0 < n < h.size[a]
    requires a + h.size[a] - n !in h.live && a + h.size[a] - n !in h.free
    ensures (InFree(h, u) || InLive(h, u)) <==> (InFree(Carve(h, a, n), u) || InLive(Carve(h, a, n), u))
  {
    var g, b := Carve(h, a, n), a + h.size[a] - n;
    if InFree(h, u) {
      var c :| c in h.free && c in h.size && c <= u < c + h.size[c];
      assert c == a && u >= b ==> b in g.live && b <= u < b + g.live[b];
      assert !(c == a && u >= b) ==> c in g.free && c in g.size && c <= u < c + g.size[c];
    }
    if InLive(h, u) {
      var c :| c in h.live && c <= u < c + h.live[c];
      assert c in g.live && g.live[c] == h.live[c];
    }
    if InFree(g, u) {
      var c :| c in g.free && c in g.size && c <= u < c + g.size[c];
      assert c in h.free && c in h.size && c <= u < c + h.size[c];
    }
    if InLive(g, u) {
      var c :| c in g.live && c <= u < c + g.live[c];
      var d := if c == b then a else c;
      assert c == b ==> d in h.free && d in h.size && d <= u < d + h.size[d];
      assert c != b ==> d in h.live && d <= u < d + h.live[d];
    }
  }

  lemma GrowKeeps(h: Heap, b: nat, n: nat)
    requires Inv(h) && Fresh(h, b, n)
    ensures Inv(Grow(h, b, n)) && b !in h.live
  {
    var g := Grow(h, b, n);
    GrowFresh(h, b, n);
    forall a | a in g.free ensures FreeOk(g, a) {
      assert FreeOk(h, a);
    }
    forall a | a in g.free ensures LinkOk(g, a) {
      LinkSame(h, g, a);
    }
    forall a, c | a in g.free && a in g.size && c in g.free ensures PairOk(g, {}, a, c) {
      assert FreeOk(h, a) && PairOk(h, {}, a, c);
    }
    GrowLive(h, b, n);
    forall u: nat ensures UnitOk(g, u) {
      assert UnitOk(h, u);
      GrowCover(h, b, n, u);
    }
  }

  /** Fresh units are in no block. */
  lemma GrowFresh(h: Heap, b: nat, n: nat)
    requires Inv(h) && Fresh(h, b, n)
    ensures b !in h.live && b !in h.free
    ensures forall a | a in h.live :: Apart(a, h.live[a], b, n)
    ensures forall a | a in h.free && a in h.size && a != h.base :: Apart(a, h.size[a], b, n)
  {
    forall a | a in h.live ensures Apart(a, h.live[a], b, n) && a != b {
      assert LiveOk(h, a);
      var u := if a < b then b else a;
      assert UnitOk(h, u) && (Within(u, b, n) ==> u !in h.owned);
      assert a <= u < a + h.live[a] ==> InLive(h, u);
    }
    forall a | a in h.free && a in h.size && a != h.base ensures Apart(a, h.size[a], b, n) && a != b {
      assert FreeOk(h, a);
      var u := if a < b then b else a;
      assert UnitOk(h, u) && (Within(u, b, n) ==> u !in h.owned);
      assert a <= u < a + h.size[a] ==> InFree(h, u);
    }
    assert b in h.free ==> FreeOk(h, b);
  }

  lemma GrowLive(h: Heap, b: nat, n: nat)
    requires Inv(h) && Fresh(h, b, n) && b !in h.live && b !in h.free
    requires forall a | a in h.live :: Apart(a, h.live[a], b, n)
    requires forall a | a in h.free && a in h.size && a != h.base :: Apart(a, h.size[a], b, n)
    ensures LiveInv(Grow(h, b, n))
  {
    var g := Grow(h, b, n);
    forall a | a in g.live ensures LiveOk(g, a) {
      assert a in h.live ==> LiveOk(h, a);
    }
    forall a, c | a in g.live ensures LiveApart(g, a, c) {
      assert a in h.live ==> LiveApart(h, a, c);
      assert c in h.free ==> FreeOk(h, c);
    }
  }

  lemma GrowCover(h: Heap, b: nat, n: nat, u: nat)
    requires b !in h.live && b !in h.free
    ensures InFree(Grow(h, b, n), u) <==> InFree(h, u)
    ensures InLive(Grow(h, b, n), u) <==> InLive(h, u) || b <= u < b + n
    ensures u in Grow(h, b, n).owned <==> u in h.owned || b <= u < b + n
  {
    var g := Grow(h, b, n);
    assert Within(u, b, n) <==> b <= u < b + n;
    assert forall a | a in h.live :: a in g.live && g.live[a] == h.live[a];
    if InFree(h, u) {
      var a :| a in h.free && a in h.size && a <= u < a + h.size[a];
      assert a in g.free && a in g.size && a <= u < a + g.size[a];
    }
    assert b in g.live;
  }

  // --- Counting units ---

  /** The blocks of the heap, free and live, with their sizes. */
  ghost function Blocks(h: Heap): map<nat, nat>
  {
    map a | a in h.free + h.live.Keys && a in h.size && a != h.base :: h.size[a]
  }

  ghost predicate Covers(m: map<nat, nat>, u: nat)
  {
    exists a :: a in m && Within(u, a, m[a])
  }

  ghost function Total(m: map<nat, nat>): nat
    decreases |m.Keys|
  {
    if m.Keys == {} then 0
    else
      var a :| a in m.Keys;
      assert (m - {a}).Keys == m.Keys - {a};
      m[a] + Total(m - {a})
  }

  lemma {:induction false} TotalWithout(m: map<nat, nat>, a: nat)
    requires a in m
    ensures Total(m) == m[a] + Total(m - {a})
    decreases |m.Keys|
  {
    var b :| b in m.Keys && Total(m) == m[b] + Total(m - {b});
    if b != a {
      assert (m - {b}).Keys == m.Keys - {b} && (m - {a}).Keys == m.Keys - {a};
      assert m - {b} - {a} == m - {a} - {b};
      TotalWithout(m - {b}, a);
      TotalWithout(m - {a}, b);
    }
  }

  lemma {:induction false} UnitsCount(b: nat, n: nat)
    ensures |Units(b, n)| == n
  {
    if n > 0 {
      UnitsCount(b, n - 1);
      assert Within(b + n - 1, b, n);
      forall u: nat ensures u in Units(b, n) <==> u in Units(b, n - 1) + {b + n - 1} {
        assert Within(u, b, n) <==> b <= u < b + n;
        assert Within(u, b, n - 1) <==> b <= u < b + n - 1;
      }
      assert Units(b, n) == Units(b, n - 1) + {b + n - 1};
    } else {
      assert Units(b, n) == {};
    }
  }

  lemma {:induction false} CoveredCount(m: map<nat, nat>, s: set<nat>)
    requires forall a, b | a in m && b in m && a != b :: Apart(a, m[a], b, m[b])
    requires forall u: nat :: u in s <==> Covers(m, u)
    ensures |s| == Total(m)
    decreases |m.Keys|
  {
    if m.Keys == {} {
      assert forall u: nat :: !Covers(m, u);
      assert s == {};
    } else {
      var a :| a in m.Keys;
      var r, us := m - {a}, Units(a, m[a]);
      assert r.Keys == m.Keys - {a};
      forall u: nat ensures u in s - us <==> Covers(r, u) {
        CoversWithout(m, a, u);
      }
      CoveredCount(r, s - us);
      TotalWithout(m, a);
      UnitsCount(a, m[a]);
      forall u | u in us ensures u in s {
        assert Within(u, a, m[a]);
        assert Covers(m, u);
      }
      assert s == (s - us) + us;
    }
  }

  lemma CoversWithout(m: map<nat, nat>, a: nat, u: nat)
    requires a in m && forall b | b in m && b != a :: Apart(a, m[a], b, m[b])
    ensures Covers(m - {a}, u) <==> Covers(m, u) && u !in Units(a, m[a])
  {
    assert Within(u, a, m[a]) <==> u in Units(a, m[a]);
    if Covers(m - {a}, u) {
      var b :| b in m - {a} && Within(u, b, (m - {a})[b]);
      assert b in m && Within(u, b, m[b]);
    }
    if Covers(m, u) && u !in Units(a, m[a]) {
      var b :| b in m && Within(u, b, m[b]);
      assert b in m - {a} && Within(u, b, (m - {a})[b]);
    }
  }

  /** Free plus live units are the units obtained from the kernel. */
  lemma UnitsConserved(h: Heap)
    requires Inv(h)
    ensures |h.owned| == Total(Blocks(h))
  {
    var m := Blocks(h);
    forall a, b | a in m && b in m && a != b ensures Apart(a, m[a], b, m[b]) {
      BlocksApart(h, a, b);
    }
    forall u: nat ensures u in h.owned <==> Covers(m, u) {
      CoveredUnit(h, u);
    }
    CoveredCount(m, h.owned);
  }

  lemma BlocksApart(h: Heap, a: nat, b: nat)
    requires Inv(h) && a in Blocks(h) && b in Blocks(h) && a != b
    ensures Apart(a, Blocks(h)[a], b, Blocks(h)[b])
  {
    assert a in h.live ==> LiveOk(h, a) && LiveApart(h, a, b);
    assert b in h.live ==> LiveOk(h, b) && LiveApart(h, b, a);
    assert a in h.free && b in h.free ==> PairOk(h, {}, a, b) && PairOk(h, {}, b, a);
  }

  lemma CoveredUnit(h: Heap, u: nat)
    requires Inv(h)
    ensures u in h.owned <==> Covers(Blocks(h), u)
  {
    var m := Blocks(h);
    assert UnitOk(h, u);
    if InFree(h, u) {
      var a :| a in h.free && a in h.size && a <= u < a + h.size[a];
      assert FreeOk(h, a) && a in m && Within(u, a, m[a]);
    }
    if InLive(h, u) {
      var a :| a in h.live && a <= u < a + h.live[a];
      assert LiveOk(h, a) && a in m && Within(u, a, m[a]);
    }
    if Covers(m, u) {
      var a :| a in m && Within(u, a, m[a]);
      assert a in h.live ==> LiveOk(h, a) && InLive(h, u);
      assert a in h.free ==> InFree(h, u);
    }
  }
}
