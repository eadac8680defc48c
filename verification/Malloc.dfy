/** `malloc`, `free` and `morecore` over the circular free list. Addresses are in units of one header. */
module Malloc {
  import opened Basics
  import opened HeapList

  const HEADER := 16
  const NALLOC := 4096

  /** Header units for a request of so many bytes, its own header included. */
  function NUnits(nbytes: nat): (n: nat)
    ensures n > 0 && (n - 1) * HEADER >= nbytes && (nbytes > 0 ==> (n - 2) * HEADER < nbytes) && (nbytes == 0 ==> n == 1)
  {
    (nbytes + HEADER - 1) / HEADER + 1
  }

  function MoreUnits(nu: nat): (n: nat)
    ensures n >= nu && n >= 4096 && (n == nu || n == 4096)
  {
    if nu < NALLOC then NALLOC else nu
  }

  /** The free blocks above p. */
  ghost function Above(free: set<nat>, p: nat): set<nat>
  {
    set x | x in free && x > p
  }

  lemma AboveShrinks(free: set<nat>, p: nat, q: nat)
    requires q in free && p < q
    ensures |Above(free, q)| < |Above(free, p)|
  {
    assert Above(free, q) < Above(free, p) by {
      assert q in Above(free, p) && q !in Above(free, q);
    }
    StrictSubsetSmaller(Above(free, q), Above(free, p));
  }

  lemma {:induction false} StrictSubsetSmaller(a: set<nat>, b: set<nat>)
    requires a < b
    ensures |a| < |b|
  {
    assert b == a + (b - a);
    var x :| x in b - a;
    assert |b - a| >= 1;
  }

  /** Where the next free block of p ends up on the ring. */
  lemma RingStep(h: Heap, p: nat)
    requires Inv(h) && p in h.free
    ensures p in h.ptr && p in h.size && h.ptr[p] in h.free && h.base <= p
    ensures p < h.ptr[p] || h.ptr[p] == h.base
    ensures p < h.ptr[p] ==> |Above(h.free, h.ptr[p])| < |Above(h.free, p)|
  {
    assert LinkOk(h, p) && FreeOk(h, p);
    if p < h.ptr[p] {
      AboveShrinks(h.free, p, h.ptr[p]);
    }
  }

  /** A block that does not touch the next one need not be loose. */
  lemma Tighten(h: Heap, loose: set<nat>, a: nat)
    requires InvX(h, loose) && a in h.free && a in h.ptr && a in h.size && a + h.size[a] != h.ptr[a]
    ensures InvX(h, loose - {a})
  {
    assert LinkOk(h, a) && FreeOk(h, a);
    forall c, d | c in h.free && c in h.size && d in h.free ensures PairOk(h, loose - {a}, c, d) {
      assert PairOk(h, loose, c, d) && PairOk(h, loose, a, h.ptr[a]);
    }
  }

  /** Block a is merged with the next one if they touch. */
  lemma Settle(h: Heap, loose: set<nat>, a: nat) returns (g: Heap)
    requires InvX(h, loose) && a in h.free && a in h.ptr && a in h.size && h.ptr[a] != a
    requires a + h.size[a] == h.ptr[a] ==> h.ptr[a] !in loose
    ensures h.ptr[a] in h.size && h.ptr[a] in h.ptr
    ensures g == if a + h.size[a] == h.ptr[a] then Merge(h, a) else h
    ensures InvX(g, loose - {a}) && a in g.free && a in g.size && a in g.ptr
  {
    assert LinkOk(h, a) && FreeOk(h, a) && FreeOk(h, h.ptr[a]) && LinkOk(h, h.ptr[a]);
    if a + h.size[a] == h.ptr[a] {
      g := Merge(h, a);
      MergeKeeps(h, loose, a);
    } else {
      g := h;
      Tighten(h, loose, a);
    }
  }

  /** Some free block holds the n units from b on. */
  ghost predicate Holds(h: Heap, b: nat, n: nat)
  {
    exists z :: z in h.free && z in h.size && z <= b && b + n <= z + h.size[z]
  }

  class Allocator {
    const base: nat
    var freep: Option<nat>
    var ptr: map<nat, nat>
    var size: map<nat, nat>
    ghost var free: set<nat>
    ghost var live: map<nat, nat>
    ghost var owned: set<nat>

    ghost function State(): Heap
      reads this
    {
      Heap(base, ptr, size, free, live, owned)
    }

    /** Before the first `malloc` there is no list and no block. */
    ghost predicate Valid()
      reads this
    {
      if freep.None? then live == map[] && owned == {} else Inv(State()) && freep.value in free
    }

    constructor (b: nat)
      ensures Valid() && freep.None? && base == b
    {
      base, freep, ptr, size := b, None, map[], map[];
      free, live, owned := {}, map[], {};
    }

    /** The search of `free`: the free block below b whose next is above it. */
    method FindPlace(b: nat) returns (p: nat)
      requires Valid() && freep.Some? && b in live
      ensures Place(State(), p, b)
    {
      ghost var h := State();
      assert LiveOk(h, b);
      FreeNotLiveAll(h);
      p := freep.value;
      RingStep(h, p);
      while !(b > p && b < ptr[p])
        invariant p in free && p in ptr && ptr[p] in free && base <= p
        decreases p > b, |Above(free, p)|
      {
        RingStep(h, p);
        if p >= ptr[p] && (b > p || b < ptr[p]) {
          break;
        }
        p := ptr[p];
        RingStep(h, p);
      }
    }

    /**
     * `free`: the block leaves the live ones and its units lie in one free
     * block. Nothing else changes hands.
     */
    method Free(ap: nat)
      requires Valid() && freep.Some? && ap > 0 && ap - 1 in live
      modifies `freep, `ptr, `size, `free, `live
      ensures Valid() && freep.Some? && live == old(live) - {ap - 1}
      ensures Holds(State(), ap - 1, old(live)[ap - 1])
    {
      var bp := ap - 1;
      var p := FindPlace(bp);
      ghost var n, h := live[bp], State();
      ghost var g := Return(h, p, bp);
      if bp + size[bp] == ptr[p] {
        var q := ptr[p];
        size, ptr := size[bp := size[bp] + size[q]], ptr[bp := ptr[q]];
      } else {
        ptr := ptr[bp := ptr[p]];
      }
      if p + size[p] == bp {
        size, ptr := size[p := size[p] + size[bp]], ptr[p := ptr[bp]];
      } else {
        ptr := ptr[p := bp];
      }
      free, live := g.free, g.live;
      freep := Some(p);
      assert State() == g;
    }

    /** `morecore`; `answer` is what `sbrk` gives, fresh space or nothing. */
    method Morecore(nu: nat, answer: Option<nat>) returns (p: Option<nat>)
      requires Valid() && freep.Some? && nu > 0
      requires answer.Some? ==> Fresh(State(), answer.value, MoreUnits(nu))
      modifies `freep, `ptr, `size, `free, `live, `owned
      ensures Valid() && freep.Some? && live == old(live)
      ensures answer.None? ==> p.None? && State() == old(State()) && freep == old(freep)
      ensures answer.Some? ==> p == freep && Holds(State(), answer.value, MoreUnits(nu))
      ensures answer.Some? ==> owned == old(owned) + Units(answer.value, MoreUnits(nu))
    {
      if answer.None? {
        return None;
      }
      var n, hp := MoreUnits(nu), answer.value;
      GrowKeeps(State(), hp, n);
      size := size[hp := n];
      live, owned := live[hp := n], owned + Units(hp, n);
      assert State() == Grow(old(State()), hp, n);
      Free(hp + 1);
      assert live == old(live);
      p := freep;
    }

    /** The block after prevp is handed out, whole or its upper end. */
    method HandOut(prevp: nat, nunits: nat) returns (b: nat)
      requires Valid() && freep.Some? && nunits > 0 && prevp in free
      requires prevp in ptr && ptr[prevp] in size && size[ptr[prevp]] >= nunits
      modifies `freep, `ptr, `size, `free, `live
      ensures Valid() && freep.Some? && b !in old(live) && live == old(live)[b := nunits]
    {
      var p := ptr[prevp];
      assert LinkOk(State(), prevp) && FreeOk(State(), p);
      if size[p] == nunits {
        TakeKeeps(State(), prevp);
        FreeNotLive(State(), p);
        assert LinkOk(State(), p);
        ptr := ptr[prevp := ptr[p]];
        free, live := free - {p}, live[p := nunits];
        assert State() == Take(old(State()), prevp);
        b := p;
      } else {
        CarveKeeps(State(), p, nunits);
        b := p + size[p] - nunits;
        size := size[p := size[p] - nunits];
        size := size[b := nunits];
        live := live[b := nunits];
        assert State() == Carve(old(State()), p, nunits);
      }
      freep := Some(prevp);
    }

    /**
     * `malloc`: a new live block big enough for the request, disjoint from all
     * others, after at most one `morecore`; null only if that got no memory.
     */
    method Malloc(nbytes: nat, answer: Option<nat>) returns (ap: Option<nat>, ghost grew: bool)
      requires Valid()
      requires answer.Some? ==> base < answer.value && Fresh(State(), answer.value, MoreUnits(NUnits(nbytes)))
      modifies this
      ensures Valid() && freep.Some?
      ensures ap.Some? ==> ap.value > 0 && ap.value - 1 !in old(live) && live == old(live)[ap.value - 1 := NUnits(nbytes)]
      ensures ap.None? ==> answer.None? && live == old(live) && owned == old(owned)
      ensures grew ==> answer.Some?
      ensures owned == if grew then old(owned) + Units(answer.value, MoreUnits(NUnits(nbytes))) else old(owned)
      ensures ap.Some? ==> Least(live[ap.value - 1], nbytes)
      ensures (grew || ap.None?) && old(freep.Some?) ==> NoneHolds(old(State()), nbytes)
      ensures grew ==> owned >= old(owned) + Units(answer.value, 4096)
    {
      var nunits := NUnits(nbytes);
      if freep.None? {
        Init();
      }
      ap, grew := Search(nunits, answer);
    }

    /** The search of `malloc` from the block after `freep` around the ring. */
    method Search(nunits: nat, answer: Option<nat>) returns (ap: Option<nat>, ghost grew: bool)
      requires Valid() && freep.Some? && nunits > 0
      requires answer.Some? ==> Fresh(State(), answer.value, MoreUnits(nunits))
      modifies `freep, `ptr, `size, `free, `live, `owned
      ensures Valid() && freep.Some?
      ensures ap.Some? ==> ap.value > 0 && ap.value - 1 !in old(live) && live == old(live)[ap.value - 1 := nunits]
      ensures ap.None? ==> answer.None? && live == old(live) && owned == old(owned)
      ensures grew ==> answer.Some?
      ensures owned == if grew then old(owned) + Units(answer.value, MoreUnits(nunits)) else old(owned)
      ensures grew || ap.None? ==> NoneFits(old(State()), nunits)
    {
      ghost var big: nat := 0;
      var prevp := freep.value;
      AllAhead(State(), prevp);
      RingStep(State(), prevp);
      var p := ptr[prevp];
      grew := false;
      while true
        invariant Valid() && freep.Some? && live == old(live)
        invariant prevp in free && prevp in ptr && p == ptr[prevp] && p in free
        invariant grew ==> answer.Some? && owned == old(owned) + Units(answer.value, MoreUnits(nunits))
        invariant grew ==> big in free && big in size && size[big] >= nunits && Ahead(p, freep.value, big)
        invariant grew ==> NoneFits(old(State()), nunits)
        invariant !grew ==> State() == old(State()) && freep == old(freep) && FitsAhead(State(), p, freep.value, nunits)
        decreases !grew, p > freep.value, |Above(free, p)|
      {
        RingStep(State(), p);
        if size[p] >= nunits {
          var b := HandOut(prevp, nunits);
          return Some(b + 1), grew;
        }
        if p == freep.value {
          LastMisses(State(), p, nunits, grew);
          var q := Morecore(nunits, answer);
          if q.None? {
            return None, grew;
          }
          grew, p := true, q.value;
          big :| big in free && big in size && big <= answer.value && answer.value + MoreUnits(nunits) <= big + size[big];
          AllAhead(State(), p);
        } else {
          StepAhead(State(), p, freep.value, nunits, big, grew);
        }
        RingStep(State(), p);
        prevp, p := p, ptr[p];
      }
    }

    /** The base block alone, linked to itself. */
    method Init()
      requires Valid() && freep.None?
      modifies `freep, `ptr, `size, `free
      ensures Valid() && freep.Some? && free == {base}
    {
      freep := Some(base);
      ptr, size := ptr[base := base], size[base := 0];
      free := {base};
      assert forall a | a in free :: FreeOk(State(), a);
      assert forall u: nat :: UnitOk(State(), u);
    }
  }

  // --- The search ---

  /** Block z is still to come when the search stands at p and ends at `last`. */
  ghost predicate Ahead(p: nat, last: nat, z: nat)
  {
    if p > last then z >= p || z <= last else p <= z <= last
  }

  /** From the block after `last`, all of the ring is ahead. */
  lemma AllAhead(h: Heap, last: nat)
    requires Inv(h) && last in h.free
    ensures last in h.ptr && forall z | z in h.free :: Ahead(h.ptr[last], last, z)
  {
    assert LinkOk(h, last) && forall z | z in h.free :: FreeOk(h, z);
  }

  ghost predicate NoneFits(h: Heap, n: nat)
  {
    forall z | z in h.free :: z in h.size && h.size[z] < n
  }

  /** So many units of 16 bytes hold the request and a header, and fewer do not. */
  predicate Least(n: nat, nbytes: nat)
  {
    n > 0 && 16 * (n - 1) >= nbytes && (n > 1 ==> 16 * (n - 2) < nbytes)
  }

  /** No free block has room for so many bytes beside its header. */
  ghost predicate NoneHolds(h: Heap, nbytes: nat)
  {
    forall z | z in h.free :: z in h.size && (h.size[z] == 0 || 16 * (h.size[z] - 1) < nbytes)
  }

  /** A block that fits, if there is one, is still to come. */
  ghost predicate FitsAhead(h: Heap, p: nat, last: nat, n: nat)
  {
    forall z | z in h.free && z in h.size && h.size[z] >= n :: Ahead(p, last, z)
  }

  lemma LastMisses(h: Heap, p: nat, n: nat, grew: bool)
    requires Inv(h) && p in h.free && p in h.size && h.size[p] < n && (!grew ==> FitsAhead(h, p, p, n))
    ensures !grew ==> NoneFits(h, n)
  {
    assert forall z | z in h.free :: FreeOk(h, z);
  }

  lemma StepAhead(h: Heap, p: nat, last: nat, n: nat, big: nat, grew: bool)
    requires Inv(h) && p in h.free && last in h.free && p != last && p in h.size && h.size[p] < n
    requires grew ==> big in h.free && big in h.size && h.size[big] >= n && Ahead(p, last, big)
    requires !grew ==> FitsAhead(h, p, last, n)
    ensures p in h.ptr && (grew ==> Ahead(h.ptr[p], last, big)) && (!grew ==> FitsAhead(h, h.ptr[p], last, n))
    ensures if p < last then p < h.ptr[p] <= last else p < h.ptr[p] || h.ptr[p] <= last
  {
    assert LinkOk(h, p) && FreeOk(h, last);
    if grew {
      StillAhead(h, p, last, big);
    } else {
      forall z | z in h.free && z in h.size && h.size[z] >= n ensures Ahead(h.ptr[p], last, z) {
        StillAhead(h, p, last, z);
      }
    }
  }

  lemma StillAhead(h: Heap, p: nat, last: nat, z: nat)
    requires Inv(h) && p in h.free && last in h.free && z in h.free && Ahead(p, last, z) && z != p && p != last
    ensures p in h.ptr && Ahead(h.ptr[p], last, z)
  {
    assert LinkOk(h, p) && FreeOk(h, z) && FreeOk(h, last);
  }

  /** Block b goes in behind p and is merged with what it touches, above and then below. */
  lemma Return(h: Heap, p: nat, b: nat) returns (g: Heap)
    requires Inv(h) && b in h.live && Place(h, p, b)
    ensures p in h.ptr && p in h.size && b in h.size && h.ptr[p] in h.ptr && h.ptr[p] in h.size && p != b && h.ptr[p] != b
    ensures Inv(g) && p in g.free && g.live == h.live - {b} && g.owned == h.owned && g.base == h.base
    ensures Holds(g, b, h.live[b])
    ensures var up := b + h.size[b] == h.ptr[p];
            var size := if up then h.size[b := h.size[b] + h.size[h.ptr[p]]] else h.size;
            var ptr := h.ptr[b := if up then h.ptr[h.ptr[p]] else h.ptr[p]];
            if p + h.size[p] == b then g.size == size[p := size[p] + size[b]] && g.ptr == ptr[p := ptr[b]]
            else g.size == size && g.ptr == ptr[p := b]
  {
    assert LiveOk(h, b) && LinkOk(h, p) && FreeOk(h, p) && FreeOk(h, h.ptr[p]) && LinkOk(h, h.ptr[p]);
    FreeNotLive(h, p);
    FreeNotLive(h, h.ptr[p]);
    InsertKeeps(h, p, b);
    var h1 := Insert(h, p, b);
    var h2 := Settle(h1, {p, b}, b);
    assert {p, b} - {b} == {p};
    g := Settle(h2, {p}, p);
    assert {p} - {p} == {};
    var z := if p + h.size[p] == b then p else b;
    assert z in g.free && z in g.size && z <= b && b + h.live[b] <= z + g.size[z];
  }

  lemma FreeNotLiveAll(h: Heap)
    requires Inv(h)
    ensures forall a | a in h.free :: a !in h.live
  {
    forall a | a in h.free ensures a !in h.live {
      FreeNotLive(h, a);
    }
  }
}
