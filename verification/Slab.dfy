/** The object cache: `slab_create`, `kmem_cache_alloc`, `kmem_cache_free`. */
module Slab {
  import opened Basics
  import opened NatLists
  import opened SlabChain
  import opened SlabState

  class Cache {
    const size: nat
    var slabs: map<nat, Slab>
    var free: seq<nat>
    var full: seq<nat>
    // `page->slab`, by page number.
    var pageSlab: map<nat, nat>
    ghost var chain: map<nat, seq<nat>>
    ghost var live: map<nat, set<nat>>

    ghost function State(): Slabs
      reads this
    {
      Slabs(size, slabs, free, full, pageSlab, chain, live)
    }

    ghost predicate Valid()
      reads this
    {
      Inv(State())
    }

    constructor (objSize: nat)
      requires objSize > 0
      ensures Valid() && size == objSize && live == map[]
    {
      size, slabs, free, full, pageSlab := objSize, map[], [], [], map[];
      chain, live := map[], map[];
    }

    /** `slab_create` on fresh pages at b: every slot is free and the slab goes on the free list. */
    method SlabCreate(b: nat)
      requires Valid() && Unused(State(), b)
      modifies this
      ensures Valid() && free == old(free) + [b] && full == old(full) && b in slabs && |slabs[b].arr| >= 128
      ensures slabs == old(slabs)[b := slabs[b]] && live == old(live)[b := {}] && b in chain && chain[b] != []
      ensures slabs[b].objs == b + 40 + 4 * |slabs[b].arr| && slabs[b].objs + size * |slabs[b].arr| <= b + 4096 * slabs[b].pages
      ensures 4096 * (slabs[b].pages - 1) < 40 + (size + 4) * 128
    {
      SlabFits(b, size);
      var table := LinkPages(pageSlab, b, SlabPages(size));
      var arr := FreshIndex(SlabObjs(size));
      AddKeeps(State(), b, arr, table);
      pageSlab := table;
      slabs := slabs[b := Slab(ObjStart(b, size), 0, SlabPages(size), arr)];
      free := free + [b];
      chain, live := chain[b := From(0, |arr|)], live[b := {}];
      assert State() == Add(old(State()), b, slabs[b], table);
    }

    /** The first slot of a slab with free slots; a slab without any more changes lists. */
    method TakeSlot(b: nat) returns (obj: nat, ghost i: nat)
      requires Valid() && free != [] && b == free[0]
      modifies `slabs, `free, `full, `chain, `live
      ensures Valid() && b in old(slabs) && b in old(live) && i !in old(live)[b] && i < |old(slabs)[b].arr|
      ensures obj == ObjAddr(old(slabs)[b].objs, size, i) && live == old(live)[b := old(live)[b] + {i}]
      ensures SameObjs(old(slabs), slabs)
    {
      assert b in free && SlabOk(State(), b);
      TakeKeeps(State(), b);
      i := slabs[b].free;
      obj := PopSlot(b);
    }

    method PopSlot(b: nat) returns (obj: nat)
      requires b in slabs && b in chain && b in live && chain[b] != [] && slabs[b].free == chain[b][0] < |slabs[b].arr|
      modifies `slabs, `free, `full, `chain, `live
      ensures State() == Take(old(State()), b) && obj == ObjAddr(old(slabs)[b].objs, size, old(chain)[b][0])
    {
      var s := slabs[b];
      obj := s.objs + size * s.free;
      slabs := slabs[b := s.(free := s.arr[s.free])];
      ghost var i := chain[b][0];
      chain, live := chain[b := chain[b][1..]], live[b := live[b] + {i}];
      if slabs[b].free == -1 {
        free, full := Without(free, b), full + [b];
      }
      assert State() == Take(old(State()), b);
    }

    /**
     * `kmem_cache_alloc`: a slot that was not live; `pages` is where a new slab
     * could go, if there is memory. Null only if every slot is live and it could not.
     */
    method Alloc(pages: Option<nat>) returns (obj: Option<nat>, ghost b: nat, ghost i: nat)
      requires Valid() && (pages.Some? ==> Unused(State(), pages.value))
      modifies this
      ensures Valid() && (forall c | c in old(slabs) :: c in slabs && slabs[c].objs == old(slabs)[c].objs)
      ensures obj.None? ==> pages.None? && State() == old(State()) && AllLive(State())
      ensures obj.Some? ==> b in slabs && !IsLive(old(State()), b, i) && obj.value == ObjAddr(slabs[b].objs, size, i)
      ensures obj.Some? ==> IsLive(State(), b, i)
      ensures obj.Some? ==> forall c, k | c != b || k != i :: IsLive(State(), c, k) <==> IsLive(old(State()), c, k)
      ensures !AllLive(old(State())) ==> obj.Some? && b in old(slabs)
    {
      b, i := 0, 0;
      if free == [] {
        NoneFree(State());
        if pages.None? {
          return None, b, i;
        }
        SlabCreate(pages.value);
      } else {
        SomeFree(State());
      }
      b := free[0];
      var o;
      o, i := TakeSlot(free[0]);
      obj := Some(o);
    }

    /** `kmem_cache_free` of a live object: the page leads to the slab and a division to the slot. */
    method Free(obj: nat, ghost b: nat, ghost i: nat)
      requires Valid() && IsLive(State(), b, i) && b in slabs && obj == ObjAddr(slabs[b].objs, size, i)
      modifies `slabs, `free, `full, `chain, `live
      ensures Valid() && live == old(live)[b := old(live)[b] - {i}] && SameObjs(old(slabs), slabs)
    {
      PutKeeps(State(), b, i);
      FoundBack(State(), b, i);
      var c := pageSlab[obj / PG_SIZE];
      var s := slabs[c];
      var wasFull := s.free == -1;
      var index := (obj - s.objs) / size;
      slabs := slabs[c := s.(arr := s.arr[index := s.free], free := index)];
      chain, live := chain[b := [i] + chain[b]], live[b := live[b] - {i}];
      if wasFull {
        full, free := Without(full, c), free + [c];
      }
      assert State() == Put(old(State()), b, i);
    }
  }

  ghost predicate SameObjs(before: map<nat, Slab>, after: map<nat, Slab>)
  {
    after.Keys == before.Keys && forall c | c in after :: after[c].objs == before[c].objs
  }

  /** No slot of any slab is free. */
  ghost predicate AllLive(s: Slabs)
  {
    forall b, i: nat | b in s.slabs && i < |s.slabs[b].arr| :: IsLive(s, b, i)
  }

  lemma NoneFree(s: Slabs)
    requires Inv(s) && s.free == []
    ensures AllLive(s)
  {
    forall b, i: nat | b in s.slabs && i < |s.slabs[b].arr| ensures IsLive(s, b, i) {
      assert SlabOk(s, b) && s.chain[b] == [];
      assert i !in s.chain[b];
    }
  }

  lemma SomeFree(s: Slabs)
    requires Inv(s) && s.free != []
    ensures s.free[0] in s.slabs
  {
    assert s.free[0] in s.free;
  }

  /** The loop over the pages of a new slab. */
  method LinkPages(table: map<nat, nat>, b: nat, n: nat) returns (r: map<nat, nat>)
    requires forall p: nat | InPages(b, n, p) :: p !in table
    ensures forall p | p in table :: p in r && r[p] == table[p]
    ensures forall p: nat | InPages(b, n, p) :: p in r && r[p] == b
  {
    r := table;
    for i := 0 to n
      invariant forall p | p in table :: p in r && r[p] == table[p]
      invariant forall p: nat | InPages(b, i, p) :: p in r && r[p] == b
    {
      assert InPages(b, n, b / PG_SIZE + i);
      r := r[b / PG_SIZE + i := b];
    }
  }

  /** The index array of a new slab: each slot leads to the next, the last to the end marker. */
  method FreshIndex(n: nat) returns (arr: seq<int>)
    requires n > 0
    ensures |arr| == n && ChainOk(arr, 0, From(0, n))
  {
    var a := new int[n];
    for i := 0 to n - 1
      invariant forall k | 0 <= k < i :: a[k] == k + 1
    {
      a[i] := i + 1;
    }
    a[n - 1] := -1;
    arr := a[..];
    FreshChain(arr, 0);
  }
}
