/** The slabs of one object cache and the invariant that ties their lists, chains and pages. */
module SlabState {
  import opened NatLists
  import opened SlabChain

  /** The header of a slab and its index array. */
  datatype Slab = Slab(objs: nat, free: int, pages: nat, arr: seq<int>)

  /** `chain` lists the free slots of each slab in order, `live` the slots handed out. */
  datatype Slabs = Slabs(size: nat, slabs: map<nat, Slab>, free: seq<nat>, full: seq<nat>, pageSlab: map<nat, nat>,
                         chain: map<nat, seq<nat>>, live: map<nat, set<nat>>)

  /** Page p leads back to the slab at b. */
  ghost predicate PageOk(s: Slabs, b: nat, p: nat)
  {
    p in s.pageSlab && s.pageSlab[p] == b
  }

  ghost predicate InPages(b: nat, n: nat, p: nat)
  {
    b / PG_SIZE <= p < b / PG_SIZE + n
  }

  /** The header is at a page boundary and describes the geometry; the slab's pages lead back to it. */
  ghost predicate Placed(s: Slabs, b: nat)
    requires b in s.slabs && s.size > 0
  {
    && b % PG_SIZE == 0 && s.slabs[b].objs == ObjStart(b, s.size) && s.slabs[b].pages == SlabPages(s.size)
    && |s.slabs[b].arr| == SlabObjs(s.size)
    && (forall p: nat {:trigger PageOk(s, b, p)} | InPages(b, SlabPages(s.size), p) :: PageOk(s, b, p))
  }

  /** The chain visits exactly the slots that are not live. */
  ghost predicate Threaded(slab: Slab, chain: seq<nat>, live: set<nat>)
  {
    && ChainOk(slab.arr, slab.free, chain)
    && (forall i: nat :: i in chain <==> i < |slab.arr| && i !in live)
    && (forall i | i in live :: i < |slab.arr|)
  }

  /** A slab is on the full list iff its chain is empty, and otherwise on the free list. */
  ghost predicate Listed(s: Slabs, b: nat)
    requires b in s.chain
  {
    if s.chain[b] == [] then b in s.full && b !in s.free else b in s.free && b !in s.full
  }

  ghost predicate SlabOk(s: Slabs, b: nat)
    requires b in s.slabs && s.size > 0
  {
    Placed(s, b) && b in s.chain && b in s.live && Threaded(s.slabs[b], s.chain[b], s.live[b]) && Listed(s, b)
  }

  ghost predicate Inv(s: Slabs)
  {
    && s.size > 0 && s.chain.Keys == s.live.Keys == s.slabs.Keys
    && (forall b {:trigger SlabOk(s, b)} | b in s.slabs :: SlabOk(s, b))
    && NoDup(s.free) && NoDup(s.full) && (forall b | b in s.free || b in s.full :: b in s.slabs)
  }

  ghost predicate IsLive(s: Slabs, b: nat, i: nat)
  {
    b in s.live && i in s.live[b]
  }

  // --- Objects are apart ---

  /** An object lies inside its slab's pages, past the header and the index array. */
  lemma Inside(s: Slabs, b: nat, i: nat)
    requires Inv(s) && b in s.slabs && i < |s.slabs[b].arr|
    ensures b + 40 + 4 * |s.slabs[b].arr| <= ObjAddr(s.slabs[b].objs, s.size, i)
    ensures ObjAddr(s.slabs[b].objs, s.size, i) + s.size <= b + s.slabs[b].pages * 4096
    ensures |s.slabs[b].arr| >= 128
  {
    assert SlabOk(s, b);
    SlotInside(b, s.size, i);
    SlabFits(b, s.size);
  }

  lemma SlabsApart(s: Slabs, b: nat, c: nat)
    requires Inv(s) && b in s.slabs && c in s.slabs && b != c
    ensures b + s.slabs[b].pages * PG_SIZE <= c || c + s.slabs[c].pages * PG_SIZE <= b
  {
    assert SlabOk(s, b) && SlabOk(s, c);
    var p, q, n := b / PG_SIZE, c / PG_SIZE, SlabPages(s.size);
    assert InPages(b, n, q) ==> PageOk(s, b, q);
    assert InPages(c, n, p) ==> PageOk(s, c, p);
    assert PageOk(s, b, p) && PageOk(s, c, q);
  }

  /** No two objects overlap. */
  lemma ObjectsApart(s: Slabs, b: nat, i: nat, c: nat, k: nat)
    requires Inv(s) && IsLive(s, b, i) && IsLive(s, c, k) && (b != c || i != k)
    ensures b in s.slabs && c in s.slabs
    ensures var (x, y) := (ObjAddr(s.slabs[b].objs, s.size, i), ObjAddr(s.slabs[c].objs, s.size, k));
            x + s.size <= y || y + s.size <= x
  {
    assert SlabOk(s, b) && SlabOk(s, c);
    Inside(s, b, i);
    Inside(s, c, k);
    if b != c {
      SlabsApart(s, b, c);
    } else if i < k {
      SlotsApart(s.slabs[b].objs, s.size, i, k, |s.slabs[b].arr|);
    } else {
      SlotsApart(s.slabs[b].objs, s.size, k, i, |s.slabs[b].arr|);
    }
  }

  /** The page of an object and a division lead back to its slab and slot. */
  lemma FoundBack(s: Slabs, b: nat, i: nat)
    requires Inv(s) && b in s.slabs && i < |s.slabs[b].arr|
    ensures var x := ObjAddr(s.slabs[b].objs, s.size, i);
            PageOk(s, b, x / PG_SIZE) && x >= s.slabs[b].objs && (x - s.slabs[b].objs) / s.size == i
  {
    var x := ObjAddr(s.slabs[b].objs, s.size, i);
    assert SlabOk(s, b);
    Inside(s, b, i);
    PageIn(b, s.slabs[b].pages, x);
    SlotOf(s.slabs[b].objs, s.size, i);
    assert PageOk(s, b, x / PG_SIZE);
  }

  lemma PageIn(b: nat, pages: nat, x: nat)
    requires b % PG_SIZE == 0 && b <= x < b + pages * PG_SIZE
    ensures InPages(b, pages, x / PG_SIZE)
  {
  }

  // --- Steps ---

  /** The first free slot of slab b is handed out. */
  ghost function Take(s: Slabs, b: nat): Slabs
    requires b in s.slabs && b in s.chain && b in s.live && s.chain[b] != [] && s.chain[b][0] < |s.slabs[b].arr|
  {
    var (slab, i) := (s.slabs[b], s.chain[b][0]);
    var next := slab.(free := slab.arr[i]);
    var r := s.(slabs := s.slabs[b := next], chain := s.chain[b := s.chain[b][1..]], live := s.live[b := s.live[b] + {i}]);
    if next.free == -1 then r.(free := Without(s.free, b), full := s.full + [b]) else r
  }

  lemma TakeThreaded(slab: Slab, chain: seq<nat>, live: set<nat>)
    requires Threaded(slab, chain, live) && chain != []
    ensures chain[0] < |slab.arr| && chain[0] !in live
    ensures Threaded(slab.(free := slab.arr[chain[0]]), chain[1..], live + {chain[0]})
  {
    assert chain == [chain[0]] + chain[1..];
    assert chain[0] in chain;
  }

  lemma TakeKeeps(s: Slabs, b: nat)
    requires Inv(s) && b in s.slabs && s.chain[b] != []
    ensures s.chain[b][0] < |s.slabs[b].arr| && s.chain[b][0] !in s.live[b] && s.chain[b][0] == s.slabs[b].free
    ensures Inv(Take(s, b))
  {
    assert SlabOk(s, b);
    TakeThreaded(s.slabs[b], s.chain[b], s.live[b]);
    var r := Take(s, b);
    WithoutList(s.free, b);
    forall c | c in r.slabs ensures SlabOk(r, c) {
      assert SlabOk(s, c);
      SamePages(s, r, c);
      assert ChainOk(r.slabs[b].arr, r.slabs[b].free, r.chain[b]);
    }
  }

  lemma SamePages(s: Slabs, r: Slabs, c: nat)
    requires s.size > 0 && c in s.slabs && c in r.slabs && Placed(s, c) && r.pageSlab == s.pageSlab && r.size == s.size
    requires r.slabs[c].objs == s.slabs[c].objs && r.slabs[c].pages == s.slabs[c].pages && |r.slabs[c].arr| == |s.slabs[c].arr|
    ensures Placed(r, c)
  {
    forall p: nat | InPages(c, SlabPages(s.size), p) ensures PageOk(r, c, p) {
      assert PageOk(s, c, p);
    }
  }

  /** Slot i of slab b comes back, to the front of the chain. */
  ghost function Put(s: Slabs, b: nat, i: nat): Slabs
    requires b in s.slabs && b in s.chain && b in s.live && i < |s.slabs[b].arr|
  {
    var slab := s.slabs[b];
    var r := s.(slabs := s.slabs[b := slab.(arr := slab.arr[i := slab.free], free := i)],
                chain := s.chain[b := [i] + s.chain[b]], live := s.live[b := s.live[b] - {i}]);
    if slab.free == -1 then r.(full := Without(s.full, b), free := s.free + [b]) else r
  }

  lemma PutThreaded(slab: Slab, chain: seq<nat>, live: set<nat>, i: nat)
    requires Threaded(slab, chain, live) && i in live
    ensures Threaded(slab.(arr := slab.arr[i := slab.free], free := i), [i] + chain, live - {i})
  {
    ChainFrame(slab.arr, slab.free, chain, i, slab.free);
    assert ([i] + chain)[1..] == chain;
  }

  lemma PutKeeps(s: Slabs, b: nat, i: nat)
    requires Inv(s) && IsLive(s, b, i)
    ensures b in s.slabs && b in s.chain && i < |s.slabs[b].arr| && Inv(Put(s, b, i))
  {
    assert SlabOk(s, b);
    PutThreaded(s.slabs[b], s.chain[b], s.live[b], i);
    var r := Put(s, b, i);
    if s.slabs[b].free == -1 {
      WithoutList(s.full, b);
    }
    forall c | c in r.slabs ensures SlabOk(r, c) {
      assert SlabOk(s, c);
      SamePages(s, r, c);
    }
  }

  ghost predicate Unused(s: Slabs, b: nat)
  {
    b % PG_SIZE == 0 && b !in s.slabs && forall p: nat | InPages(b, SlabPages(s.size), p) :: p !in s.pageSlab
  }

  /** A new slab, all of whose slots are free. */
  ghost function Add(s: Slabs, b: nat, slab: Slab, pageSlab: map<nat, nat>): Slabs
  {
    s.(slabs := s.slabs[b := slab], free := s.free + [b], pageSlab := pageSlab,
       chain := s.chain[b := From(0, |slab.arr|)], live := s.live[b := {}])
  }

  lemma AddKeeps(s: Slabs, b: nat, arr: seq<int>, pageSlab: map<nat, nat>)
    requires Inv(s) && Unused(s, b) && |arr| == SlabObjs(s.size) > 0 && ChainOk(arr, 0, From(0, |arr|))
    requires forall p | p in s.pageSlab :: p in pageSlab && pageSlab[p] == s.pageSlab[p]
    requires forall p: nat | InPages(b, SlabPages(s.size), p) :: p in pageSlab && pageSlab[p] == b
    ensures Inv(Add(s, b, Slab(ObjStart(b, s.size), 0, SlabPages(s.size), arr), pageSlab))
  {
    var r := Add(s, b, Slab(ObjStart(b, s.size), 0, SlabPages(s.size), arr), pageSlab);
    forall i: nat | i < |arr| ensures i in From(0, |arr|) {
      assert From(0, |arr|)[i] == i;
    }
    forall c | c in r.slabs ensures SlabOk(r, c) {
      AddSlab(s, b, arr, pageSlab, c);
    }
  }

  lemma AddSlab(s: Slabs, b: nat, arr: seq<int>, pageSlab: map<nat, nat>, c: nat)
    requires Inv(s) && Unused(s, b) && |arr| == SlabObjs(s.size) > 0 && ChainOk(arr, 0, From(0, |arr|))
    requires forall p | p in s.pageSlab :: p in pageSlab && pageSlab[p] == s.pageSlab[p]
    requires forall p: nat | InPages(b, SlabPages(s.size), p) :: p in pageSlab && pageSlab[p] == b
    requires forall i: nat | i < |arr| :: i in From(0, |arr|)
    requires c in s.slabs || c == b
    ensures SlabOk(Add(s, b, Slab(ObjStart(b, s.size), 0, SlabPages(s.size), arr), pageSlab), c)
  {
    var r := Add(s, b, Slab(ObjStart(b, s.size), 0, SlabPages(s.size), arr), pageSlab);
    if c != b {
      assert SlabOk(s, c);
      forall p: nat | InPages(c, SlabPages(s.size), p) ensures PageOk(r, c, p) {
        assert PageOk(s, c, p);
      }
    } else {
      forall p: nat | InPages(b, SlabPages(s.size), p) ensures PageOk(r, b, p) {
      }
    }
  }
}
