/** The page cache of a memory store: one frame per page, found through the radix tree. */
module PageCache {
  import opened RadixNodes
  import opened Radix

  const PG_SIZE := 4096

  class Store {
    const tree: RadixTree
    // Physical frames that are free.
    var frames: set<nat>

    /** No frame is cached twice, and no cached frame is free. */
    ghost predicate Valid()
      reads this, tree
    {
      && tree.Valid() && NULL !in frames
      && (forall i: nat :: Value(tree.State(), i) !in frames)
      && (forall i: nat, k: nat | Value(tree.State(), i) == Value(tree.State(), k) != NULL :: i == k)
    }

    ghost function Cached(ofs: nat): nat
      reads this, tree
    {
      Value(tree.State(), ofs / 4096)
    }

    constructor (memory: set<nat>, free: set<nat>)
      requires NULL !in memory && NULL !in free
      ensures Valid() && fresh(tree) && frames == free && forall ofs: nat :: Cached(ofs) == NULL
    {
      tree := new RadixTree(memory);
      frames := free;
    }

    /**
     * `pgcache_get_page`: the frame of that page, the same one for every
     * caller from then on. `filled` says whether the store could fill it.
     */
    method GetPage(ofs: nat, filled: bool) returns (page: nat)
      requires Valid() && ofs / 4096 < 0x4000_0000
      modifies this, tree
      ensures Valid()
      ensures old(Cached(ofs)) != NULL ==> page == old(Cached(ofs)) && frames == old(frames)
      ensures old(Cached(ofs)) == NULL && page != NULL ==> page in old(frames) && frames == old(frames) - {page}
      ensures page != NULL ==> MapPut(old(tree.State()), tree.State(), ofs / 4096, page)
      ensures page == NULL ==> SameMap(old(tree.State()), tree.State()) && frames == old(frames)
      ensures page == NULL ==> old(frames) == {} || !filled || tree.pool == {}
    {
      page := tree.Lookup(ofs / PG_SIZE);
      if page == NULL {
        if frames == {} {
          return;
        }
        var frame :| frame in frames;
        frames := frames - {frame};
        if !filled {
          frames := frames + {frame};
          return;
        }
        var r := tree.Insert(ofs / PG_SIZE, frame);
        if !r.Ok? {
          frames := frames + {frame};
          return;
        }
        page := frame;
      }
    }
  }

  /** Two faults anywhere in the store: the same page gets the same frame, different pages different ones. */
  method FaultTwice(s: Store, a: nat, b: nat, filledA: bool, filledB: bool) returns (p: nat, q: nat)
    requires s.Valid() && a / 4096 < 0x4000_0000 && b / 4096 < 0x4000_0000
    modifies s, s.tree
    ensures s.Valid() && (p != NULL && q != NULL ==> (p == q <==> a / 4096 == b / 4096))
    ensures p != NULL && a / 4096 == b / 4096 ==> q == p
  {
    p := s.GetPage(a, filledA);
    q := s.GetPage(b, filledB);
    assert q != NULL ==> Value(s.tree.State(), b / PG_SIZE) == q;
    assert p != NULL && q != NULL ==> Value(s.tree.State(), a / PG_SIZE) == p;
  }
}
