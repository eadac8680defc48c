/** The geometry of a slab and the chain of free slots threaded through its index array. */
module SlabChain {

  const PG_SIZE := 4096
  const SLAB_HEADER := 40
  const INT_SIZE := 4
  const MIN_OBJS := 128

  // --- Geometry ---

  /** Pages for the header, the index array and at least 128 objects. */
  function SlabPages(size: nat): (n: nat)
    ensures n * PG_SIZE >= SLAB_HEADER + (size + INT_SIZE) * MIN_OBJS
  {
    (SLAB_HEADER + (size + INT_SIZE) * MIN_OBJS + PG_SIZE - 1) / PG_SIZE
  }

  function SlabObjs(size: nat): nat
    requires size > 0
  {
    (SlabPages(size) * PG_SIZE - SLAB_HEADER) / (size + INT_SIZE)
  }

  /** Where the objects start: after the header and the index array. */
  function ObjStart(slab: nat, size: nat): nat
    requires size > 0
  {
    slab + SLAB_HEADER + INT_SIZE * SlabObjs(size)
  }

  lemma Quotient(a: nat, b: nat, k: nat)
    requires b > 0 && a >= b * k
    ensures a / b >= k && (a / b) * b <= a
  {
    var q := a / b;
    assert a == q * b + a % b;
    assert q < k ==> (q + 1) * b <= k * b;
  }

  /** At least 128 slots and as many as there is room for, in the fewest pages, past 40 bytes of header and 4 for each slot. */
  lemma SlabFits(slab: nat, size: nat)
    requires size > 0
    ensures SlabObjs(size) >= 128 && ObjStart(slab, size) == slab + 40 + 4 * SlabObjs(size)
    ensures ObjStart(slab, size) + size * SlabObjs(size) <= slab + SlabPages(size) * 4096
    ensures SlabPages(size) * 4096 < 40 + (size + 4) * (SlabObjs(size) + 1)
    ensures (SlabPages(size) - 1) * 4096 < 40 + (size + 4) * 128
  {
    var room, n := SlabPages(size) * PG_SIZE - SLAB_HEADER, SlabObjs(size);
    Quotient(room, size + INT_SIZE, MIN_OBJS);
    assert n * (size + INT_SIZE) == size * n + INT_SIZE * n;
    assert room == n * (size + 4) + room % (size + 4);
    assert (size + 4) * (n + 1) == n * (size + 4) + (size + 4);
  }

  /** The address of slot i. */
  function ObjAddr(objs: nat, size: nat, i: nat): nat
  {
    objs + size * i
  }

  lemma SlotsApart(objs: nat, size: nat, i: nat, k: nat, n: nat)
    requires size > 0 && i < k < n
    ensures ObjAddr(objs, size, i) + size <= ObjAddr(objs, size, k)
    ensures ObjAddr(objs, size, k) + size <= objs + size * n
  {
    assert size * (i + 1) <= size * k && size * (k + 1) <= size * n;
  }

  /** Dividing the distance by the object size recovers the slot. */
  lemma SlotOf(objs: nat, size: nat, i: nat)
    requires size > 0
    ensures (ObjAddr(objs, size, i) - objs) / size == i
  {
    Quotient(size * i, size, i);
    var q := size * i / size;
    assert q > i ==> q * size >= (i + 1) * size;
  }

  /** A slot lies inside the slab's pages, past the header and the index array. */
  lemma SlotInside(slab: nat, size: nat, i: nat)
    requires size > 0 && i < SlabObjs(size)
    ensures slab + SLAB_HEADER + INT_SIZE * SlabObjs(size) <= ObjAddr(ObjStart(slab, size), size, i)
    ensures ObjAddr(ObjStart(slab, size), size, i) + size <= slab + SlabPages(size) * PG_SIZE
  {
    SlabFits(slab, size);
    Scale(size, i + 1, SlabObjs(size));
  }

  lemma Scale(size: nat, i: nat, n: nat)
    requires i <= n
    ensures size * i <= size * n
  {
  }

  // --- The chain of free slots ---

  /** From `head` the indices lead through exactly `chain`, without repetition, to the end marker. */
  ghost predicate ChainOk(arr: seq<int>, head: int, chain: seq<nat>)
    decreases |chain|
  {
    if chain == [] then head == -1
    else head == chain[0] < |arr| && chain[0] !in chain[1..] && ChainOk(arr, arr[chain[0]], chain[1..])
  }

  /** A slot off the chain can be overwritten. */
  lemma {:induction false} ChainFrame(arr: seq<int>, head: int, chain: seq<nat>, i: nat, x: int)
    requires ChainOk(arr, head, chain) && i < |arr| && i !in chain
    ensures ChainOk(arr[i := x], head, chain)
    decreases |chain|
  {
    if chain != [] {
      ChainFrame(arr, arr[chain[0]], chain[1..], i, x);
    }
  }

  /** Every slot from i on, each leading to the next. */
  ghost function From(i: nat, n: nat): (r: seq<nat>)
    requires i <= n
    ensures |r| == n - i && forall k | 0 <= k < n - i :: r[k] == i + k
  {
    seq(n - i, k requires 0 <= k < n - i => i + k)
  }

  lemma {:induction false} FreshChain(arr: seq<int>, i: nat)
    requires |arr| > 0 && i <= |arr| && arr[|arr| - 1] == -1
    requires forall k | i <= k < |arr| - 1 :: arr[k] == k + 1
    ensures ChainOk(arr, if i == |arr| then -1 else i, From(i, |arr|))
    decreases |arr| - i
  {
    if i < |arr| {
      FreshChain(arr, i + 1);
      assert From(i, |arr|)[1..] == From(i + 1, |arr|);
    }
  }
}
