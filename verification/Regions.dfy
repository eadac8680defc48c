/** The ordered region list of an address space. */
module Regions {
  import opened Basics
  import opened NatLists
  import opened LinkedRing
  import opened RegionOrder

  datatype MapResult = Mapped(node: nat) | Refused | Panics

  ghost function RangesOf(list: seq<nat>, regions: map<nat, Region>): (l: seq<Region>)
    requires forall i | 0 <= i < |list| :: list[i] in regions
    ensures |l| == |list| && forall i | 0 <= i < |l| :: l[i] == regions[list[i]]
  {
    seq(|list|, i requires 0 <= i < |list| => regions[list[i]])
  }

  lemma RangesInsert(list: seq<nat>, regions: map<nat, Region>, k: nat, n: nat)
    requires (forall i | 0 <= i < |list| :: list[i] in regions) && n in regions && k <= |list|
    ensures var m := list[..k] + [n] + list[k..];
            (forall i | 0 <= i < |m| :: m[i] in regions) && RangesOf(m, regions) == RegionOrder.InsertAt(RangesOf(list, regions), k, regions[n])
  {
    var m := list[..k] + [n] + list[k..];
    assert forall i | 0 <= i < |m| :: m[i] == if i < k then list[i] else if i == k then n else list[i - 1];
  }

  lemma RangesRemove(list: seq<nat>, regions: map<nat, Region>, k: nat)
    requires (forall i | 0 <= i < |list| :: list[i] in regions) && k < |list|
    ensures var (m, l) := (list[..k] + list[k + 1..], RangesOf(list, regions));
            (forall i | 0 <= i < |m| :: m[i] in regions) && RangesOf(m, regions) == l[..k] + l[k + 1..]
  {
    var m := list[..k] + list[k + 1..];
    assert forall i | 0 <= i < |m| :: m[i] == if i < k then list[i] else list[i + 1];
  }

  lemma RemoveOrdered(l: seq<Region>, k: nat)
    requires Ordered(l) && k < |l|
    ensures Ordered(l[..k] + l[k + 1..])
  {
    var m := l[..k] + l[k + 1..];
    assert forall i | 0 <= i < |m| :: m[i] == if i < k then l[i] else l[i + 1];
  }

  class AddrSpace {
    var prev: map<nat, nat>
    var next: map<nat, nat>
    var regions: map<nat, Region>
    ghost var list: seq<nat>

    ghost function State(): Ring
      reads this
    {
      Ring(prev, next, list)
    }

    ghost predicate Shape()
      reads this
    {
      Inv(State()) && forall i | 0 <= i < |list| :: list[i] in regions
    }

    /** The ranges in list order. */
    ghost function Ranges(): (l: seq<Region>)
      reads this
      requires forall i | 0 <= i < |list| :: list[i] in regions
      ensures |l| == |list|
    {
      RangesOf(list, regions)
    }

    ghost predicate Valid()
      reads this
    {
      Shape() && Ordered(Ranges())
    }

    /** `list_init`. */
    constructor ()
      ensures Valid() && list == []
    {
      prev, next, regions, list := map[HEAD := HEAD], map[HEAD := HEAD], map[], [];
      new;
      assert LinkAt(State(), 0);
    }

    /** `list_append`. */
    method Append(n: nat)
      requires Inv(State()) && n !in list && n != HEAD
      modifies `prev, `next, `list
      ensures Inv(State()) && State() == Insert(old(State()), |old(list)|, n)
    {
      InsertKeeps(State(), |list|, n);
      assert LinkAt(State(), |list|) && LinkAt(State(), 0);
      var empty := prev[HEAD] == HEAD && next[HEAD] == HEAD;
      var last := prev[HEAD];
      if empty {
        next := next[HEAD := n];
      } else {
        next := next[last := n];
      }
      prev := prev[n := last];
      next := next[n := HEAD];
      prev := prev[HEAD := n];
      list := list[..|list|] + [n] + list[|list|..];
      assert State() == Insert(old(State()), |old(list)|, n);
    }

    /** The search of `list_append_ordered`: the first region that starts at or after the new one's end. */
    method FindSpot(x: Region) returns (m: nat, ghost k: nat)
      requires Shape()
      ensures k == Position(Ranges(), x) && m == At(list, k + 1)
    {
      ghost var l := Ranges();
      k := 0;
      assert LinkAt(State(), 0) && l[0..] == l;
      m := next[HEAD];
      while m != HEAD
        invariant 0 <= k <= |list| && m == At(list, k + 1) && Position(l, x) == k + Position(l[k..], x)
        decreases |list| - k
      {
        assert m == list[k] && l[k] == regions[m];
        if regions[m].start >= x.end {
          return;
        }
        assert l[k..][1..] == l[k + 1..];
        assert LinkAt(State(), k + 1);
        m := next[m];
        k := k + 1;
      }
      BackAtHead(list, k);
    }

    /** `list_append_ordered` with the region comparator. */
    method AppendOrdered(n: nat)
      requires Shape() && n in regions && n !in list && n != HEAD
      modifies `prev, `next, `list
      ensures Shape() && State() == Insert(old(State()), Position(old(Ranges()), regions[n]), n)
    {
      ghost var k;
      var m;
      m, k := FindSpot(regions[n]);
      assert k < |list| ==> list[k] in list;
      if m == HEAD {
        BackAtHead(list, k);
        Append(n);
      } else {
        InsertBefore(n, m, k);
      }
    }

    /** Node n goes in front of node m, which is at index k. */
    method InsertBefore(n: nat, m: nat, ghost k: nat)
      requires Inv(State()) && n !in list && n != HEAD && k < |list| && m == list[k]
      modifies `prev, `next, `list
      ensures Inv(State()) && State() == Insert(old(State()), k, n)
    {
      InsertKeeps(State(), k, n);
      assert LinkAt(State(), k) && m == At(list, k + 1);
      var before := prev[m];
      prev := prev[n := before];
      next := next[n := m];
      next := next[before := n];
      prev := prev[m := n];
      list := list[..k] + [n] + list[k..];
      assert State() == Insert(old(State()), k, n);
    }

    /** `list_remove`. */
    method RemoveNode(n: nat, ghost k: nat)
      requires Inv(State()) && k < |list| && n == list[k]
      modifies `prev, `next, `list
      ensures Inv(State()) && State() == Remove(old(State()), k)
    {
      RemoveKeeps(State(), k);
      assert LinkAt(State(), k) && LinkAt(State(), k + 1) && n == At(list, k + 1);
      var a, b := prev[n], next[n];
      next := next[a := b];
      prev := prev[b := a];
      list := list[..k] + list[k + 1..];
      assert State() == Remove(old(State()), k);
    }

    /** `memregion_allocated`. */
    method Allocated(start: nat, end: nat) returns (r: bool)
      requires Shape()
      ensures r <==> exists i :: 0 <= i < |list| && Overlaps(regions[list[i]], start, end)
    {
      ghost var i := 0;
      assert LinkAt(State(), 0);
      var m := next[HEAD];
      while m != HEAD
        invariant 0 <= i <= |list| && m == At(list, i + 1)
        invariant forall k | 0 <= k < i :: !Overlaps(regions[list[k]], start, end)
        decreases |list| - i
      {
        assert m == list[i];
        if Overlaps(regions[m], start, end) {
          return true;
        }
        assert LinkAt(State(), i + 1);
        m := next[m];
        i := i + 1;
      }
      BackAtHead(list, i);
      r := false;
    }

    /** `find_free_vaddr`. */
    method FindFreeVaddr(size: nat) returns (r: Option<nat>)
      requires Valid() && size < WORD
      ensures r == Search(Ranges(), 0, size)
      ensures r.Some? && IsUserGap(Ranges(), r.value, size) <==> FitsFrom(Ranges(), 0, size)
    {
      ghost var i, l := 0, Ranges();
      assert LinkAt(State(), 0);
      var m, addr: nat := next[HEAD], 0;
      assert l[0..] == l;
      SearchExact(l, 0, size);
      while m != HEAD
        invariant 0 <= i <= |list| && m == At(list, i + 1) && Search(l, 0, size) == Search(l[i..], addr, size)
        decreases |list| - i
      {
        assert m == list[i] && l[i] == regions[m];
        if RoundUp((addr + size) % WORD) < regions[m].start {
          return Some(addr);
        }
        addr := RoundUp(regions[m].end);
        assert l[i..][1..] == l[i + 1..];
        assert LinkAt(State(), i + 1);
        m := next[m];
        i := i + 1;
      }
      BackAtHead(list, i);
      r := if RoundUp((addr + size) % WORD) < (USTACK_LOWER - size) % WORD then Some(addr) else None;
    }

    /**
     * `memregion_map_internal` at a given address: the region is linked in iff
     * the checks pass, it overlaps no other and there is memory for it.
     */
    method MapAt(addr: nat, size: nat, kernPerm: bool, node: Option<nat>) returns (r: MapResult)
      requires Valid() && addr < WORD && size < WORD
      requires node.Some? ==> node.value != HEAD && node.value !in list
      modifies `prev, `next, `list, `regions
      ensures Valid()
      ensures r.Panics? <==> AssertFails(addr, size, kernPerm)
      ensures !r.Mapped? ==> State() == old(State()) && regions == old(regions)
      ensures r.Mapped? ==> node == Some(r.node) && RegionOk(Region(addr, addr + size))
      ensures r.Mapped? ==> Ranges() == RegionOrder.InsertAt(old(Ranges()), Position(old(Ranges()), Region(addr, addr + size)), Region(addr, addr + size))
      ensures r.Mapped? <==> !kernPerm && UserRange(addr, size) && node.Some? && Clear(old(Ranges()), addr, size)
    {
      var ok := Checks(addr, size, kernPerm);
      ChecksExact(addr, size, kernPerm);
      ChecksPanic(addr, size, kernPerm);
      if ok.None? {
        return Panics;
      }
      if !ok.value {
        return Refused;
      }
      ChecksFit(addr, size, kernPerm);
      var taken := Allocated(addr, addr + size);
      assert forall i | 0 <= i < |list| :: Ranges()[i] == regions[list[i]];
      if taken || node.None? {
        return Refused;
      }
      LinkIn(node.value, Region(addr, addr + size));
      r := Mapped(node.value);
    }

    /** The new region takes its place. */
    method LinkIn(n: nat, x: Region)
      requires Valid() && n != HEAD && n !in list && RegionOk(x)
      requires forall i | 0 <= i < |list| :: !Overlaps(Ranges()[i], x.start, x.end)
      modifies `prev, `next, `list, `regions
      ensures Valid() && Ranges() == RegionOrder.InsertAt(old(Ranges()), Position(old(Ranges()), x), x)
      ensures n in regions && regions[n] == x
    {
      ghost var l := Ranges();
      InsertOrdered(l, x);
      regions := regions[n := x];
      assert Ranges() == l;
      RangesInsert(list, regions, Position(l, x), n);
      AppendOrdered(n);
    }

    /**
     * `memregion_map_internal` anywhere: where the search finds a gap, the
     * region is not refused for overlap, and it is mapped at the address found.
     */
    method MapAnywhere(size: nat, kernPerm: bool, node: Option<nat>) returns (r: MapResult)
      requires Valid() && size < WORD && (node.Some? ==> node.value != HEAD && node.value !in list)
      modifies `prev, `next, `list, `regions
      ensures Valid()
      ensures !r.Mapped? ==> State() == old(State()) && regions == old(regions)
      ensures Search(old(Ranges()), 0, size).None? ==> r.Refused?
      ensures var a := Search(old(Ranges()), 0, size); r.Panics? <==> a.Some? && AssertFails(a.value, size, kernPerm)
      ensures r.Mapped? ==> var a := Search(old(Ranges()), 0, size);
        && a.Some? && !kernPerm && UserRange(a.value, size) && node == Some(r.node)
        && Ranges() == RegionOrder.InsertAt(old(Ranges()), Position(old(Ranges()), Region(a.value, a.value + size)), Region(a.value, a.value + size))
      ensures var a := Search(old(Ranges()), 0, size);
              FitsFrom(old(Ranges()), 0, size) && a.Some? && !kernPerm && UserRange(a.value, size) && node.Some? ==> r.Mapped?
    {
      var a := FindFreeVaddr(size);
      if a.None? {
        return Refused;
      }
      AnswerBound(Ranges(), size);
      r := MapAt(a.value, size, kernPerm, node);
    }

    /** `memregion_unmap_internal`: the others stay in order. */
    method Unmap(n: nat, ghost k: nat)
      requires Valid() && k < |list| && n == list[k]
      modifies `prev, `next, `list
      ensures Valid() && Ranges() == old(Ranges())[..k] + old(Ranges())[k + 1..]
    {
      ghost var l := Ranges();
      RangesRemove(list, regions, k);
      RemoveOrdered(l, k);
      RemoveNode(n, k);
    }
  }

  /** The checks of `memregion_map_internal` for a user space before the overlap test; none means a failed assertion. */
  function Checks(addr: nat, size: nat, kernPerm: bool): Option<bool>
  {
    var rounded := (addr + RoundUp(size)) % WORD;
    if !Aligned(addr) || rounded < addr then None
    else if kernPerm || (rounded - 1) % WORD >= KVM_BASE then Some(false)
    else if (addr + size) % WORD < addr then None
    else Some(true)
  }

  /** Whole pages from a page boundary on, some of them there, all below the kernel's half. */
  predicate UserRange(addr: nat, size: nat)
  {
    addr % 4096 == 0 && 0 < addr + (size + 4095) / 4096 * 4096 <= 0xFFFF_FFFF_8000_0000
  }

  /** The range meets no region. */
  predicate Clear(l: seq<Region>, addr: nat, size: nat)
  {
    forall i | 0 <= i < |l| :: l[i].end <= addr || addr + size <= l[i].start
  }

  /** An address inside a page, or a range that passes 2^64. */
  predicate AssertFails(addr: nat, size: nat, kernPerm: bool)
  {
    var up := (size + 4095) / 4096 * 4096;
    || addr % 4096 != 0
    || (up < 0x1_0000_0000_0000_0000 <= addr + up)
    || (up == 0x1_0000_0000_0000_0000 && !kernPerm && 0 < addr <= 0xFFFF_FFFF_8000_0000)
  }

  /** So the assertions fail exactly then. */
  lemma ChecksPanic(addr: nat, size: nat, kernPerm: bool)
    requires addr < WORD && size < WORD
    ensures Checks(addr, size, kernPerm).None? <==> AssertFails(addr, size, kernPerm)
  {
  }

  /** Those are the ranges that pass the checks, with a permission that is not the kernel's. */
  lemma ChecksExact(addr: nat, size: nat, kernPerm: bool)
    requires addr < WORD && size < WORD
    ensures Checks(addr, size, kernPerm) == Some(true) <==> !kernPerm && UserRange(addr, size)
  {
  }

  /** The user stack is such a range. */
  lemma StackIsUser()
    ensures UserRange(USTACK_LOWER, USTACK_UPPER - USTACK_LOWER) && USTACK_UPPER - USTACK_LOWER == 10 * 4096
  {
  }

  lemma BackAtHead(list: seq<nat>, i: nat)
    requires HEAD !in list && i <= |list| && At(list, i + 1) == HEAD
    ensures i == |list|
  {
    assert forall k | 0 <= k < |list| :: list[k] in list;
  }

  /** A range that passes the checks ends, rounded up, below 2^64. */
  lemma ChecksFit(addr: nat, size: nat, kernPerm: bool)
    requires addr < WORD && size < WORD && Checks(addr, size, kernPerm) == Some(true)
    ensures RegionOk(Region(addr, addr + size))
  {
  }

  lemma AnswerBound(l: seq<Region>, size: nat)
    requires Ordered(l) && Search(l, 0, size).Some?
    ensures Search(l, 0, size).value < WORD
  {
    SearchSmall(l, 0, size);
  }

  lemma {:induction false} SearchSmall(l: seq<Region>, addr: nat, size: nat)
    requires addr < WORD && Search(l, addr, size).Some?
    ensures Search(l, addr, size).value < WORD
  {
    if l != [] && RoundUp((addr + size) % WORD) >= l[0].start {
      SearchSmall(l[1..], RoundUp(l[0].end), size);
    }
  }
}
