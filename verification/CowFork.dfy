/** Creating and removing address spaces, and why sharing frames shows the child what copying would. */
module CowFork {
  import opened Basics
  import opened CowState
  import opened CowSteps
  import opened CowOps

  /** A region appended to a list changes no lookup that already succeeded. */
  lemma {:induction false} FindAppend(rs: seq<Region>, r: Region, v: nat)
    ensures Find(rs + [r], v) == if Find(rs, v).Some? then Find(rs, v) else if r.Contains(v) then Some(r) else None
  {
    if rs == [] {
      assert rs + [r] == [r];
    } else {
      assert (rs + [r])[1..] == rs[1..] + [r];
      FindAppend(rs[1..], r, v);
    }
  }

  /** In a list of disjoint regions, a page finds the region that holds it. */
  lemma {:induction false} FindIndex(rs: seq<Region>, i: nat, v: nat)
    requires RegionsOk(rs) && i < |rs| && rs[i].Contains(v)
    ensures Find(rs, v) == Some(rs[i])
  {
    if i > 0 {
      assert RegionsOk(rs[1..]) by {
        forall a, b | 0 <= a < b < |rs[1..]| ensures forall u: nat :: !(rs[1..][a].Contains(u) && rs[1..][b].Contains(u)) {
          assert rs[1..][a] == rs[a + 1] && rs[1..][b] == rs[b + 1];
        }
      }
      FindIndex(rs[1..], i - 1, v);
    }
  }

  lemma RegionsPrefix(rs: seq<Region>, i: nat)
    requires RegionsOk(rs) && i <= |rs|
    ensures RegionsOk(rs[..i])
  {
  }

  /** Entry (q, w) is the same entry, in the same region, as before. */
  ghost predicate SameEntry(procs: map<nat, Proc>, procs': map<nat, Proc>, q: nat, w: nat)
    requires Maps(procs', q, w)
  {
    Maps(procs, q, w) && procs'[q].pt[w] == procs[q].pt[w] && RegionOf(procs', q, w) == RegionOf(procs, q, w)
  }

  lemma EntriesUntouched(vm: Vm, procs': map<nat, Proc>)
    requires forall q, w {:trigger EntryOk(vm, q, w)} | Maps(vm.procs, q, w) :: EntryOk(vm, q, w)
    requires forall f: nat :: Mappers(procs', f) == Mappers(vm.procs, f)
    requires forall q: nat, w: nat | Maps(procs', q, w) :: SameEntry(vm.procs, procs', q, w)
    ensures forall q, w | Maps(procs', q, w) :: EntryOk(vm.(procs := procs'), q, w)
  {
    forall q: nat, w: nat | Maps(procs', q, w) ensures EntryOk(vm.(procs := procs'), q, w) {
      assert SameEntry(vm.procs, procs', q, w) && EntryOk(vm, q, w);
    }
  }

  lemma CountsUntouched(vm: Vm, procs': map<nat, Proc>)
    requires CountsOk(vm) && forall f: nat :: Mappers(procs', f) == Mappers(vm.procs, f)
    ensures CountsOk(vm.(procs := procs'))
  {
  }

  // --- A new, empty address space ---

  ghost function AddProc(vm: Vm, c: nat): Vm
  {
    vm.(procs := vm.procs[c := Proc([], map[])])
  }

  lemma AddProcMappers(vm: Vm, c: nat, f: nat)
    requires c !in vm.procs
    ensures Mappers(AddProc(vm, c).procs, f) == Mappers(vm.procs, f)
  {
    var procs' := AddProc(vm, c).procs;
    forall q: nat, w: nat ensures (q, w) in Mappers(procs', f) <==> (q, w) in Mappers(vm.procs, f) {}
  }

  lemma AddProcKeeps(vm: Vm, c: nat)
    requires Inv(vm) && c !in vm.procs
    ensures Inv(AddProc(vm, c))
  {
    var vm' := AddProc(vm, c);
    forall f: nat ensures Mappers(vm'.procs, f) == Mappers(vm.procs, f) { AddProcMappers(vm, c, f); }
    EntriesUntouched(vm, vm'.procs);
    CountsUntouched(vm, vm'.procs);
  }

  // --- A new region of an address space ---

  ghost function AddRegion(vm: Vm, c: nat, r: Region): Vm
    requires c in vm.procs
  {
    vm.(procs := vm.procs[c := vm.procs[c].(regions := vm.procs[c].regions + [r])])
  }

  lemma AddRegionKeeps(vm: Vm, c: nat, r: Region)
    requires Inv(vm) && c in vm.procs && RegionsOk(vm.procs[c].regions + [r])
    ensures Inv(AddRegion(vm, c, r))
  {
    var vm' := AddRegion(vm, c, r);
    forall f: nat ensures Mappers(vm'.procs, f) == Mappers(vm.procs, f) { AddRegionMappers(vm, c, r, f); }
    AddRegionEntries(vm, c, r);
    EntriesUntouched(vm, vm'.procs);
    CountsUntouched(vm, vm'.procs);
  }

  lemma AddRegionEntries(vm: Vm, c: nat, r: Region)
    requires c in vm.procs && forall q, w {:trigger EntryOk(vm, q, w)} | Maps(vm.procs, q, w) :: EntryOk(vm, q, w)
    ensures forall q: nat, w: nat | Maps(AddRegion(vm, c, r).procs, q, w) :: SameEntry(vm.procs, AddRegion(vm, c, r).procs, q, w)
  {
    var procs' := AddRegion(vm, c, r).procs;
    forall q: nat, w: nat | Maps(procs', q, w) ensures SameEntry(vm.procs, procs', q, w) {
      assert Maps(vm.procs, q, w) && EntryOk(vm, q, w);
      FindAppend(vm.procs[c].regions, r, w);
    }
  }

  lemma AddRegionMappers(vm: Vm, c: nat, r: Region, f: nat)
    requires c in vm.procs
    ensures Mappers(AddRegion(vm, c, r).procs, f) == Mappers(vm.procs, f)
  {
    var procs' := AddRegion(vm, c, r).procs;
    forall q: nat, w: nat ensures (q, w) in Mappers(procs', f) <==> (q, w) in Mappers(vm.procs, f) {}
  }

  // --- An address space without entries goes ---

  ghost function DropProc(vm: Vm, p: nat): Vm
  {
    vm.(procs := vm.procs - {p})
  }

  lemma DropProcKeeps(vm: Vm, p: nat)
    requires Inv(vm) && forall v: nat :: !Maps(vm.procs, p, v)
    ensures Inv(DropProc(vm, p))
    ensures forall f: nat :: Mappers(DropProc(vm, p).procs, f) == Mappers(vm.procs, f)
  {
    var vm' := DropProc(vm, p);
    forall f: nat ensures Mappers(vm'.procs, f) == Mappers(vm.procs, f) { DropProcMappers(vm, p, f); }
    EntriesUntouched(vm, vm'.procs);
    CountsUntouched(vm, vm'.procs);
  }

  lemma DropProcMappers(vm: Vm, p: nat, f: nat)
    requires forall v: nat :: !Maps(vm.procs, p, v)
    ensures Mappers(DropProc(vm, p).procs, f) == Mappers(vm.procs, f)
  {
    var procs' := DropProc(vm, p).procs;
    forall q: nat, w: nat ensures (q, w) in Mappers(procs', f) <==> (q, w) in Mappers(vm.procs, f) {
      assert !Maps(vm.procs, p, w);
    }
  }

  /** Everyone but p sees what they saw; p is gone. */
  lemma ExitRefines(vm: Vm, vm': Vm, p: nat)
    requires p in vm.procs && vm'.procs.Keys == vm.procs.Keys - {p}
    requires forall q | q in vm'.procs :: vm'.procs[q].regions == vm.procs[q].regions
    requires forall q: nat, w: nat | q in vm'.procs :: PrivatePage(vm', q, w) == PrivatePage(vm, q, w)
    requires forall k: (nat, nat) :: SharedPage(vm', k) == SharedPage(vm, k)
    ensures Abs(vm') == EagerExit(Abs(vm), p)
  {
    forall q | q in vm'.procs ensures PrivatePages(vm', q) == PrivatePages(vm, q) {
      SamePages(vm, q, vm', q);
    }
    assert AllPrivate(vm') == AllPrivate(vm) - {p};
    assert AllRegions(vm'.procs) == AllRegions(vm.procs) - {p};
    assert SharedPages(vm') == SharedPages(vm);
  }

  // --- Fork ---

  /** Entry (q, w) names the same frame in both states, or is absent in both. */
  ghost predicate SameFrame(a: map<nat, Proc>, q: nat, b: map<nat, Proc>, p: nat, w: nat)
  {
    (Maps(a, q, w) <==> Maps(b, p, w)) && (Maps(a, q, w) ==> FrameOf(a, q, w) == FrameOf(b, p, w))
  }

  /** Between two moments of a fork into c: bytes stay, and no entry outside c's pages [lo, hi) changes its frame. */
  ghost predicate Forking(vm: Vm, vm': Vm, c: nat, lo: nat, hi: nat)
  {
    && vm'.data == vm.data && vm'.cache == vm.cache && vm'.pool == vm.pool
    && vm'.procs.Keys == vm.procs.Keys
    && (forall q | q in vm.procs :: vm'.procs[q].regions == vm.procs[q].regions)
    && (forall q: nat, w: nat | q in vm.procs && !(q == c && lo <= w < hi) :: SameFrame(vm'.procs, q, vm.procs, q, w))
  }

  /** The child's private entries are the parent's. */
  ghost predicate Mirrors(procs: map<nat, Proc>, p: nat, c: nat)
    requires p in procs && c in procs
  {
    && procs[c].regions == procs[p].regions
    && (forall w: nat | RegionOf(procs, p, w).Some? && !RegionOf(procs, p, w).value.kind.Shared? ::
          SameFrame(procs, c, procs, p, w))
  }

  /** Sharing every private frame shows the child exactly what duplicating every page would. */
  lemma ForkRefines(vm: Vm, vm': Vm, p: nat, c: nat)
    requires p in vm.procs && c !in vm.procs && vm'.procs.Keys == vm.procs.Keys + {c}
    requires vm'.data == vm.data && vm'.cache == vm.cache
    requires forall q | q in vm.procs :: vm'.procs[q].regions == vm.procs[q].regions
    requires forall q: nat, w: nat | q in vm.procs :: SameFrame(vm'.procs, q, vm.procs, q, w)
    requires Mirrors(vm'.procs, p, c)
    ensures Abs(vm') == EagerFork(Abs(vm), p, c)
  {
    forall q | q in vm.procs ensures PrivatePages(vm', q) == PrivatePages(vm, q) {
      ForkPages(vm, q, vm', q);
    }
    forall w: nat | RegionOf(vm.procs, p, w).Some? && !RegionOf(vm.procs, p, w).value.kind.Shared?
      ensures SameFrame(vm'.procs, c, vm.procs, p, w)
    {
      assert SameFrame(vm'.procs, c, vm'.procs, p, w) && SameFrame(vm'.procs, p, vm.procs, p, w);
    }
    ForkPages(vm, p, vm', c);
    ForkMaps(vm, vm', p, c);
  }

  lemma ForkMaps(vm: Vm, vm': Vm, p: nat, c: nat)
    requires p in vm.procs && c !in vm.procs && vm'.procs.Keys == vm.procs.Keys + {c}
    requires vm'.data == vm.data && vm'.cache == vm.cache && vm'.procs[c].regions == vm.procs[p].regions
    requires forall q | q in vm.procs :: vm'.procs[q].regions == vm.procs[q].regions
    requires forall q | q in vm.procs :: PrivatePages(vm', q) == PrivatePages(vm, q)
    requires PrivatePages(vm', c) == PrivatePages(vm, p)
    ensures Abs(vm') == EagerFork(Abs(vm), p, c)
  {
    assert AllPrivate(vm') == AllPrivate(vm)[c := PrivatePages(vm, p)];
    assert AllRegions(vm'.procs) == AllRegions(vm.procs)[c := vm.procs[p].regions];
    assert SharedPages(vm') == SharedPages(vm);
  }

  lemma ForkPages(vm: Vm, p: nat, vm': Vm, q: nat)
    requires p in vm.procs && q in vm'.procs && vm'.data == vm.data
    requires vm'.procs[q].regions == vm.procs[p].regions
    requires forall w: nat | RegionOf(vm.procs, p, w).Some? && !RegionOf(vm.procs, p, w).value.kind.Shared? ::
               SameFrame(vm'.procs, q, vm.procs, p, w)
    ensures PrivatePages(vm', q) == PrivatePages(vm, p)
  {
    forall v: nat ensures PrivatePage(vm', q, v) == PrivatePage(vm, p, v) {}
    SamePages(vm, p, vm', q);
  }
}
