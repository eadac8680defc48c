/**
 * Copy-on-write fork, the page-fault handler, and address-space teardown,
 * updating page tables, frames and counts in place, proved to behave like the
 * machine whose fork copies every page.
 */
module Cow {
  import opened Basics
  import opened CowState
  import opened CowSteps
  import opened CowOps
  import opened CowFork

  /** The fault needs a frame from the pool. */
  ghost predicate NeedsFrame(vm: Vm, p: nat, v: nat)
    requires p in vm.procs && RegionOf(vm.procs, p, v).Some?
  {
    var r := RegionOf(vm.procs, p, v).value;
    if r.kind.Shared? then (r.kind.store, v - r.start) !in vm.cache
    else if Maps(vm.procs, p, v) then
      FrameOf(vm.procs, p, v) in vm.refcnt && vm.refcnt[FrameOf(vm.procs, p, v)] != 1
    else true
  }

  /** Of the frames that come free, those the rest of the kernel can have had. */
  function Spare(data: map<nat, Page>, refcnt: map<nat, nat>, pool: set<nat>, late: set<nat>): set<nat>
  {
    set f | f in late && f > 0 && f in data && f !in refcnt && f !in pool
  }

  ghost function Arrive(vm: Vm, late: set<nat>): Vm
  {
    vm.(pool := vm.pool + Spare(vm.data, vm.refcnt, vm.pool, late))
  }

  /** Frames come free between the attempt to copy a page and the attempt to set one up. */
  ghost predicate InTime(vm: Vm, p: nat, v: nat, late: set<nat>)
    requires p in vm.procs && RegionOf(vm.procs, p, v).Some?
  {
    RegionOf(vm.procs, p, v).value.OnDemand() && Spare(vm.data, vm.refcnt, vm.pool, late) != {}
  }

  /**
   * The copy finds no frame and the attempt to set up a page, which was meant
   * for pages not there yet, finds one.
   */
  ghost predicate Loses(vm: Vm, p: nat, v: nat, late: set<nat>)
  {
    && Maps(vm.procs, p, v) && RegionOf(vm.procs, p, v).Some?
    && NeedsFrame(vm, p, v) && vm.pool == {} && InTime(vm, p, v, late)
  }

  /** The access that faulted is one the handler answers by killing the process. */
  ghost predicate Doomed(vm: Vm, p: nat, v: nat, write: bool, late: set<nat>)
    requires p in vm.procs
  {
    var r := RegionOf(vm.procs, p, v);
    || r.None?
    || (write && !r.value.urw)
    || (r.value.kind.Image? && !Maps(vm.procs, p, v))
    || (NeedsFrame(vm, p, v) && vm.pool == {} && !InTime(vm, p, v, late))
  }

  class Machine {
    var procs: map<nat, Proc>
    var refcnt: map<nat, nat>
    var data: map<nat, Page>
    var cache: map<(nat, nat), nat>
    var pool: set<nat>

    ghost function State(): Vm
      reads this
    {
      Vm(procs, refcnt, data, cache, pool)
    }

    ghost predicate Valid()
      reads this
    {
      Inv(State())
    }

    /**
     * The first process, as `proc_load` leaves it: each page of its image has
     * a frame of its own, and the other frames are free.
     */
    constructor (p: nat, regions: seq<Region>, image: map<nat, nat>, memory: map<nat, Page>, free: set<nat>)
      requires RegionsOk(regions) && ImageOk(regions, image) && MemoryOk(image, memory, free)
      ensures Valid() && State() == FirstState(p, regions, image, memory, free)
      ensures forall v | v in image :: EagerPage(Abs(State()), p, v) == Some(memory[image[v]])
    {
      procs := map[p := Proc(regions, map v | v in image :: Pte(image[v], true, Find(regions, v).value.urw))];
      refcnt := map f | f in image.Values :: 1;
      data, cache, pool := memory, map[], free;
      new;
      FirstInv(p, regions, image, memory, free);
      assert State() == FirstState(p, regions, image, memory, free);
      FirstSees(p, regions, image, memory, free);
    }

    /** One page of `vpmap_set_perm`. */
    method SetPermPage(p: nat, v: nat, w: bool)
      requires Valid() && PermAllowed(State(), p, v, w)
      modifies `procs
      ensures procs == if v in old(procs)[p].pt then SetWritable(old(State()), p, v, w).procs else old(procs)
    {
      if v in procs[p].pt {
        procs := procs[p := procs[p].(pt := procs[p].pt[v := procs[p].pt[v].(writable := w)])];
      }
    }

    /** `vpmap_set_perm` on private pages: entries that exist get the permission. */
    method SetPerm(p: nat, start: nat, n: nat, w: bool)
      requires Valid() && p in procs && (w ==> n == 1)
      requires forall v: nat | start <= v < start + n :: PermAllowed(State(), p, v, w)
      modifies `procs
      ensures Permitted(old(State()), State(), p, start, start + n, w)
    {
      PermittedStart(State(), p, start, w);
      for v := start to start + n
        invariant Permitted(old(State()), State(), p, start, v, w)
      {
        PermStillAllowed(old(State()), State(), p, v, start, v, w);
        ghost var vm := State();
        SetPermPage(p, v, w);
        PermittedStep(old(State()), vm, State(), p, start, v, w);
      }
    }

    /** One page of `vpmap_cow_copy`. */
    method SharePage(src: nat, dst: nat, v: nat) returns (ok: bool)
      requires Valid() && Sharable(State(), src, dst, v)
      modifies `procs, `refcnt
      ensures ok
      ensures State() == if Maps(old(procs), src, v) then ShareWith(old(State()), src, dst, v) else old(State())
    {
      AbsentPages(State(), src, v);
      AbsentPages(State(), dst, v);
      if v !in procs[src].pt || procs[src].pt[v].frame == 0 {
        return true;
      }
      if v in procs[dst].pt && procs[dst].pt[v].frame != 0 {
        return false;
      }
      if !procs[src].pt[v].present {
        return false;
      }
      var pte := procs[src].pt[v];
      refcnt := refcnt[pte.frame := refcnt[pte.frame] + 1];
      procs := procs[dst := procs[dst].(pt := procs[dst].pt[v := pte])];
      return true;
    }

    /** `vpmap_cow_copy`: the child's entries for n private pages name the parent's frames, read-only on both sides. */
    method CowCopy(src: nat, dst: nat, start: nat, n: nat) returns (ok: bool)
      requires Valid() && CopyReady(procs, src, dst, start, n)
      modifies `procs, `refcnt
      ensures ok && Copied(old(State()), State(), src, dst, start, n, start + n)
    {
      CopyPermitted(State(), src, dst, start, n);
      SetPerm(src, start, n, false);
      CopiedStart(old(State()), State(), src, dst, start, n);
      ok := ShareRange(old(State()), src, dst, start, n);
    }

    /** The copying loop of `vpmap_cow_copy`. */
    method ShareRange(ghost vm0: Vm, src: nat, dst: nat, start: nat, n: nat) returns (ok: bool)
      requires CopyReady(vm0.procs, src, dst, start, n) && Copied(vm0, State(), src, dst, start, n, start)
      modifies `procs, `refcnt
      ensures ok && Copied(vm0, State(), src, dst, start, n, start + n)
    {
      ok := true;
      for v := start to start + n
        invariant ok && Copied(vm0, State(), src, dst, start, n, v)
      {
        ok := ShareNext(vm0, src, dst, start, n, v);
        if !ok {
          return;
        }
      }
    }

    method ShareNext(ghost vm0: Vm, src: nat, dst: nat, ghost start: nat, ghost n: nat, v: nat) returns (ok: bool)
      requires CopyReady(vm0.procs, src, dst, start, n) && start <= v < start + n
      requires Copied(vm0, State(), src, dst, start, n, v)
      modifies `procs, `refcnt
      ensures ok && Copied(vm0, State(), src, dst, start, n, v + 1)
    {
      StillSharable(vm0, State(), src, dst, start, n, v);
      ghost var vm := State();
      ok := SharePage(src, dst, v);
      CopiedStep(vm0, vm, State(), src, dst, start, n, v);
    }

    /** `memregion_copy_internal` for region r, the next region of parent p. */
    method CopyRegion(ghost vm0: Vm, p: nat, c: nat, r: Region, ghost i: nat)
      requires ForkedTo(vm0, State(), p, c, i) && i < |vm0.procs[p].regions| && r == vm0.procs[p].regions[i]
      modifies `procs, `refcnt
      ensures ForkedTo(vm0, State(), p, c, i + 1)
    {
      ghost var vm1 := State();
      procs := procs[c := procs[c].(regions := procs[c].regions + [r])];
      ghost var vm2 := State();
      assert vm2 == AddRegion(vm1, c, r);
      RegionAdded(vm0, vm1, p, c, i);
      if !r.kind.Shared? {
        RegionReady(vm0, vm1, p, c, i);
        var ok := CowCopy(p, c, r.start, r.len);
        RegionCopied(vm0, vm1, State(), p, c, i);
      } else {
        SharedSkipped(vm0, vm1, p, c, i);
      }
    }

    /** Fork (`as_copy_as`): the child c shows its user exactly what a copy of every page would. */
    method Fork(p: nat, c: nat)
      requires Valid() && p in procs && c !in procs
      modifies `procs, `refcnt
      ensures Valid() && Abs(State()) == EagerFork(old(Abs(State())), p, c)
    {
      ghost var vm0 := State();
      procs := procs[c := Proc([], map[])];
      assert State() == AddProc(vm0, c);
      ForkStart(vm0, p, c);
      var regions := procs[p].regions;
      var i := 0;
      while i < |regions|
        invariant 0 <= i <= |regions| && regions == vm0.procs[p].regions
        invariant ForkedTo(vm0, State(), p, c, i)
      {
        CopyRegion(vm0, p, c, regions[i], i);
        i := i + 1;
      }
      ForkDone(vm0, State(), p, c);
    }

    /** `pmem_alloc` of one frame: any free frame, or nothing when none is left. */
    method AllocFrame() returns (r: Option<nat>)
      modifies `refcnt, `pool
      ensures r.None? <==> old(pool) == {}
      ensures r.None? ==> refcnt == old(refcnt) && pool == old(pool)
      ensures r.Some? ==> r.value in old(pool) && pool == old(pool) - {r.value} && refcnt == old(refcnt)[r.value := 1]
      ensures |pool| + 1 >= |old(pool)|
    {
      if pool == {} {
        return None;
      }
      var f :| f in pool;
      pool := pool - {f};
      refcnt := refcnt[f := 1];
      return Some(f);
    }

    /** `handleCOW`: a private writable copy of the page, made only if someone else refers to the frame. */
    method HandleCow(p: nat, v: nat) returns (ok: bool)
      requires Valid() && PrivateIn(procs, p, v) && RegionOf(procs, p, v).value.urw
      modifies `procs, `refcnt, `data, `pool
      ensures ok <==> Maps(old(procs), p, v) && !(NeedsFrame(old(State()), p, v) && old(pool) == {})
      ensures !ok ==> State() == old(State())
      ensures ok ==> Resolved(old(State()), State(), p, v) && procs[p].pt[v].writable
      ensures |pool| + 1 >= |old(pool)|
    {
      if v !in procs[p].pt || !procs[p].pt[v].present {
        return false;
      }
      ghost var vm := State();
      AbsentPages(vm, p, v);
      var f := procs[p].pt[v].frame;
      if refcnt[f] == 1 {
        procs := procs[p := procs[p].(pt := procs[p].pt[v := procs[p].pt[v].(writable := true)])];
        assert State() == SetWritable(vm, p, v, true);
        SetWritableKeeps(vm, p, v, true);
        return true;
      }
      ok := CopyFrame(p, v);
    }

    /** The copying half of `handleCOW`. */
    method CopyFrame(p: nat, v: nat) returns (ok: bool)
      requires Valid() && PrivateIn(procs, p, v) && RegionOf(procs, p, v).value.urw && Maps(procs, p, v)
      requires FrameOf(procs, p, v) in refcnt && refcnt[FrameOf(procs, p, v)] > 1
      modifies `procs, `refcnt, `data, `pool
      ensures ok <==> old(pool) != {}
      ensures !ok ==> State() == old(State())
      ensures ok ==> Resolved(old(State()), State(), p, v) && procs[p].pt[v].writable
      ensures |pool| + 1 >= |old(pool)|
    {
      ghost var vm := State();
      var g := AllocFrame();
      if g.None? {
        return false;
      }
      FinishCopy(p, v, g.value, vm);
      return true;
    }

    method FinishCopy(p: nat, v: nat, g: nat, ghost vm: Vm)
      requires Inv(vm) && PrivateIn(vm.procs, p, v) && RegionOf(vm.procs, p, v).value.urw && Maps(vm.procs, p, v) && g in vm.pool
      requires FrameOf(vm.procs, p, v) in vm.refcnt && vm.refcnt[FrameOf(vm.procs, p, v)] > 1
      requires vm.procs == procs && vm.data == data && vm.cache == cache
      requires pool == vm.pool - {g} && refcnt == vm.refcnt[g := 1] && g !in vm.refcnt
      modifies `procs, `refcnt, `data
      ensures Resolved(vm, State(), p, v) && procs[p].pt[v].writable
    {
      CopyResolves(vm, p, v, g);
      InstallCopy(p, v, g, vm);
    }

    /** Copies the page into the new frame, maps it, and drops one reference to the old frame. */
    method InstallCopy(p: nat, v: nat, g: nat, ghost vm: Vm)
      requires Maps(procs, p, v) && FrameOf(procs, p, v) in refcnt && refcnt[FrameOf(procs, p, v)] > 1
      requires FrameOf(procs, p, v) in data && g != FrameOf(procs, p, v)
      requires vm.procs == procs && vm.data == data && vm.cache == cache
      requires pool == vm.pool - {g} && refcnt == vm.refcnt[g := 1]
      modifies `procs, `refcnt, `data
      ensures State() == MapFresh(vm, p, v, g, vm.data[FrameOf(vm.procs, p, v)])
    {
      var f := procs[p].pt[v].frame;
      data := data[g := data[f]];
      procs := procs[p := procs[p].(pt := procs[p].pt[v := Pte(g, true, true)])];
      refcnt := refcnt[f := refcnt[f] - 1];
      assert refcnt == vm.refcnt[f := Less(vm.refcnt[f])][g := 1];
    }

    /** `setup_page`: a zeroed, writable page of a stack or heap, whatever the entry named before. */
    method SetupPage(p: nat, v: nat) returns (ok: bool)
      requires Valid() && PrivateIn(procs, p, v) && RegionOf(procs, p, v).value.OnDemand()
      modifies `procs, `refcnt, `data, `pool
      ensures ok <==> old(pool) != {}
      ensures !ok ==> State() == old(State())
      ensures ok ==> p in procs && Maps(procs, p, v) && FrameOf(procs, p, v) in old(pool)
      ensures ok ==> State() == ZeroOver(old(State()), p, v, FrameOf(procs, p, v))
      ensures ok && !Maps(old(procs), p, v) ==> Resolved(old(State()), State(), p, v) && procs[p].pt[v].writable
      ensures |pool| + 1 >= |old(pool)|
    {
      ghost var vm := State();
      var g := AllocFrame();
      if g.None? {
        return false;
      }
      data := data[g.value := ZeroPage()];
      procs := procs[p := procs[p].(pt := procs[p].pt[v := Pte(g.value, true, true)])];
      if !Maps(vm.procs, p, v) {
        SetupResolves(vm, p, v, g.value);
      }
      return true;
    }

    /** `pgcache_get_page`: the store's frame for page k, zero-filled on first touch. */
    method GetPage(k: (nat, nat)) returns (ok: bool)
      requires Valid()
      modifies `refcnt, `data, `cache, `pool
      ensures ok <==> k in old(cache) || old(pool) != {}
      ensures !ok || k in old(cache) ==> State() == old(State())
      ensures ok ==> Valid() && Abs(State()) == old(Abs(State())) && k in cache
      ensures |pool| + 1 >= |old(pool)|
    {
      if k !in cache {
        ghost var vm := State();
        var g := AllocFrame();
        if g.None? {
          return false;
        }
        data := data[g.value := ZeroPage()];
        cache := cache[k := g.value];
        assert State() == Fill(vm, k, g.value);
        FillKeeps(vm, k, g.value);
      }
      return true;
    }

    /** `handleSharedRegion`: the process joins the store's one frame for the page. */
    method HandleShared(p: nat, v: nat) returns (ok: bool)
      requires Valid() && p in procs && !Maps(procs, p, v)
      requires RegionOf(procs, p, v).Some? && RegionOf(procs, p, v).value.kind.Shared?
      modifies `procs, `refcnt, `data, `cache, `pool
      ensures ok <==> !(NeedsFrame(old(State()), p, v) && old(pool) == {})
      ensures !ok ==> State() == old(State())
      ensures ok ==> Resolved(old(State()), State(), p, v) && procs[p].pt[v].writable
      ensures ok ==> SharedKey(old(procs), p, v) in cache && FrameOf(procs, p, v) == cache[SharedKey(old(procs), p, v)]
      ensures SharedKey(old(procs), p, v) in old(cache) ==> cache == old(cache)
      ensures |pool| + 1 >= |old(pool)|
    {
      var r := Find(procs[p].regions, v).value;
      var k := (r.kind.store, v - r.start);
      assert k == SharedKey(procs, p, v);
      ok := JoinStore(p, v, k);
    }

    /** The store's page, and a mapping of it. */
    method JoinStore(p: nat, v: nat, k: (nat, nat)) returns (ok: bool)
      requires Valid() && p in procs && !Maps(procs, p, v)
      requires var r := RegionOf(procs, p, v); r.Some? && r.value.kind.Shared? && k == (r.value.kind.store, v - r.value.start)
      modifies `procs, `refcnt, `data, `cache, `pool
      ensures ok <==> k in old(cache) || old(pool) != {}
      ensures !ok ==> State() == old(State())
      ensures ok ==> Resolved(old(State()), State(), p, v) && k in cache && procs[p].pt[v] == Pte(cache[k], true, true)
      ensures k in old(cache) ==> cache == old(cache)
      ensures |pool| + 1 >= |old(pool)|
    {
      ok := GetPage(k);
      if ok {
        JoinCached(p, v, k);
      }
    }

    method JoinCached(p: nat, v: nat, k: (nat, nat))
      requires Valid() && p in procs && !Maps(procs, p, v) && k in cache
      requires var r := RegionOf(procs, p, v); r.Some? && r.value.kind.Shared? && k == (r.value.kind.store, v - r.value.start)
      modifies `procs, `refcnt
      ensures Resolved(old(State()), State(), p, v) && procs[p].pt[v] == Pte(cache[k], true, true)
    {
      CachedCounted(State(), k);
      MapCachedKeeps(State(), p, v, k);
      PutCached(p, v, k);
    }

    /** Maps the cached frame and counts the new reference. */
    method PutCached(p: nat, v: nat, k: (nat, nat))
      requires p in procs && k in cache && cache[k] in refcnt
      modifies `procs, `refcnt
      ensures State() == MapCached(old(State()), p, v, k)
    {
      procs := procs[p := procs[p].(pt := procs[p].pt[v := Pte(cache[k], true, true)])];
      refcnt := refcnt[cache[k] := refcnt[cache[k]] + 1];
    }

    /** `clear_pte` on page v. */
    method ClearPte(p: nat, v: nat)
      requires Valid() && p in procs && v in procs[p].pt
      modifies `procs, `refcnt, `pool
      ensures State() == Clear(old(State()), p, v)
    {
      AbsentPages(State(), p, v);
      var pte := procs[p].pt[v];
      if pte.present {
        if refcnt[pte.frame] == 1 {
          refcnt := refcnt - {pte.frame};
          pool := pool + {pte.frame};
        } else {
          refcnt := refcnt[pte.frame := refcnt[pte.frame] - 1];
        }
      }
      procs := procs[p := procs[p].(pt := procs[p].pt[v := Pte(0, false, false)])];
    }

    /** Address-space teardown on exit: every user entry is cleared once, then the address space goes. */
    method Exit(p: nat)
      requires Valid() && p in procs
      modifies `procs, `refcnt, `pool
      ensures Valid() && Abs(State()) == EagerExit(old(Abs(State())), p)
      ensures forall f | f in old(refcnt) :: f !in refcnt <==> OnlyMappedBy(old(State()), f, p)
      ensures old(pool) <= pool
    {
      ghost var vm0 := State();
      ClearedStart(vm0, p);
      var v := 0;
      while v < USER_PAGES
        invariant 0 <= v <= USER_PAGES
        invariant ClearedTo(vm0, State(), p, v)
      {
        ClearNext(vm0, p, v);
        v := v + 1;
      }
      ClearedAll(vm0, State(), p);
      ghost var vm := State();
      procs := procs - {p};
      assert State() == DropProc(vm, p);
      DropProcKeeps(vm, p);
      ExitDone(vm0, vm, p);
      forall f | f in old(refcnt) ensures f !in refcnt <==> OnlyMappedBy(vm0, f, p) {
        ExitFrees(vm0, vm, p, f);
      }
    }

    method ClearNext(ghost vm0: Vm, p: nat, v: nat)
      requires ClearedTo(vm0, State(), p, v)
      modifies `procs, `refcnt, `pool
      ensures ClearedTo(vm0, State(), p, v + 1)
    {
      ghost var vm := State();
      if v in procs[p].pt {
        ClearPte(p, v);
        ClearKeeps(vm, p, v);
        ClearedStep(vm0, vm, p, v);
      } else {
        ClearedSkip(vm0, vm, p, v);
      }
    }

    /** Between two attempts, frames that the rest of the kernel had come free. */
    method FramesArrive(late: set<nat>)
      requires Valid()
      modifies `pool
      ensures Valid() && State() == Arrive(old(State()), late) && Abs(State()) == old(Abs(State())) && old(pool) <= pool
    {
      ArriveKeeps(State(), late);
      pool := pool + Spare(data, refcnt, pool, late);
    }

    /**
     * `handle_page_fault` for a user access that the page table refused, with
     * the frames that other CPUs release between its two attempts. Either the
     * access can now proceed, or the process is gone. Nobody sees a difference,
     * unless the copy found no frame and the second attempt found one.
     */
    method HandlePageFault(p: nat, v: nat, write: bool, late: set<nat>) returns (alive: bool)
      requires Valid() && p in procs
      requires Maps(procs, p, v) ==> write && !procs[p].pt[v].writable
      modifies this
      ensures alive <==> !Doomed(old(State()), p, v, write, late)
      ensures alive ==> (Resolved(old(State()), State(), p, v) <==> !Loses(old(State()), p, v, late))
      ensures alive && Loses(old(State()), p, v, late) ==> LostPage(old(State()), State(), p, v)
      ensures alive ==> Maps(procs, p, v) && (write ==> procs[p].pt[v].writable)
      ensures !alive ==> Valid() && Abs(State()) == EagerExit(old(Abs(State())), p)
      ensures |pool| + 1 >= |old(pool)|
    {
      ghost var vm := State();
      FaultFacts(vm, p, v);
      var mr := Find(procs[p].regions, v);
      if mr.None? {
        EndProcess(p);
        return false;
      }
      if mr.value.kind.Shared? {
        var ok := HandleShared(p, v);
        if ok {
          return true;
        }
      }
      var present := v in procs[p].pt && procs[p].pt[v].present;
      if present && write && mr.value.urw {
        var ok := HandleCow(p, v);
        if ok {
          return true;
        }
      }
      alive := SetupOrExit(p, v, mr.value, late);
    }

    /** The second attempt of the handler. */
    method SetupOrExit(p: nat, v: nat, mr: Region, late: set<nat>) returns (alive: bool)
      requires Valid() && p in procs && RegionOf(procs, p, v) == Some(mr)
      requires Maps(procs, p, v) && mr.OnDemand() ==> pool == {} && NeedsFrame(State(), p, v)
      modifies this
      ensures alive <==> mr.OnDemand() && (old(pool) != {} || InTime(old(State()), p, v, late))
      ensures alive ==> (Resolved(old(State()), State(), p, v) <==> !Loses(old(State()), p, v, late))
      ensures alive && Loses(old(State()), p, v, late) ==> LostPage(old(State()), State(), p, v)
      ensures alive ==> Maps(procs, p, v) && procs[p].pt[v].writable
      ensures !alive ==> Valid() && Abs(State()) == EagerExit(old(Abs(State())), p)
      ensures |pool| + 1 >= |old(pool)|
    {
      ghost var vm := State();
      FramesArrive(late);
      SubsetSize(vm.pool, pool);
      if mr.OnDemand() {
        alive := SetupPage(p, v);
        if alive {
          if Maps(vm.procs, p, v) {
            SetupLoses(vm, p, v, FrameOf(procs, p, v), late);
          }
          return true;
        }
      }
      EndProcess(p);
      return false;
    }

    method EndProcess(p: nat)
      requires Valid() && p in procs
      modifies this
      ensures Valid() && Abs(State()) == EagerExit(old(Abs(State())), p) && |pool| >= |old(pool)|
    {
      Exit(p);
      SubsetSize(old(pool), pool);
    }

    /** A user load of one byte, with the fault it may take. */
    method Load(p: nat, v: nat, ofs: nat, late: set<nat>) returns (r: Option<byte>)
      requires Valid() && p in procs && ofs < PAGE_SIZE
      modifies this
      ensures Valid()
      ensures r.Some? ==> Abs(State()) == old(Abs(State()))
      ensures r.Some? ==> Sees(old(Abs(State())), p, v, ofs, r.value)
      ensures r.Some? && Untouched(old(State()), p, v) ==> r.value == 0
      ensures r.None? ==> Abs(State()) == EagerExit(old(Abs(State())), p)
      ensures r.None? <==> !Maps(old(procs), p, v) && Doomed(old(State()), p, v, false, late)
      ensures |pool| + 1 >= |old(pool)|
    {
      if v !in procs[p].pt || !procs[p].pt[v].present {
        var alive := HandlePageFault(p, v, false, late);
        if !alive {
          return None;
        }
      }
      SeesFrame(State(), p, v);
      r := Some(data[procs[p].pt[v].frame][ofs]);
      UntouchedByte(old(State()), p, v, ofs, r.value);
    }

    /** A user store of one byte, with the fault it may take, in which the page may be lost. */
    method StoreByte(p: nat, v: nat, ofs: nat, b: byte, late: set<nat>) returns (alive: bool)
      requires Valid() && p in procs && ofs < PAGE_SIZE
      modifies this
      ensures alive ==> (Valid() <==> !StoreLoses(old(State()), p, v, late))
      ensures alive ==> Legal(old(Abs(State())), p, v, true) && CanStore(procs, p, v)
      ensures alive && Valid() ==> Abs(State()) == EagerStore(old(Abs(State())), p, v, ofs, b)
      ensures alive && Valid() ==> Stored(old(Abs(State())), Abs(State()), p, v, ofs, b)
      ensures !alive ==> Valid() && Abs(State()) == EagerExit(old(Abs(State())), p)
      ensures !alive <==> !CanStore(old(procs), p, v) && Doomed(old(State()), p, v, true, late)
      ensures |pool| + 1 >= |old(pool)|
    {
      ghost var vm := State();
      alive := MakeWritable(p, v, late);
      if alive {
        ghost var mid := State();
        StoreFacts(vm, mid, p, v, ofs, b, late);
        var f := procs[p].pt[v].frame;
        data := data[f := SetByte(data[f], ofs, b)];
        assert State() == Store(mid, f, ofs, b);
        if !StoreLoses(vm, p, v, late) {
          StoreSeen(Abs(vm), p, v, ofs, b);
        }
      }
    }

    /** A byte that was stored is what the next load of that address gives. */
    method StoreThenLoad(p: nat, v: nat, ofs: nat, b: byte, late: set<nat>) returns (r: Option<byte>)
      requires Valid() && p in procs && ofs < PAGE_SIZE
      modifies this
      ensures r == Some(b) <==> !StoreLoses(old(State()), p, v, late) && (CanStore(old(procs), p, v) || !Doomed(old(State()), p, v, true, late))
    {
      var losing := IsLosing(p, v, late);
      LosingAlive(State(), p, v, late);
      var alive := StoreByte(p, v, ofs, b, late);
      if losing || !alive {
        return None;
      }
      r := Load(p, v, ofs, late);
    }

    /** The page table lets the store through, at once or after a fault. */
    method MakeWritable(p: nat, v: nat, late: set<nat>) returns (alive: bool)
      requires Valid() && p in procs
      modifies this
      ensures alive ==> Legal(old(Abs(State())), p, v, true) && Maps(procs, p, v) && procs[p].pt[v].writable
      ensures alive ==>
        if StoreLoses(old(State()), p, v, late) then LostPage(old(State()), State(), p, v) else Resolved(old(State()), State(), p, v)
      ensures !alive ==> Valid() && Abs(State()) == EagerExit(old(Abs(State())), p)
      ensures !alive <==> !CanStore(old(procs), p, v) && Doomed(old(State()), p, v, true, late)
      ensures |pool| + 1 >= |old(pool)|
    {
      ghost var vm := State();
      if v !in procs[p].pt || !procs[p].pt[v].present || !procs[p].pt[v].writable {
        alive := HandlePageFault(p, v, true, late);
        if alive {
          LegalFault(vm, p, v, late);
        }
      } else {
        SeesFrame(vm, p, v);
        WritableRegion(vm, p, v);
        alive := true;
      }
    }

    /** Whether the copying machine would allow the access. */
    method IsLegal(p: nat, v: nat, write: bool) returns (legal: bool)
      requires Valid() && p in procs
      ensures legal <==> Legal(Abs(State()), p, v, write)
      ensures legal ==> forall late :: Doomed(State(), p, v, write, late) ==> pool == {}
    {
      var r := Find(procs[p].regions, v);
      if r.None? {
        return false;
      }
      var there := r.value.kind.Shared? || r.value.OnDemand() || (v in procs[p].pt && procs[p].pt[v].present);
      legal := there && (write ==> r.value.urw);
    }

    /** Whether the store is about to lose its page. */
    method IsLosing(p: nat, v: nat, late: set<nat>) returns (losing: bool)
      requires Valid() && p in procs
      ensures losing <==> StoreLoses(State(), p, v, late)
    {
      if v !in procs[p].pt || !procs[p].pt[v].present || procs[p].pt[v].writable {
        return false;
      }
      FaultFacts(State(), p, v);
      assert EntryOk(State(), p, v);
      var r := Find(procs[p].regions, v).value;
      losing := r.OnDemand() && refcnt[procs[p].pt[v].frame] != 1 && pool == {} && Spare(data, refcnt, pool, late) != {};
    }

    method PerformLoad(p: nat, v: nat, ofs: nat, late: set<nat>) returns (out: Out)
      requires Valid() && p in procs && ofs < PAGE_SIZE
      modifies this
      ensures Valid() && EagerStep(old(Abs(State())), OpLoad(p, v, ofs), out, Abs(State())) && !out.Lost?
      ensures out.Starved? <==> OpStarves(old(State()), OpLoad(p, v, ofs), late)
      ensures |pool| + 1 >= |old(pool)|
    {
      var legal := IsLegal(p, v, false);
      var b := Load(p, v, ofs, late);
      out := if b.Some? then Loaded(b.value) else if legal then Starved else Killed;
    }

    method PerformStore(p: nat, v: nat, ofs: nat, b: byte, late: set<nat>) returns (out: Out)
      requires Valid() && p in procs && ofs < PAGE_SIZE
      modifies this
      ensures out.Lost? <==> StoreLoses(old(State()), p, v, late)
      ensures !out.Lost? ==> Valid() && EagerStep(old(Abs(State())), OpStore(p, v, ofs, b), out, Abs(State()))
      ensures out.Starved? <==> OpStarves(old(State()), OpStore(p, v, ofs, b), late)
      ensures out.Starved? || out.Lost? ==> old(pool) == {}
      ensures |pool| + 1 >= |old(pool)|
    {
      var legal := IsLegal(p, v, true);
      var losing := IsLosing(p, v, late);
      LosingAlive(State(), p, v, late);
      var alive := StoreByte(p, v, ofs, b, late);
      out := if losing then Lost else if alive then Done else if legal then Starved else Killed;
    }

    /**
     * One user or process event, with the frames that come free in its fault;
     * events that name no process, or a taken name, do nothing.
     */
    method Perform(op: Op, late: set<nat>) returns (out: Out)
      requires Valid()
      modifies this
      ensures out.Lost? <==> OpLoses(old(State()), op, late)
      ensures !out.Lost? ==> Valid() && EagerStep(old(Abs(State())), op, out, Abs(State()))
      ensures out.Starved? <==> OpStarves(old(State()), op, late)
      ensures out.Starved? || out.Lost? ==> old(pool) == {}
      ensures |pool| + 1 >= |old(pool)|
    {
      match op {
        case OpFork(p, c) =>
          if p in procs && c !in procs {
            Fork(p, c);
            return Done;
          }
        case OpExit(p) =>
          if p in procs {
            EndProcess(p);
            return Done;
          }
        case OpLoad(p, v, ofs) =>
          if p in procs && ofs < PAGE_SIZE {
            out := PerformLoad(p, v, ofs, late);
            return;
          }
        case OpStore(p, v, ofs, b) =>
          if p in procs && ofs < PAGE_SIZE {
            out := PerformStore(p, v, ofs, b, late);
            return;
          }
      }
      return Ignored;
    }

    /**
     * Over every run, the machine that shares frames answers as the copying
     * machine does, up to the first event in which a page is lost, and it
     * starves a process exactly in the events that say so. With a free frame
     * for each event it answers exactly as the copying machine.
     */
    method Run(ops: seq<Op>, late: seq<set<nat>>) returns (lost: bool, outs: seq<Out>, ghost states: seq<EagerVm>, ghost vms: seq<Vm>)
      requires Valid() && |late| == |ops|
      modifies this
      ensures RanTo(old(State()), ops, late, outs, states, vms) && (lost <==> |outs| < |ops|)
      ensures lost ==> OpLoses(vms[|outs|], ops[|outs|], late[|outs|])
      ensures lost ==> ops[|outs|].OpStore? && vms[|outs|].pool == {} && late[|outs|] != {}
      ensures !lost ==> Valid() && vms[|ops|] == State()
      ensures |old(pool)| >= |ops| ==> !lost && outs == EagerOuts(states[0], ops) && states[|ops|] == EagerEnd(states[0], ops)
    {
      lost, outs, states, vms := RunAll(ops, late);
      if |old(pool)| >= |ops| {
        EnoughFrames(vms, ops, late, outs, |outs|);
        assert ops[..|outs|] == ops;
        ExactRun(states, ops, outs);
      }
    }

    method RunAll(ops: seq<Op>, late: seq<set<nat>>) returns (lost: bool, outs: seq<Out>, ghost states: seq<EagerVm>, ghost vms: seq<Vm>)
      requires Valid() && |late| == |ops|
      modifies this
      ensures RanTo(old(State()), ops, late, outs, states, vms) && (lost <==> |outs| < |ops|)
      ensures lost ==> OpLoses(vms[|outs|], ops[|outs|], late[|outs|])
      ensures !lost ==> Valid() && vms[|ops|] == State()
    {
      if ops == [] {
        return false, [], [Abs(State())], [State()];
      }
      var n := |ops| - 1;
      lost, outs, states, vms := RunAll(ops[..n], late[..n]);
      LongerPlan(old(State()), ops, late, outs, states, vms);
      if !lost {
        lost, outs, states, vms := PerformNext(old(State()), ops, late, outs, states, vms);
      }
    }

    method PerformNext(ghost vm0: Vm, ops: seq<Op>, late: seq<set<nat>>, outs: seq<Out>, ghost states: seq<EagerVm>, ghost vms: seq<Vm>)
      returns (lost: bool, outs': seq<Out>, ghost states': seq<EagerVm>, ghost vms': seq<Vm>)
      requires |late| == |ops| && |outs| < |ops| && RanTo(vm0, ops, late, outs, states, vms)
      requires Valid() && vms[|outs|] == State()
      modifies this
      ensures RanTo(vm0, ops, late, outs', states', vms')
      ensures if lost then outs' == outs && OpLoses(vms'[|outs|], ops[|outs|], late[|outs|])
              else |outs'| == |outs| + 1 && Valid() && vms'[|outs'|] == State()
    {
      var i := |outs|;
      var out := Perform(ops[i], late[i]);
      lost, outs', states', vms' := out.Lost?, outs, states, vms;
      if !lost {
        RunGrows(states, ops, i, outs, out, Abs(State()));
        VmsGrow(vms, ops, late, outs, out, State());
        outs', states', vms' := outs + [out], states + [Abs(State())], vms + [State()];
      }
    }
  }

  datatype Op =
    | OpFork(p: nat, c: nat)
    | OpExit(p: nat)
    | OpLoad(p: nat, v: nat, ofs: nat)
    | OpStore(p: nat, v: nat, ofs: nat, b: byte)

  /** A process is killed for an illegal access, or starved for want of a frame; or its page is lost. */
  datatype Out = Done | Loaded(b: byte) | Killed | Starved | Ignored | Lost

  ghost predicate Alive(e: EagerVm, p: nat)
  {
    p in e.regions && p in e.priv && forall k: (nat, nat) :: k in e.shm
  }

  /** There is a page to see, and a store is to a region that may be written. */
  ghost predicate Legal(e: EagerVm, p: nat, v: nat, write: bool)
    requires Alive(e, p)
  {
    EagerPage(e, p, v).Some? && (write ==> Find(e.regions[p], v).value.urw)
  }

  /** What the copying machine does with one event, unless there is no memory for the sharing one. */
  ghost predicate EagerStep(e: EagerVm, op: Op, out: Out, e': EagerVm)
  {
    match op
    case OpFork(p, c) =>
      if Alive(e, p) && c !in e.regions then out.Done? && e' == EagerFork(e, p, c) else out.Ignored? && e' == e
    case OpExit(p) =>
      if Alive(e, p) then out.Done? && e' == EagerExit(e, p) else out.Ignored? && e' == e
    case OpLoad(p, v, ofs) =>
      if Alive(e, p) && ofs < PAGE_SIZE then
        if Legal(e, p, v, false) then (out.Loaded? && e' == e && Sees(e, p, v, ofs, out.b)) || (out.Starved? && e' == EagerExit(e, p))
        else out.Killed? && e' == EagerExit(e, p)
      else out.Ignored? && e' == e
    case OpStore(p, v, ofs, b) =>
      if Alive(e, p) && ofs < PAGE_SIZE then
        if Legal(e, p, v, true) then (out.Done? && e' == EagerStore(e, p, v, ofs, b)) || (out.Starved? && e' == EagerExit(e, p))
        else out.Killed? && e' == EagerExit(e, p)
      else out.Ignored? && e' == e
  }

  /** What the copying machine answers. */
  ghost function EagerOut(e: EagerVm, op: Op): Out
  {
    match op
    case OpFork(p, c) => if Alive(e, p) && c !in e.regions then Done else Ignored
    case OpExit(p) => if Alive(e, p) then Done else Ignored
    case OpLoad(p, v, ofs) =>
      if !(Alive(e, p) && ofs < PAGE_SIZE) then Ignored
      else if Legal(e, p, v, false) then Loaded(EagerPage(e, p, v).value[ofs]) else Killed
    case OpStore(p, v, ofs, b) =>
      if !(Alive(e, p) && ofs < PAGE_SIZE) then Ignored else if Legal(e, p, v, true) then Done else Killed
  }

  /** The copying machine after the event. */
  ghost function EagerNext(e: EagerVm, op: Op): EagerVm
  {
    match op
    case OpFork(p, c) => if Alive(e, p) && c !in e.regions then EagerFork(e, p, c) else e
    case OpExit(p) => if Alive(e, p) then EagerExit(e, p) else e
    case OpLoad(p, v, ofs) =>
      if Alive(e, p) && ofs < PAGE_SIZE && !Legal(e, p, v, false) then EagerExit(e, p) else e
    case OpStore(p, v, ofs, b) =>
      if !(Alive(e, p) && ofs < PAGE_SIZE) then e
      else if Legal(e, p, v, true) then EagerStore(e, p, v, ofs, b) else EagerExit(e, p)
  }

  ghost function EagerEnd(e: EagerVm, ops: seq<Op>): EagerVm
    decreases |ops|
  {
    if ops == [] then e else EagerNext(EagerEnd(e, ops[..|ops| - 1]), ops[|ops| - 1])
  }

  ghost function EagerOuts(e: EagerVm, ops: seq<Op>): seq<Out>
    decreases |ops|
  {
    if ops == [] then [] else
      var n := |ops| - 1; EagerOuts(e, ops[..n]) + [EagerOut(EagerEnd(e, ops[..n]), ops[n])]
  }

  lemma ExactStep(e: EagerVm, op: Op, out: Out, e': EagerVm)
    requires EagerStep(e, op, out, e') && !out.Starved?
    ensures out == EagerOut(e, op) && e' == EagerNext(e, op)
  {
  }

  /** A run in which nobody starves is the run of the copying machine. */
  lemma {:induction false} ExactRun(states: seq<EagerVm>, ops: seq<Op>, outs: seq<Out>)
    requires EagerRun(states, ops, outs) && forall i | 0 <= i < |outs| :: !outs[i].Starved?
    ensures outs == EagerOuts(states[0], ops) && states[|ops|] == EagerEnd(states[0], ops)
    decreases |ops|
  {
    if ops != [] {
      var n := |ops| - 1;
      RunShrinks(states, ops, outs);
      ExactRun(states[..n + 1], ops[..n], outs[..n]);
      assert StepAt(states, ops, outs, n);
      ExactStep(states[n], ops[n], outs[n], states[n + 1]);
      assert outs == outs[..n] + [outs[n]];
    }
  }

  lemma RunShrinks(states: seq<EagerVm>, ops: seq<Op>, outs: seq<Out>)
    requires EagerRun(states, ops, outs) && ops != []
    ensures var n := |ops| - 1; EagerRun(states[..n + 1], ops[..n], outs[..n])
  {
    var n := |ops| - 1;
    var s, o, u := states[..n + 1], ops[..n], outs[..n];
    forall k: nat | k < n ensures StepAt(s, o, u, k) {
      assert StepAt(states, ops, outs, k);
    }
  }

  // --- Frames over a run ---

  /** The states the sharing machine goes through while it answers the first events. */
  ghost predicate VmRun(vms: seq<Vm>, ops: seq<Op>, late: seq<set<nat>>, outs: seq<Out>)
  {
    && |outs| <= |ops| == |late| && |vms| == |outs| + 1
    && forall i: nat {:trigger VmAt(vms, ops, late, outs, i)} | i < |outs| :: VmAt(vms, ops, late, outs, i)
  }

  /** An event takes at most one frame; which ones starve a process, or lose a page, is known before the event. */
  ghost predicate VmAt(vms: seq<Vm>, ops: seq<Op>, late: seq<set<nat>>, outs: seq<Out>, i: nat)
    requires |outs| <= |ops| == |late| && |vms| == |outs| + 1 && i < |outs|
  {
    && |vms[i + 1].pool| + 1 >= |vms[i].pool|
    && (outs[i].Starved? <==> OpStarves(vms[i], ops[i], late[i]))
    && !OpLoses(vms[i], ops[i], late[i])
  }

  lemma VmsGrow(vms: seq<Vm>, ops: seq<Op>, late: seq<set<nat>>, outs: seq<Out>, out: Out, vm: Vm)
    requires VmRun(vms, ops, late, outs) && |outs| < |ops|
    requires var i := |outs|;
             |vm.pool| + 1 >= |vms[i].pool| && (out.Starved? <==> OpStarves(vms[i], ops[i], late[i])) && !OpLoses(vms[i], ops[i], late[i])
    ensures VmRun(vms + [vm], ops, late, outs + [out])
  {
    var all, past := vms + [vm], outs + [out];
    forall k: nat | k < |past| ensures VmAt(all, ops, late, past, k) {
      assert k < |outs| ==> VmAt(vms, ops, late, outs, k);
    }
  }

  lemma {:induction false} EnoughFrames(vms: seq<Vm>, ops: seq<Op>, late: seq<set<nat>>, outs: seq<Out>, n: nat)
    requires VmRun(vms, ops, late, outs) && n <= |outs|
    ensures |vms[n].pool| + n >= |vms[0].pool|
    ensures |vms[0].pool| >= n ==> forall i | 0 <= i < n :: !outs[i].Starved?
  {
    if n > 0 {
      EnoughFrames(vms, ops, late, outs, n - 1);
      assert VmAt(vms, ops, late, outs, n - 1);
    }
  }

  /** The first events were answered, from this state on. */
  ghost predicate RanTo(vm0: Vm, ops: seq<Op>, late: seq<set<nat>>, outs: seq<Out>, states: seq<EagerVm>, vms: seq<Vm>)
  {
    && VmRun(vms, ops, late, outs) && EagerRun(states, ops[..|outs|], outs) && vms[0] == vm0
    && forall i | 0 <= i < |vms| :: states[i] == Abs(vms[i])
  }

  /** A run over all events but the last is one over the first events. */
  lemma LongerPlan(vm0: Vm, ops: seq<Op>, late: seq<set<nat>>, outs: seq<Out>, states: seq<EagerVm>, vms: seq<Vm>)
    requires |ops| == |late| > 0 && RanTo(vm0, ops[..|ops| - 1], late[..|ops| - 1], outs, states, vms)
    ensures RanTo(vm0, ops, late, outs, states, vms)
  {
    var n := |ops| - 1;
    assert ops[..n][..|outs|] == ops[..|outs|];
    forall k: nat | k < |outs| ensures VmAt(vms, ops, late, outs, k) {
      assert VmAt(vms, ops[..n], late[..n], outs, k);
    }
  }

  /** The copying machine can go through these states with these outcomes. */
  ghost predicate EagerRun(states: seq<EagerVm>, ops: seq<Op>, outs: seq<Out>)
  {
    && |outs| == |ops| && |states| == |ops| + 1
    && forall i: nat {:trigger StepAt(states, ops, outs, i)} | i < |ops| :: StepAt(states, ops, outs, i)
  }

  ghost predicate StepAt(states: seq<EagerVm>, ops: seq<Op>, outs: seq<Out>, i: nat)
    requires |outs| == |ops| && |states| == |ops| + 1 && i < |ops|
  {
    EagerStep(states[i], ops[i], outs[i], states[i + 1])
  }

  lemma RunGrows(states: seq<EagerVm>, ops: seq<Op>, i: nat, outs: seq<Out>, out: Out, e: EagerVm)
    requires i < |ops| && EagerRun(states, ops[..i], outs) && EagerStep(states[i], ops[i], out, e)
    ensures EagerRun(states + [e], ops[..i + 1], outs + [out])
  {
    var all, some, past := states + [e], ops[..i + 1], outs + [out];
    forall k: nat | k < i + 1 ensures StepAt(all, some, past, k) {
      assert k < i ==> StepAt(states, ops[..i], outs, k);
    }
  }

  /** The byte is there, the other bytes of the page are as before, and whoever shares the page sees the same. */
  ghost predicate Stored(e: EagerVm, e': EagerVm, p: nat, v: nat, ofs: nat, b: byte)
    requires ofs < PAGE_SIZE
  {
    && Alive(e, p) && Alive(e', p) && Sees(e', p, v, ofs, b)
    && (forall i: nat, x: byte | i < PAGE_SIZE && i != ofs :: Sees(e', p, v, i, x) <==> Sees(e, p, v, i, x))
    && (forall q: nat, w: nat | Alive(e, q) && SamePage(e, p, v, q, w) :: Alive(e', q) && EagerPage(e', q, w) == EagerPage(e', p, v))
  }

  /** The two pages are one page of a shared store. */
  ghost predicate SamePage(e: EagerVm, p: nat, v: nat, q: nat, w: nat)
    requires p in e.regions && q in e.regions
  {
    var (r, s) := (Find(e.regions[p], v), Find(e.regions[q], w));
    && r.Some? && s.Some? && r.value.kind.Shared? && s.value.kind == r.value.kind
    && v - r.value.start == w - s.value.start
  }

  lemma StoreSeen(e: EagerVm, p: nat, v: nat, ofs: nat, b: byte)
    requires Alive(e, p) && ofs < PAGE_SIZE && EagerPage(e, p, v).Some?
    ensures Stored(e, EagerStore(e, p, v, ofs, b), p, v, ofs, b)
  {
  }

  /** In the copying machine, a child sees what its parent saw, and nobody else sees a difference. */
  lemma ForkSeen(e: EagerVm, p: nat, c: nat, q: nat, v: nat)
    requires Alive(e, p) && Alive(e, q) && c !in e.regions && c !in e.priv
    ensures var e' := EagerFork(e, p, c);
            && Alive(e', c) && EagerPage(e', c, v) == EagerPage(e, p, v) && Alive(e', q) && EagerPage(e', q, v) == EagerPage(e, q, v)
            && (forall x :: Alive(e', x) <==> Alive(e, x) || x == c)
  {
  }

  /** After an exit the process is gone, and nobody else sees a difference. */
  lemma ExitSeen(e: EagerVm, p: nat, q: nat, v: nat)
    requires Alive(e, q) && q != p
    ensures var e' := EagerExit(e, p);
            Alive(e', q) && EagerPage(e', q, v) == EagerPage(e, q, v) && forall x :: Alive(e', x) <==> Alive(e, x) && x != p
  {
  }

  /** A page of the stack, the heap or a shared store that nobody has touched yet. */
  ghost predicate Untouched(vm: Vm, p: nat, v: nat)
    requires p in vm.procs
  {
    var r := RegionOf(vm.procs, p, v);
    && r.Some?
    && if r.value.kind.Shared? then (r.value.kind.store, v - r.value.start) !in vm.cache else r.value.OnDemand() && !Maps(vm.procs, p, v)
  }

  /** It reads as zeros. */
  lemma UntouchedZero(vm: Vm, p: nat, v: nat)
    requires p in vm.procs && Untouched(vm, p, v)
    ensures Alive(Abs(vm), p) && EagerPage(Abs(vm), p, v).Some? && |EagerPage(Abs(vm), p, v).value| == 4096
    ensures forall i: nat | i < 4096 :: Sees(Abs(vm), p, v, i, 0)
  {
    if RegionOf(vm.procs, p, v).value.kind.Shared? {
      SeesShared(vm, p, v);
    } else {
      assert PrivatePage(vm, p, v).Some?;
    }
  }

  lemma UntouchedByte(vm: Vm, p: nat, v: nat, ofs: nat, b: byte)
    requires p in vm.procs && ofs < PAGE_SIZE && Alive(Abs(vm), p) && Sees(Abs(vm), p, v, ofs, b)
    ensures Untouched(vm, p, v) ==> b == 0
  {
    if Untouched(vm, p, v) {
      UntouchedZero(vm, p, v);
    }
  }

  /** In the copying machine, a store is invisible to every other process, except through the same page of a shared store. */
  lemma StoreIsolated(e: EagerVm, p: nat, v: nat, ofs: nat, b: byte, q: nat, w: nat)
    requires Alive(e, p) && Alive(e, q) && ofs < PAGE_SIZE && EagerPage(e, p, v).Some? && (q, w) != (p, v)
    requires var r, s := Find(e.regions[p], v).value, Find(e.regions[q], w);
             r.kind.Shared? && s.Some? && s.value.kind.Shared? ==>
               (r.kind.store, v - r.start) != (s.value.kind.store, w - s.value.start)
    ensures EagerPage(EagerStore(e, p, v, ofs, b), q, w) == EagerPage(e, q, w)
  {
  }

  /** The count of a private frame is the number of entries naming it, and a frame with several has no writable entry. */
  lemma CountsExact(vm: Vm, p: nat, v: nat)
    requires Inv(vm) && Maps(vm.procs, p, v) && PrivateIn(vm.procs, p, v)
    ensures var f := FrameOf(vm.procs, p, v);
            && f in vm.refcnt && vm.refcnt[f] == |Mappers(vm.procs, f)|
            && (vm.refcnt[f] > 1 ==> forall q, w | (q, w) in Mappers(vm.procs, f) :: !vm.procs[q].pt[w].writable)
  {
    var f := FrameOf(vm.procs, p, v);
    assert EntryOk(vm, p, v);
    forall q: nat, w: nat | (q, w) in Mappers(vm.procs, f) && vm.procs[q].pt[w].writable
      ensures Mappers(vm.procs, f) == {(q, w)}
    {
      assert Maps(vm.procs, q, w) && EntryOk(vm, q, w);
    }
  }

  // --- The first process ---

  /** Each loaded page lies in a private region and has a frame of its own. */
  ghost predicate ImageOk(regions: seq<Region>, image: map<nat, nat>)
  {
    && (forall v | v in image :: Find(regions, v).Some? && !Find(regions, v).value.kind.Shared?)
    && (forall v, w | v in image && w in image && v != w :: image[v] != image[w])
  }

  ghost predicate MemoryOk(image: map<nat, nat>, memory: map<nat, Page>, free: set<nat>)
  {
    && (forall v | v in image :: image[v] > 0 && image[v] in memory && image[v] !in free)
    && (forall f | f in free :: f > 0 && f in memory)
  }

  ghost function FirstState(p: nat, regions: seq<Region>, image: map<nat, nat>, memory: map<nat, Page>, free: set<nat>): Vm
    requires ImageOk(regions, image)
  {
    Vm(map[p := Proc(regions, map v | v in image :: Pte(image[v], true, Find(regions, v).value.urw))],
       map f | f in image.Values :: 1, memory, map[], free)
  }

  lemma FirstMappers(p: nat, regions: seq<Region>, image: map<nat, nat>, memory: map<nat, Page>, free: set<nat>, v: nat)
    requires ImageOk(regions, image) && v in image
    ensures Mappers(FirstState(p, regions, image, memory, free).procs, image[v]) == {(p, v)}
  {
  }

  lemma FirstInv(p: nat, regions: seq<Region>, image: map<nat, nat>, memory: map<nat, Page>, free: set<nat>)
    requires RegionsOk(regions) && ImageOk(regions, image) && MemoryOk(image, memory, free)
    ensures Inv(FirstState(p, regions, image, memory, free))
  {
    var vm := FirstState(p, regions, image, memory, free);
    forall q, w | Maps(vm.procs, q, w) ensures EntryOk(vm, q, w) {
      FirstMappers(p, regions, image, memory, free, w);
    }
    forall f | f in vm.refcnt ensures vm.refcnt[f] == |Mappers(vm.procs, f)| + CacheRef(vm.cache, f) {
      var v :| v in image && image[v] == f;
      FirstMappers(p, regions, image, memory, free, v);
    }
  }

  lemma FirstSees(p: nat, regions: seq<Region>, image: map<nat, nat>, memory: map<nat, Page>, free: set<nat>)
    requires RegionsOk(regions) && ImageOk(regions, image) && MemoryOk(image, memory, free)
    ensures p in Abs(FirstState(p, regions, image, memory, free)).regions
    ensures forall v | v in image :: EagerPage(Abs(FirstState(p, regions, image, memory, free)), p, v) == Some(memory[image[v]])
  {
    var vm := FirstState(p, regions, image, memory, free);
    FirstInv(p, regions, image, memory, free);
    forall v | v in image ensures EagerPage(Abs(vm), p, v) == Some(memory[image[v]]) {
      SeesFrame(vm, p, v);
    }
  }

  // --- The page that is lost ---

  /** `setup_page` over any entry: nobody drops the reference of the frame that was there. */
  ghost function ZeroOver(vm: Vm, p: nat, v: nat, g: nat): Vm
    requires p in vm.procs
  {
    Vm(WithPte(vm.procs, p, v, Pte(g, true, true)), vm.refcnt[g := 1], vm.data[g := ZeroPage()], vm.cache, vm.pool - {g})
  }

  /** The page of p at v reads as zeros, and the frame it had has one reference too many. */
  ghost predicate LostPage(vm0: Vm, vm: Vm, p: nat, v: nat)
  {
    && Maps(vm.procs, p, v) && FrameOf(vm.procs, p, v) in vm.data && PrivatePage(vm, p, v) == Some(ZeroPage())
    && Leaked(vm0, vm, p, v)
  }

  ghost predicate Leaked(vm0: Vm, vm: Vm, p: nat, v: nat)
  {
    && Maps(vm0.procs, p, v)
    && var f := FrameOf(vm0.procs, p, v);
       f in vm.refcnt && vm.refcnt[f] == |Mappers(vm.procs, f)| + CacheRef(vm.cache, f) + 1
  }

  /** The store faults and its page is lost. */
  ghost predicate StoreLoses(vm: Vm, p: nat, v: nat, late: set<nat>)
  {
    Loses(vm, p, v, late) && !vm.procs[p].pt[v].writable
  }

  ghost predicate OpLoses(vm: Vm, op: Op, late: set<nat>)
  {
    op.OpStore? && op.ofs < PAGE_SIZE && StoreLoses(vm, op.p, op.v, late)
  }

  /** The event is an access that is allowed, and the handler of its fault finds no frame in either attempt. */
  ghost predicate OpStarves(vm: Vm, op: Op, late: set<nat>)
  {
    match op
    case OpLoad(p, v, ofs) => ofs < PAGE_SIZE && !Maps(vm.procs, p, v) && Starves(vm, p, v, false, late)
    case OpStore(p, v, ofs, b) => ofs < PAGE_SIZE && !CanStore(vm.procs, p, v) && Starves(vm, p, v, true, late)
    case _ => false
  }

  ghost predicate Starves(vm: Vm, p: nat, v: nat, write: bool, late: set<nat>)
  {
    && p in vm.procs && Legal(Abs(vm), p, v, write)
    && NeedsFrame(vm, p, v) && vm.pool == {} && !InTime(vm, p, v, late)
  }

  ghost predicate CanStore(procs: map<nat, Proc>, p: nat, v: nat)
  {
    Maps(procs, p, v) && procs[p].pt[v].writable
  }

  lemma ArriveKeeps(vm: Vm, late: set<nat>)
    requires Inv(vm)
    ensures Inv(Arrive(vm, late)) && Abs(Arrive(vm, late)) == Abs(vm)
  {
    var vm' := Arrive(vm, late);
    forall p, v | Maps(vm'.procs, p, v) ensures EntryOk(vm', p, v) {
      assert EntryOk(vm, p, v);
    }
    PoolUnseen(vm, vm');
  }

  /** Nobody sees the pool. */
  lemma PoolUnseen(vm: Vm, vm': Vm)
    requires vm'.procs == vm.procs && vm'.data == vm.data && vm'.cache == vm.cache
    ensures Abs(vm') == Abs(vm)
  {
    forall p | p in vm.procs ensures PrivatePages(vm', p) == PrivatePages(vm, p) {
      forall v: nat ensures PrivatePage(vm', p, v) == PrivatePage(vm, p, v) {
      }
    }
    assert AllPrivate(vm') == AllPrivate(vm);
    assert SharedPages(vm') == SharedPages(vm);
  }

  lemma SetupResolves(vm: Vm, p: nat, v: nat, g: nat)
    requires Inv(vm) && PrivateIn(vm.procs, p, v) && RegionOf(vm.procs, p, v).value.OnDemand() && g in vm.pool
    requires !Maps(vm.procs, p, v)
    ensures Resolved(vm, ZeroOver(vm, p, v, g), p, v)
  {
    assert RegionOf(vm.procs, p, v).value in vm.procs[p].regions;
    assert ZeroOver(vm, p, v, g) == MapFresh(vm, p, v, g, ZeroPage());
    MapFreshKeeps(vm, p, v, g, ZeroPage());
  }

  /** A page set up over a shared one is lost. */
  lemma ZeroOverLoses(vm: Vm, p: nat, v: nat, g: nat)
    requires Inv(vm) && PrivateIn(vm.procs, p, v) && Maps(vm.procs, p, v) && g in vm.pool
    ensures LostPage(vm, ZeroOver(vm, p, v, g), p, v)
  {
    var vm', f := ZeroOver(vm, p, v, g), FrameOf(vm.procs, p, v);
    assert EntryOk(vm, p, v);
    forall q: nat, w: nat ensures (q, w) in Mappers(vm'.procs, f) <==> (q, w) in Mappers(vm.procs, f) - {(p, v)} {
      MapsAfter(vm.procs, p, v, Pte(g, true, true), q, w);
    }
    assert Mappers(vm'.procs, f) == Mappers(vm.procs, f) - {(p, v)};
    MapsAfter(vm.procs, p, v, Pte(g, true, true), p, v);
  }

  lemma LeakedBad(vm0: Vm, vm: Vm, p: nat, v: nat)
    requires Leaked(vm0, vm, p, v)
    ensures !Inv(vm)
  {
  }

  lemma SetupLoses(vm: Vm, p: nat, v: nat, g: nat, late: set<nat>)
    requires Inv(vm) && PrivateIn(vm.procs, p, v) && Maps(vm.procs, p, v) && g in Arrive(vm, late).pool
    ensures LostPage(vm, ZeroOver(Arrive(vm, late), p, v, g), p, v) && !Inv(ZeroOver(Arrive(vm, late), p, v, g))
  {
    ArriveKeeps(vm, late);
    ZeroOverLoses(Arrive(vm, late), p, v, g);
    LeakedBad(vm, ZeroOver(Arrive(vm, late), p, v, g), p, v);
  }

  /** A heap page that two processes share after a fork, with no frame left. */
  ghost function ForkedHeap(): Vm
  {
    var proc := Proc([Region(0, 1, true, Heap)], map[0 := Pte(1, true, false)]);
    Vm(map[0 := proc, 1 := proc], map[1 := 2], map[1 := SetByte(ZeroPage(), 0, 7), 2 := ZeroPage()], map[], {})
  }

  lemma ForkedHeapInv()
    ensures Inv(ForkedHeap())
  {
    var vm := ForkedHeap();
    assert Mappers(vm.procs, 1) == {(0, 0), (1, 0)};
    assert vm.procs[0].regions[0].Contains(0) && vm.procs[1].regions[0].Contains(0);
    forall p, v | Maps(vm.procs, p, v) ensures EntryOk(vm, p, v) {
      assert Find(vm.procs[p].regions, v) == Some(Region(0, 1, true, Heap));
    }
  }

  /** The page is lost if a frame comes free at the wrong moment: the process reads 0 where it had stored 7. */
  lemma LostPageExample()
    ensures Inv(ForkedHeap()) && StoreLoses(ForkedHeap(), 0, 0, {2}) && 0 in Abs(ForkedHeap()).regions
    ensures var vm := ZeroOver(Arrive(ForkedHeap(), {2}), 0, 0, 2);
            && !Inv(vm) && Sees(Abs(ForkedHeap()), 0, 0, 0, 7) && PrivatePage(vm, 0, 0) == Some(ZeroPage())
  {
    var vm := ForkedHeap();
    ForkedHeapInv();
    assert Find(vm.procs[0].regions, 0) == Some(Region(0, 1, true, Heap));
    ForkedHeapSpare();
    SeesFrame(vm, 0, 0);
    SetupLoses(vm, 0, 0, 2, {2});
  }

  lemma ForkedHeapSpare()
    ensures var vm := ForkedHeap(); 2 in Spare(vm.data, vm.refcnt, vm.pool, {2})
  {
    var vm, f: nat, late: set<nat> := ForkedHeap(), 2, {2};
    assert f in late && f in vm.data && f !in vm.refcnt && f !in vm.pool;
    assert f in Spare(vm.data, vm.refcnt, vm.pool, late);
  }

  lemma LosingAlive(vm: Vm, p: nat, v: nat, late: set<nat>)
    requires Inv(vm) && p in vm.procs
    ensures StoreLoses(vm, p, v, late) ==> !Doomed(vm, p, v, true, late)
  {
    FaultFacts(vm, p, v);
  }

  lemma LegalFault(vm: Vm, p: nat, v: nat, late: set<nat>)
    requires Inv(vm) && p in vm.procs && !Doomed(vm, p, v, true, late)
    ensures Legal(Abs(vm), p, v, true)
  {
    var r := RegionOf(vm.procs, p, v).value;
    if r.kind.Shared? {
      SeesShared(vm, p, v);
    } else {
      assert PrivatePage(vm, p, v).Some?;
      assert v in PrivatePages(vm, p);
    }
  }

  /** A store after its fault: faithful, unless the page was lost. */
  lemma StoreFacts(vm0: Vm, vm: Vm, p: nat, v: nat, ofs: nat, b: byte, late: set<nat>)
    requires ofs < PAGE_SIZE && Maps(vm.procs, p, v) && vm.procs[p].pt[v].writable
    requires if StoreLoses(vm0, p, v, late) then LostPage(vm0, vm, p, v) else Resolved(vm0, vm, p, v)
    ensures FrameOf(vm.procs, p, v) in vm.data
    ensures Inv(Store(vm, FrameOf(vm.procs, p, v), ofs, b)) <==> !StoreLoses(vm0, p, v, late)
    ensures !StoreLoses(vm0, p, v, late) ==> p in Abs(vm0).regions && EagerPage(Abs(vm0), p, v).Some?
    ensures !StoreLoses(vm0, p, v, late) ==>
      Abs(Store(vm, FrameOf(vm.procs, p, v), ofs, b)) == EagerStore(Abs(vm0), p, v, ofs, b)
  {
    if StoreLoses(vm0, p, v, late) {
      LeakedBad(vm0, Store(vm, FrameOf(vm.procs, p, v), ofs, b), p, v);
    } else {
      SeesFrame(vm, p, v);
      StoreInv(vm, FrameOf(vm.procs, p, v), ofs, b);
      StoreRefines(vm, p, v, ofs, b);
    }
  }

  /** The fault is resolved: page v of p is mapped and nobody sees a difference. */
  ghost predicate Resolved(vm0: Vm, vm: Vm, p: nat, v: nat)
  {
    Inv(vm) && Abs(vm) == Abs(vm0) && Maps(vm.procs, p, v)
  }

  /** Byte `ofs` of the page p sees at v is b. */
  ghost predicate Sees(e: EagerVm, p: nat, v: nat, ofs: nat, b: byte)
    requires p in e.regions && p in e.priv && (forall k: (nat, nat) :: k in e.shm) && ofs < PAGE_SIZE
  {
    EagerPage(e, p, v).Some? && EagerPage(e, p, v).value[ofs] == b
  }

  /** Every reference to frame f is an entry of process p. */
  ghost predicate OnlyMappedBy(vm: Vm, f: nat, p: nat)
  {
    f !in vm.cache.Values && forall q, w | (q, w) in Mappers(vm.procs, f) :: q == p
  }

  /** The page of a store that page v of process p stands for. */
  ghost function SharedKey(procs: map<nat, Proc>, p: nat, v: nat): (nat, nat)
    requires p in procs && RegionOf(procs, p, v).Some? && RegionOf(procs, p, v).value.kind.Shared?
  {
    (RegionOf(procs, p, v).value.kind.store, v - RegionOf(procs, p, v).value.start)
  }

  lemma CachedCounted(vm: Vm, k: (nat, nat))
    requires Inv(vm) && k in vm.cache
    ensures vm.cache[k] in vm.refcnt
  {
  }

  lemma WritableRegion(vm: Vm, p: nat, v: nat)
    requires Inv(vm) && Maps(vm.procs, p, v) && vm.procs[p].pt[v].writable
    ensures RegionOf(vm.procs, p, v).Some? && RegionOf(vm.procs, p, v).value.urw
  {
    assert EntryOk(vm, p, v);
  }

  lemma CowPage(vm: Vm, p: nat, v: nat)
    requires Inv(vm) && PrivateIn(vm.procs, p, v) && Maps(vm.procs, p, v)
    ensures FrameOf(vm.procs, p, v) in vm.data
    ensures PrivatePage(vm, p, v) == Some(vm.data[FrameOf(vm.procs, p, v)])
  {
    assert EntryOk(vm, p, v);
  }

  lemma CopyResolves(vm: Vm, p: nat, v: nat, g: nat)
    requires Inv(vm) && PrivateIn(vm.procs, p, v) && RegionOf(vm.procs, p, v).value.urw && Maps(vm.procs, p, v) && g in vm.pool
    requires FrameOf(vm.procs, p, v) in vm.refcnt && vm.refcnt[FrameOf(vm.procs, p, v)] > 1
    ensures FrameOf(vm.procs, p, v) in vm.data && g != FrameOf(vm.procs, p, v)
    ensures Resolved(vm, MapFresh(vm, p, v, g, vm.data[FrameOf(vm.procs, p, v)]), p, v)
  {
    CowPage(vm, p, v);
    MapFreshKeeps(vm, p, v, g, vm.data[FrameOf(vm.procs, p, v)]);
  }

  lemma FaultFacts(vm: Vm, p: nat, v: nat)
    requires Inv(vm) && p in vm.procs
    ensures var r := RegionOf(vm.procs, p, v);
            && (r.Some? && !r.value.kind.Image? ==> r.value.urw)
            && (r.Some? && r.value.kind.Shared? && Maps(vm.procs, p, v) ==> vm.procs[p].pt[v].writable)
            && (Maps(vm.procs, p, v) ==> FrameOf(vm.procs, p, v) in vm.refcnt)
  {
    var r := RegionOf(vm.procs, p, v);
    if r.Some? {
      assert r.value in vm.procs[p].regions;
    }
    if Maps(vm.procs, p, v) {
      assert EntryOk(vm, p, v);
    }
  }

  lemma SeesFrame(vm: Vm, p: nat, v: nat)
    requires Inv(vm) && Maps(vm.procs, p, v)
    ensures FrameOf(vm.procs, p, v) in vm.data && RegionOf(vm.procs, p, v).Some?
    ensures EagerPage(Abs(vm), p, v) == Some(vm.data[FrameOf(vm.procs, p, v)])
  {
    assert EntryOk(vm, p, v);
    SeesEntry(vm, p, v);
  }

  lemma SeesEntry(vm: Vm, p: nat, v: nat)
    requires Maps(vm.procs, p, v) && EntryOk(vm, p, v) && FrameOf(vm.procs, p, v) in vm.data
    ensures EagerPage(Abs(vm), p, v) == Some(vm.data[FrameOf(vm.procs, p, v)])
  {
    if RegionOf(vm.procs, p, v).value.kind.Shared? {
      SeesShared(vm, p, v);
    } else {
      SeesPrivate(vm, p, v);
    }
  }

  lemma SeesPrivate(vm: Vm, p: nat, v: nat)
    requires PrivateIn(vm.procs, p, v) && Maps(vm.procs, p, v) && FrameOf(vm.procs, p, v) in vm.data
    ensures EagerPage(Abs(vm), p, v) == Some(vm.data[FrameOf(vm.procs, p, v)])
  {
    assert PrivatePage(vm, p, v).Some?;
    assert v in PrivatePages(vm, p);
  }

  lemma SeesShared(vm: Vm, p: nat, v: nat)
    requires p in vm.procs && RegionOf(vm.procs, p, v).Some? && RegionOf(vm.procs, p, v).value.kind.Shared?
    ensures EagerPage(Abs(vm), p, v) == Some(SharedPage(vm, SharedKey(vm.procs, p, v)))
  {
    assert Abs(vm).shm[SharedKey(vm.procs, p, v)] == SharedPage(vm, SharedKey(vm.procs, p, v));
  }

  /** Teardown of p has cleared the pages below v and touched nothing else. */
  ghost predicate ClearedTo(vm0: Vm, vm: Vm, p: nat, v: nat)
  {
    Inv(vm) && p in vm0.procs && ClearedFrames(vm0, vm, p, v)
  }

  ghost predicate ClearedFrames(vm0: Vm, vm: Vm, p: nat, v: nat)
  {
    && vm.procs.Keys == vm0.procs.Keys
    && vm.data == vm0.data && vm.cache == vm0.cache && vm0.pool <= vm.pool
    && (forall q | q in vm0.procs :: vm.procs[q].regions == vm0.procs[q].regions)
    && (forall q: nat, w: nat | q in vm0.procs && !(q == p && w < v) :: SameFrame(vm.procs, q, vm0.procs, q, w))
    && (forall w: nat | w < v :: !Maps(vm.procs, p, w))
  }

  lemma ClearedStart(vm: Vm, p: nat)
    requires Inv(vm) && p in vm.procs
    ensures ClearedTo(vm, vm, p, 0)
  {
  }

  lemma ClearedStep(vm0: Vm, vm: Vm, p: nat, v: nat)
    requires p in vm.procs && ClearedFrames(vm0, vm, p, v)
    ensures ClearedFrames(vm0, Clear(vm, p, v), p, v + 1)
  {
    var vm' := Clear(vm, p, v);
    forall q: nat, w: nat | q in vm0.procs && !(q == p && w < v + 1) ensures SameFrame(vm'.procs, q, vm0.procs, q, w) {
      assert SameFrame(vm.procs, q, vm0.procs, q, w);
      MapsAfter(vm.procs, p, v, Pte(0, false, false), q, w);
    }
    ClearedBelow(vm0, vm, p, v);
  }

  lemma ClearedBelow(vm0: Vm, vm: Vm, p: nat, v: nat)
    requires p in vm.procs && ClearedFrames(vm0, vm, p, v)
    ensures forall w: nat | w < v + 1 :: !Maps(Clear(vm, p, v).procs, p, w)
  {
    forall w: nat | w < v + 1 ensures !Maps(Clear(vm, p, v).procs, p, w) {
      MapsAfter(vm.procs, p, v, Pte(0, false, false), p, w);
    }
  }

  lemma ClearedSkip(vm0: Vm, vm: Vm, p: nat, v: nat)
    requires p in vm.procs && ClearedFrames(vm0, vm, p, v) && v !in vm.procs[p].pt
    ensures ClearedFrames(vm0, vm, p, v + 1)
  {
  }

  lemma ClearedAll(vm0: Vm, vm: Vm, p: nat)
    requires ClearedTo(vm0, vm, p, USER_PAGES)
    ensures forall v: nat :: !Maps(vm.procs, p, v)
  {
    forall v: nat ensures !Maps(vm.procs, p, v) {
      if Maps(vm.procs, p, v) {
        UserPage(vm, p, v);
      }
    }
  }

  lemma UserPage(vm: Vm, p: nat, v: nat)
    requires Inv(vm) && Maps(vm.procs, p, v)
    ensures v < USER_PAGES
  {
    assert EntryOk(vm, p, v);
    assert RegionOf(vm.procs, p, v).value in vm.procs[p].regions;
  }

  lemma ExitDone(vm0: Vm, vm: Vm, p: nat)
    requires p in vm0.procs && ClearedFrames(vm0, vm, p, USER_PAGES)
    ensures Abs(DropProc(vm, p)) == EagerExit(Abs(vm0), p)
  {
    var vm' := DropProc(vm, p);
    forall q: nat, w: nat | q in vm'.procs ensures PrivatePage(vm', q, w) == PrivatePage(vm0, q, w) {
      assert SameFrame(vm.procs, q, vm0.procs, q, w);
    }
    ExitRefines(vm0, vm', p);
  }

  lemma ExitFrees(vm0: Vm, vm: Vm, p: nat, f: nat)
    requires Inv(vm) && p in vm0.procs && ClearedFrames(vm0, vm, p, USER_PAGES) && forall v: nat :: !Maps(vm.procs, p, v)
    ensures f !in vm.refcnt <==> OnlyMappedBy(vm0, f, p)
  {
    ExitMappers(vm0, vm, p, f);
    if f !in vm.refcnt {
      NoMappers(vm, f);
    } else if f !in vm0.cache.Values {
      assert |Mappers(vm.procs, f)| > 0;
      var x :| x in Mappers(vm.procs, f);
      assert (x.0, x.1) in Mappers(vm0.procs, f) && x.0 != p;
    }
  }

  lemma ExitMappers(vm0: Vm, vm: Vm, p: nat, f: nat)
    requires p in vm0.procs && ClearedFrames(vm0, vm, p, USER_PAGES) && forall v: nat :: !Maps(vm.procs, p, v)
    ensures forall q: nat, w: nat :: (q, w) in Mappers(vm.procs, f) <==> (q, w) in Mappers(vm0.procs, f) && q != p
  {
    forall q: nat, w: nat ensures (q, w) in Mappers(vm.procs, f) <==> (q, w) in Mappers(vm0.procs, f) && q != p {
      assert (q, w) in Mappers(vm.procs, f) <==> Maps(vm.procs, q, w) && FrameOf(vm.procs, q, w) == f;
      assert (q, w) in Mappers(vm0.procs, f) <==> Maps(vm0.procs, q, w) && FrameOf(vm0.procs, q, w) == f;
      if q in vm0.procs && q != p {
        assert SameFrame(vm.procs, q, vm0.procs, q, w);
      }
    }
  }

  ghost predicate CopyReady(procs: map<nat, Proc>, src: nat, dst: nat, start: nat, n: nat)
  {
    && src in procs && dst in procs && src != dst
    && (forall v: nat | start <= v < start + n :: PageReady(procs, src, dst, v))
  }

  ghost predicate PageReady(procs: map<nat, Proc>, src: nat, dst: nat, v: nat)
    requires src in procs && dst in procs
  {
    PrivateIn(procs, src, v) && RegionOf(procs, dst, v) == RegionOf(procs, src, v) && !Maps(procs, dst, v)
  }

  lemma CopyPermitted(vm: Vm, src: nat, dst: nat, start: nat, n: nat)
    requires CopyReady(vm.procs, src, dst, start, n)
    ensures forall v: nat | start <= v < start + n :: PermAllowed(vm, src, v, false)
  {
    forall v: nat | start <= v < start + n ensures PermAllowed(vm, src, v, false) {
      assert PageReady(vm.procs, src, dst, v);
    }
  }

  /** The first i regions of parent p have been copied into the child c. */
  ghost predicate ForkedTo(vm0: Vm, vm: Vm, p: nat, c: nat, i: nat)
  {
    && Inv(vm) && p in vm0.procs && c !in vm0.procs && RegionsOk(vm0.procs[p].regions) && i <= |vm0.procs[p].regions|
    && ForkFrames(vm0, vm, p, c, i)
  }

  ghost predicate ForkFrames(vm0: Vm, vm: Vm, p: nat, c: nat, i: nat)
    requires p in vm0.procs && i <= |vm0.procs[p].regions|
  {
    && vm.procs.Keys == vm0.procs.Keys + {c} && vm.data == vm0.data && vm.cache == vm0.cache && vm.pool == vm0.pool
    && (forall q | q in vm0.procs :: vm.procs[q].regions == vm0.procs[q].regions)
    && (forall q: nat, w: nat | q in vm0.procs :: SameFrame(vm.procs, q, vm0.procs, q, w))
    && vm.procs[c].regions == vm0.procs[p].regions[..i]
    && (forall w: nat :: ChildPage(vm.procs, p, c, w))
  }

  /** Page w of the child: the parent's frame where the region is private, no entry elsewhere. */
  ghost predicate ChildPage(procs: map<nat, Proc>, p: nat, c: nat, w: nat)
  {
    if PrivateIn(procs, c, w) then SameFrame(procs, c, procs, p, w) else !Maps(procs, c, w)
  }

  lemma ForkStart(vm: Vm, p: nat, c: nat)
    requires Inv(vm) && p in vm.procs && c !in vm.procs
    ensures ForkedTo(vm, AddProc(vm, c), p, c, 0)
  {
    AddProcKeeps(vm, c);
  }

  lemma RegionAdded(vm0: Vm, vm: Vm, p: nat, c: nat, i: nat)
    requires ForkedTo(vm0, vm, p, c, i) && i < |vm0.procs[p].regions|
    ensures Inv(AddRegion(vm, c, vm0.procs[p].regions[i]))
  {
    var rs := vm0.procs[p].regions;
    assert rs[..i] + [rs[i]] == rs[..i + 1];
    RegionsPrefix(rs, i + 1);
    AddRegionKeeps(vm, c, rs[i]);
  }

  /** No page of the next region is mapped in the child yet. */
  lemma RegionReady(vm0: Vm, vm: Vm, p: nat, c: nat, i: nat)
    requires p in vm0.procs && c !in vm0.procs && RegionsOk(vm0.procs[p].regions)
    requires i < |vm0.procs[p].regions| && !vm0.procs[p].regions[i].kind.Shared?
    requires ForkFrames(vm0, vm, p, c, i)
    ensures var r := vm0.procs[p].regions[i]; CopyReady(AddRegion(vm, c, r).procs, p, c, r.start, r.len)
  {
    var rs := vm0.procs[p].regions;
    var r := rs[i];
    var procs' := AddRegion(vm, c, r).procs;
    forall v: nat | r.start <= v < r.start + r.len ensures PageReady(procs', p, c, v) {
      FindIndex(rs, i, v);
      FindAppend(rs[..i], r, v);
      NotEarlier(rs, i, v);
      assert ChildPage(vm.procs, p, c, v);
    }
  }

  lemma NotEarlier(rs: seq<Region>, i: nat, v: nat)
    requires RegionsOk(rs) && i < |rs| && rs[i].Contains(v)
    ensures Find(rs[..i], v).None?
  {
  }

  lemma RegionCopied(vm0: Vm, vm1: Vm, vm: Vm, p: nat, c: nat, i: nat)
    requires p in vm0.procs && c !in vm0.procs && RegionsOk(vm0.procs[p].regions)
    requires i < |vm0.procs[p].regions| && !vm0.procs[p].regions[i].kind.Shared?
    requires ForkFrames(vm0, vm1, p, c, i)
    requires var r := vm0.procs[p].regions[i];
             Forking(AddRegion(vm1, c, r), vm, c, r.start, r.start + r.len)
             && FramesShared(vm.procs, p, c, r.start, r.start + r.len)
    ensures ForkFrames(vm0, vm, p, c, i + 1)
  {
    var rs := vm0.procs[p].regions;
    var r := rs[i];
    var vm2 := AddRegion(vm1, c, r);
    assert rs[..i] + [r] == rs[..i + 1];
    forall q: nat, w: nat | q in vm0.procs ensures SameFrame(vm.procs, q, vm0.procs, q, w) {
      assert SameFrame(vm1.procs, q, vm0.procs, q, w) && SameFrame(vm.procs, q, vm2.procs, q, w);
    }
    forall w: nat ensures ChildPage(vm.procs, p, c, w) {
      RegionCopiedPage(vm1, vm, p, c, rs, i, w);
    }
  }

  lemma RegionCopiedPage(vm1: Vm, vm: Vm, p: nat, c: nat, rs: seq<Region>, i: nat, w: nat)
    requires RegionsOk(rs) && i < |rs| && !rs[i].kind.Shared? && p in vm1.procs && c in vm1.procs && p != c
    requires vm1.procs[c].regions == rs[..i] && ChildPage(vm1.procs, p, c, w)
    requires Forking(AddRegion(vm1, c, rs[i]), vm, c, rs[i].start, rs[i].start + rs[i].len)
    requires FramesShared(vm.procs, p, c, rs[i].start, rs[i].start + rs[i].len)
    ensures ChildPage(vm.procs, p, c, w)
  {
    var r := rs[i];
    var vm2 := AddRegion(vm1, c, r);
    FindAppend(rs[..i], r, w);
    if r.Contains(w) {
      NotEarlier(rs, i, w);
    } else {
      assert SameFrame(vm.procs, c, vm2.procs, c, w) && SameFrame(vm.procs, p, vm2.procs, p, w);
      assert PrivateIn(vm.procs, c, w) <==> PrivateIn(vm1.procs, c, w);
    }
  }

  lemma SharedSkipped(vm0: Vm, vm: Vm, p: nat, c: nat, i: nat)
    requires p in vm0.procs && c !in vm0.procs && i < |vm0.procs[p].regions| && vm0.procs[p].regions[i].kind.Shared?
    requires ForkFrames(vm0, vm, p, c, i)
    ensures ForkFrames(vm0, AddRegion(vm, c, vm0.procs[p].regions[i]), p, c, i + 1)
  {
    var rs := vm0.procs[p].regions;
    var r := rs[i];
    var vm' := AddRegion(vm, c, r);
    assert rs[..i] + [r] == rs[..i + 1];
    forall q: nat, w: nat | q in vm0.procs ensures SameFrame(vm'.procs, q, vm0.procs, q, w) {
      assert SameFrame(vm.procs, q, vm0.procs, q, w);
    }
    forall w: nat ensures ChildPage(vm'.procs, p, c, w) {
      FindAppend(rs[..i], r, w);
      assert ChildPage(vm.procs, p, c, w);
    }
  }

  lemma ForkDone(vm0: Vm, vm: Vm, p: nat, c: nat)
    requires p in vm0.procs && c !in vm0.procs && ForkFrames(vm0, vm, p, c, |vm0.procs[p].regions|)
    ensures Abs(vm) == EagerFork(Abs(vm0), p, c)
  {
    var rs := vm0.procs[p].regions;
    assert rs[..|rs|] == rs;
    forall w: nat | RegionOf(vm.procs, p, w).Some? && !RegionOf(vm.procs, p, w).value.kind.Shared?
      ensures SameFrame(vm.procs, c, vm.procs, p, w)
    {
      assert ChildPage(vm.procs, p, c, w);
    }
    ForkRefines(vm0, vm, p, c);
  }

  /** Page v of process p is in a private region. */
  ghost predicate PrivateIn(procs: map<nat, Proc>, p: nat, v: nat)
  {
    p in procs && RegionOf(procs, p, v).Some? && !RegionOf(procs, p, v).value.kind.Shared?
  }

  ghost predicate PermAllowed(vm: Vm, p: nat, v: nat, w: bool)
  {
    && p in vm.procs
    && (Maps(vm.procs, p, v) ==> PrivateIn(vm.procs, p, v))
    && (w && Maps(vm.procs, p, v) ==>
          RegionOf(vm.procs, p, v).value.urw
          && FrameOf(vm.procs, p, v) in vm.refcnt && vm.refcnt[FrameOf(vm.procs, p, v)] == 1)
  }

  /** A permission change has reached page u: nobody sees a difference, no frame moved, and pages [start, u) have permission w. */
  ghost predicate Permitted(vm0: Vm, vm: Vm, p: nat, start: nat, u: nat, w: bool)
  {
    Inv(vm) && Abs(vm) == Abs(vm0) && p in vm.procs && PermFrames(vm0, vm, p, start, u, w)
  }

  ghost predicate PermFrames(vm0: Vm, vm: Vm, p: nat, start: nat, u: nat, w: bool)
    requires p in vm.procs
  {
    && Forking(vm0, vm, p, 0, 0) && vm.refcnt == vm0.refcnt
    && (forall v: nat | start <= v < u && Maps(vm.procs, p, v) :: vm.procs[p].pt[v].writable == w)
  }

  lemma PermittedStart(vm: Vm, p: nat, start: nat, w: bool)
    requires Inv(vm) && p in vm.procs
    ensures Permitted(vm, vm, p, start, start, w)
  {
  }

  lemma PermStillAllowed(vm0: Vm, vm: Vm, p: nat, v: nat, start: nat, u: nat, w: bool)
    requires p in vm.procs && PermFrames(vm0, vm, p, start, u, w) && PermAllowed(vm0, p, v, w)
    ensures PermAllowed(vm, p, v, w)
  {
    assert SameFrame(vm.procs, p, vm0.procs, p, v);
  }

  lemma PermittedStep(vm0: Vm, vm: Vm, vm': Vm, p: nat, start: nat, v: nat, w: bool)
    requires Permitted(vm0, vm, p, start, v, w) && PermAllowed(vm, p, v, w)
    requires vm' == if v in vm.procs[p].pt then SetWritable(vm, p, v, w) else vm
    ensures Permitted(vm0, vm', p, start, v + 1, w)
  {
    if v in vm.procs[p].pt {
      SetWritableKeeps(vm, p, v, w);
    }
    PermFramesStep(vm0, vm, vm', p, start, v, w);
  }

  lemma PermFramesStep(vm0: Vm, vm: Vm, vm': Vm, p: nat, start: nat, v: nat, w: bool)
    requires p in vm.procs && PermFrames(vm0, vm, p, start, v, w)
    requires vm' == if v in vm.procs[p].pt then SetWritable(vm, p, v, w) else vm
    ensures PermFrames(vm0, vm', p, start, v + 1, w)
  {
    if v in vm.procs[p].pt {
      SetWritableFrames(vm0, vm, p, v, w);
      forall u: nat | start <= u < v + 1 && Maps(vm'.procs, p, u) ensures vm'.procs[p].pt[u].writable == w {
        MapsAfter(vm.procs, p, v, vm.procs[p].pt[v].(writable := w), p, u);
      }
    }
  }

  ghost predicate Sharable(vm: Vm, src: nat, dst: nat, v: nat)
  {
    && src in vm.procs && dst in vm.procs && src != dst && PrivateIn(vm.procs, src, v)
    && RegionOf(vm.procs, dst, v) == RegionOf(vm.procs, src, v) && !Maps(vm.procs, dst, v)
    && (Maps(vm.procs, src, v) ==> !vm.procs[src].pt[v].writable && FrameOf(vm.procs, src, v) in vm.refcnt)
  }

  lemma AbsentPages(vm: Vm, p: nat, v: nat)
    requires Inv(vm) && p in vm.procs
    ensures v in vm.procs[p].pt ==> (Maps(vm.procs, p, v) <==> vm.procs[p].pt[v].frame != 0)
    ensures Maps(vm.procs, p, v) ==> FrameOf(vm.procs, p, v) in vm.refcnt
  {
    if Maps(vm.procs, p, v) {
      assert EntryOk(vm, p, v);
    }
  }

  /** `vpmap_cow_copy` of n pages from `start` has reached page v. */
  ghost predicate Copied(vm0: Vm, vm: Vm, src: nat, dst: nat, start: nat, n: nat, v: nat)
  {
    && Inv(vm) && Forking(vm0, vm, dst, start, v) && ReadOnly(vm.procs, src, start, n)
    && FramesShared(vm.procs, src, dst, start, v)
  }

  /** On pages [lo, hi), src and dst name the same frames. */
  ghost predicate FramesShared(procs: map<nat, Proc>, src: nat, dst: nat, lo: nat, hi: nat)
  {
    forall u: nat | lo <= u < hi :: SameFrame(procs, dst, procs, src, u)
  }

  lemma CopiedStart(vm0: Vm, vm: Vm, src: nat, dst: nat, start: nat, n: nat)
    requires Permitted(vm0, vm, src, start, start + n, false)
    ensures Copied(vm0, vm, src, dst, start, n, start)
  {
  }

  lemma StillSharable(vm0: Vm, vm: Vm, src: nat, dst: nat, start: nat, n: nat, v: nat)
    requires Copied(vm0, vm, src, dst, start, n, v) && start <= v < start + n
    requires CopyReady(vm0.procs, src, dst, start, n)
    ensures Sharable(vm, src, dst, v)
  {
    assert PageReady(vm0.procs, src, dst, v);
    assert SameFrame(vm.procs, dst, vm0.procs, dst, v);
    if Maps(vm.procs, src, v) {
      assert EntryOk(vm, src, v);
    }
  }

  lemma CopiedStep(vm0: Vm, vm: Vm, vm': Vm, src: nat, dst: nat, start: nat, n: nat, v: nat)
    requires Copied(vm0, vm, src, dst, start, n, v) && start <= v < start + n && Sharable(vm, src, dst, v)
    requires vm' == if Maps(vm.procs, src, v) then ShareWith(vm, src, dst, v) else vm
    ensures Copied(vm0, vm', src, dst, start, n, v + 1)
  {
    if Maps(vm.procs, src, v) {
      ShareKeeps(vm, src, dst, v);
      ShareFrames(vm0, vm, src, dst, v, start, n);
    } else {
      SkipFrames(vm0, vm, src, dst, start, v);
    }
  }

  lemma SkipFrames(vm0: Vm, vm: Vm, src: nat, dst: nat, start: nat, v: nat)
    requires Forking(vm0, vm, dst, start, v) && FramesShared(vm.procs, src, dst, start, v)
    requires !Maps(vm.procs, dst, v) && !Maps(vm.procs, src, v)
    ensures Forking(vm0, vm, dst, start, v + 1) && FramesShared(vm.procs, src, dst, start, v + 1)
  {
  }

  ghost predicate ReadOnly(procs: map<nat, Proc>, p: nat, start: nat, n: nat)
  {
    forall v: nat | start <= v < start + n && Maps(procs, p, v) :: !procs[p].pt[v].writable
  }

  lemma SetWritableFrames(vm0: Vm, vm: Vm, p: nat, v: nat, w: bool)
    requires p in vm.procs && v in vm.procs[p].pt && Forking(vm0, vm, p, 0, 0)
    ensures Forking(vm0, SetWritable(vm, p, v, w), p, 0, 0)
  {
    var vm' := SetWritable(vm, p, v, w);
    forall q: nat, u: nat | q in vm0.procs ensures SameFrame(vm'.procs, q, vm0.procs, q, u) {
      assert SameFrame(vm.procs, q, vm0.procs, q, u);
      MapsAfter(vm.procs, p, v, vm.procs[p].pt[v].(writable := w), q, u);
    }
  }

  lemma ShareFrames(vm0: Vm, vm: Vm, src: nat, dst: nat, v: nat, start: nat, n: nat)
    requires Maps(vm.procs, src, v) && dst in vm.procs && src != dst && FrameOf(vm.procs, src, v) in vm.refcnt
    requires start <= v < start + n && Forking(vm0, vm, dst, start, v) && ReadOnly(vm.procs, src, start, n)
    requires FramesShared(vm.procs, src, dst, start, v)
    ensures var vm' := ShareWith(vm, src, dst, v);
            Forking(vm0, vm', dst, start, v + 1) && ReadOnly(vm'.procs, src, start, n)
            && FramesShared(vm'.procs, src, dst, start, v + 1)
  {
    var vm' := ShareWith(vm, src, dst, v);
    var pte := vm.procs[src].pt[v];
    forall q: nat, u: nat | q in vm0.procs && !(q == dst && start <= u < v + 1)
      ensures SameFrame(vm'.procs, q, vm0.procs, q, u)
    {
      assert SameFrame(vm.procs, q, vm0.procs, q, u);
      MapsAfter(vm.procs, dst, v, pte, q, u);
    }
    forall u: nat | start <= u < v + 1 ensures SameFrame(vm'.procs, dst, vm'.procs, src, u) {
      MapsAfter(vm.procs, dst, v, pte, dst, u);
      MapsAfter(vm.procs, dst, v, pte, src, u);
      if u < v {
        assert SameFrame(vm.procs, dst, vm.procs, src, u);
      }
    }
    forall u: nat | start <= u < start + n && Maps(vm'.procs, src, u) ensures !vm'.procs[src].pt[u].writable {
      MapsAfter(vm.procs, dst, v, pte, src, u);
    }
  }
}
