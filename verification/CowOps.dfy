/** The steps of fork, fault handling and exit, each with what it keeps and what processes see. */
module CowOps {
  import opened Basics
  import opened CowState
  import opened CowSteps

  /** A frame mapped by a private entry has no other writable entry. */
  lemma OthersReadOnly(vm: Vm, p: nat, v: nat)
    requires Inv(vm) && Maps(vm.procs, p, v)
    requires RegionOf(vm.procs, p, v).Some? && !RegionOf(vm.procs, p, v).value.kind.Shared?
    ensures forall q, w | Maps(vm.procs, q, w) && FrameOf(vm.procs, q, w) == FrameOf(vm.procs, p, v) && (q, w) != (p, v) ::
              !vm.procs[q].pt[w].writable
  {
    var f := FrameOf(vm.procs, p, v);
    assert EntryOk(vm, p, v);
    forall q: nat, w: nat | Maps(vm.procs, q, w) && FrameOf(vm.procs, q, w) == f && (q, w) != (p, v)
      ensures !vm.procs[q].pt[w].writable
    {
      assert EntryOk(vm, q, w);
      assert (p, v) in Mappers(vm.procs, f);
    }
  }

  /** Everything anyone sees is the same, except perhaps page v of process p. */
  ghost predicate SameExcept(vm: Vm, vm': Vm, p: nat, v: nat)
  {
    && vm'.procs.Keys == vm.procs.Keys
    && (forall q | q in vm.procs :: vm'.procs[q].regions == vm.procs[q].regions)
    && (forall q: nat, w: nat | q in vm.procs && (q, w) != (p, v) :: PrivatePage(vm', q, w) == PrivatePage(vm, q, w))
    && (forall k: (nat, nat) :: SharedPage(vm', k) == SharedPage(vm, k))
  }

  lemma PteSameExcept(vm: Vm, vm': Vm, p: nat, v: nat, pte: Pte)
    requires Inv(vm) && Inv(vm') && p in vm.procs && vm'.procs == WithPte(vm.procs, p, v, pte)
    requires vm'.cache == vm.cache && BytesKept(vm, vm')
    ensures SameExcept(vm, vm', p, v)
  {
    forall q: nat, w: nat | q in vm.procs && (q, w) != (p, v) ensures PrivatePage(vm', q, w) == PrivatePage(vm, q, w) {
      OthersSeeSame(vm, vm', p, v, pte, q, w);
    }
    forall k: (nat, nat) ensures SharedPage(vm', k) == SharedPage(vm, k) {
      SharedSame(vm, vm', k);
    }
  }

  /** The whole obligation of one entry change. */
  ghost predicate PteStep(vm: Vm, vm': Vm, p: nat, v: nat, pte: Pte)
    requires p in vm.procs
  {
    && vm'.procs == WithPte(vm.procs, p, v, pte) && vm'.cache == vm.cache
    && EntryAllowed(vm, vm', p, v, pte) && CountsMove(vm, vm', p, v, pte) && BytesKept(vm, vm')
  }

  lemma PteStepKeeps(vm: Vm, vm': Vm, p: nat, v: nat, pte: Pte)
    requires Inv(vm) && p in vm.procs && PteStep(vm, vm', p, v, pte)
    ensures Inv(vm') && SameExcept(vm, vm', p, v)
  {
    PteKeeps(vm, vm', p, v, pte);
    PteSameExcept(vm, vm', p, v, pte);
  }

  /** An entry change that shows the same page leaves the reference machine where it was. */
  lemma PteSameView(vm: Vm, vm': Vm, p: nat, v: nat)
    requires p in vm.procs && SameExcept(vm, vm', p, v) && PrivatePage(vm', p, v) == PrivatePage(vm, p, v)
    ensures Abs(vm') == Abs(vm)
  {
    SameView(vm, vm');
  }

  // --- Changing the write permission of an entry ---

  ghost function SetWritable(vm: Vm, p: nat, v: nat, w: bool): Vm
    requires p in vm.procs && v in vm.procs[p].pt
  {
    vm.(procs := WithPte(vm.procs, p, v, vm.procs[p].pt[v].(writable := w)))
  }

  /** Write permission may be dropped at any time, and granted on a present private entry whose frame has count 1. */
  lemma SetWritableKeeps(vm: Vm, p: nat, v: nat, w: bool)
    requires Inv(vm) && p in vm.procs && v in vm.procs[p].pt
    requires Maps(vm.procs, p, v) ==> RegionOf(vm.procs, p, v).Some? && !RegionOf(vm.procs, p, v).value.kind.Shared?
    requires w && Maps(vm.procs, p, v) ==>
      && RegionOf(vm.procs, p, v).value.urw
      && FrameOf(vm.procs, p, v) in vm.refcnt && vm.refcnt[FrameOf(vm.procs, p, v)] == 1
    ensures Inv(SetWritable(vm, p, v, w)) && Abs(SetWritable(vm, p, v, w)) == Abs(vm)
  {
    var pte := vm.procs[p].pt[v].(writable := w);
    var vm' := SetWritable(vm, p, v, w);
    SetWritableStep(vm, p, v, w);
    PteStepKeeps(vm, vm', p, v, pte);
    MapsAfter(vm.procs, p, v, pte, p, v);
    PteSameView(vm, vm', p, v);
  }

  lemma SetWritableStep(vm: Vm, p: nat, v: nat, w: bool)
    requires Inv(vm) && p in vm.procs && v in vm.procs[p].pt
    requires Maps(vm.procs, p, v) ==> RegionOf(vm.procs, p, v).Some? && !RegionOf(vm.procs, p, v).value.kind.Shared?
    requires w && Maps(vm.procs, p, v) ==>
      && RegionOf(vm.procs, p, v).value.urw
      && FrameOf(vm.procs, p, v) in vm.refcnt && vm.refcnt[FrameOf(vm.procs, p, v)] == 1
    ensures PteStep(vm, SetWritable(vm, p, v, w), p, v, vm.procs[p].pt[v].(writable := w))
  {
    SetWritableCounts(vm, p, v, w);
    if Maps(vm.procs, p, v) {
      OthersReadOnly(vm, p, v);
      if w {
        SoleMapper(vm, p, v);
      }
      assert EntryOk(vm, p, v);
      SetWritableAllowed(vm, p, v, w);
    }
  }

  lemma SetWritableCounts(vm: Vm, p: nat, v: nat, w: bool)
    requires CountsOk(vm) && p in vm.procs && v in vm.procs[p].pt
    ensures CountsMove(vm, SetWritable(vm, p, v, w), p, v, vm.procs[p].pt[v].(writable := w))
  {
  }

  lemma SetWritableAllowed(vm: Vm, p: nat, v: nat, w: bool)
    requires Maps(vm.procs, p, v) && EntryOk(vm, p, v) && !RegionOf(vm.procs, p, v).value.kind.Shared?
    requires w ==> RegionOf(vm.procs, p, v).value.urw && Mappers(vm.procs, FrameOf(vm.procs, p, v)) == {(p, v)}
    requires forall q, u | Maps(vm.procs, q, u) && FrameOf(vm.procs, q, u) == FrameOf(vm.procs, p, v) && (q, u) != (p, v) ::
              !vm.procs[q].pt[u].writable
    ensures EntryAllowed(vm, SetWritable(vm, p, v, w), p, v, vm.procs[p].pt[v].(writable := w))
  {
  }

  lemma SoleMapper(vm: Vm, p: nat, v: nat)
    requires Inv(vm) && Maps(vm.procs, p, v)
    requires FrameOf(vm.procs, p, v) in vm.refcnt && vm.refcnt[FrameOf(vm.procs, p, v)] == 1
    ensures Mappers(vm.procs, FrameOf(vm.procs, p, v)) == {(p, v)}
  {
    var m := Mappers(vm.procs, FrameOf(vm.procs, p, v));
    assert (p, v) in m;
    Cardinality(m, (p, v));
    assert |m - {(p, v)}| == 0;
    assert m == {(p, v)} + (m - {(p, v)});
  }

  // --- Mapping a frame fresh from the pool ---

  ghost function MapFresh(vm: Vm, p: nat, v: nat, f: nat, page: Page): Vm
    requires p in vm.procs
  {
    var old_ := EntryAt(vm.procs, p, v);
    Vm(WithPte(vm.procs, p, v, Pte(f, true, true)),
       (if old_.present && old_.frame in vm.refcnt then vm.refcnt[old_.frame := Less(vm.refcnt[old_.frame])] else vm.refcnt)[f := 1],
       vm.data[f := page], vm.cache, vm.pool - {f})
  }

  ghost function Less(n: nat): nat
  {
    if n == 0 then 0 else n - 1
  }

  /**
   * `setup_page` on an absent entry, and the copying half of `handleCOW` on an
   * entry whose frame has other references.
   */
  lemma MapFreshKeeps(vm: Vm, p: nat, v: nat, f: nat, page: Page)
    requires Inv(vm) && p in vm.procs && f in vm.pool
    requires var r := RegionOf(vm.procs, p, v); r.Some? && !r.value.kind.Shared? && r.value.urw
    requires Maps(vm.procs, p, v) ==>
      FrameOf(vm.procs, p, v) in vm.refcnt && vm.refcnt[FrameOf(vm.procs, p, v)] > 1
    requires PrivatePage(vm, p, v) == Some(page)
    ensures Inv(MapFresh(vm, p, v, f, page)) && Abs(MapFresh(vm, p, v, f, page)) == Abs(vm)
  {
    var pte := Pte(f, true, true);
    var vm' := MapFresh(vm, p, v, f, page);
    FreshAllowed(vm, p, v, f, page);
    FreshCounts(vm, p, v, f, page);
    PteStepKeeps(vm, vm', p, v, pte);
    MapsAfter(vm.procs, p, v, pte, p, v);
    PteSameView(vm, vm', p, v);
  }

  lemma FreshAllowed(vm: Vm, p: nat, v: nat, f: nat, page: Page)
    requires Inv(vm) && p in vm.procs && f in vm.pool
    requires var r := RegionOf(vm.procs, p, v); r.Some? && !r.value.kind.Shared? && r.value.urw
    ensures EntryAllowed(vm, MapFresh(vm, p, v, f, page), p, v, Pte(f, true, true))
  {
    NoMappers(vm, f);
    forall q: nat, w: nat | Maps(vm.procs, q, w) ensures FrameOf(vm.procs, q, w) != f {
      assert (q, w) !in Mappers(vm.procs, f);
    }
  }

  lemma FreshCounts(vm: Vm, p: nat, v: nat, f: nat, page: Page)
    requires CountsOk(vm) && p in vm.procs && f in vm.pool
    requires Maps(vm.procs, p, v) ==>
      FrameOf(vm.procs, p, v) in vm.refcnt && vm.refcnt[FrameOf(vm.procs, p, v)] > 1
    ensures CountsMove(vm, MapFresh(vm, p, v, f, page), p, v, Pte(f, true, true))
    ensures BytesKept(vm, MapFresh(vm, p, v, f, page))
  {
  }

  // --- Sharing a frame with the child ---

  ghost function ShareWith(vm: Vm, p: nat, c: nat, v: nat): Vm
    requires Maps(vm.procs, p, v) && c in vm.procs && FrameOf(vm.procs, p, v) in vm.refcnt
  {
    var pte := vm.procs[p].pt[v];
    vm.(procs := WithPte(vm.procs, c, v, pte), refcnt := vm.refcnt[pte.frame := vm.refcnt[pte.frame] + 1])
  }

  /** One page of `vpmap_cow_copy`: the child's entry names the parent's frame, read-only in both. */
  lemma ShareKeeps(vm: Vm, p: nat, c: nat, v: nat)
    requires Inv(vm) && Maps(vm.procs, p, v) && c in vm.procs && c != p && !Maps(vm.procs, c, v)
    requires !vm.procs[p].pt[v].writable
    requires RegionOf(vm.procs, p, v).Some? && !RegionOf(vm.procs, p, v).value.kind.Shared?
    requires RegionOf(vm.procs, c, v) == RegionOf(vm.procs, p, v)
    requires FrameOf(vm.procs, p, v) in vm.refcnt
    ensures Inv(ShareWith(vm, p, c, v)) && SameExcept(vm, ShareWith(vm, p, c, v), c, v)
  {
    ShareStep(vm, p, c, v);
    PteStepKeeps(vm, ShareWith(vm, p, c, v), c, v, vm.procs[p].pt[v]);
  }

  lemma ShareStep(vm: Vm, p: nat, c: nat, v: nat)
    requires Inv(vm) && Maps(vm.procs, p, v) && c in vm.procs && c != p && !Maps(vm.procs, c, v)
    requires !vm.procs[p].pt[v].writable
    requires RegionOf(vm.procs, p, v).Some? && !RegionOf(vm.procs, p, v).value.kind.Shared?
    requires RegionOf(vm.procs, c, v) == RegionOf(vm.procs, p, v)
    requires FrameOf(vm.procs, p, v) in vm.refcnt
    ensures PteStep(vm, ShareWith(vm, p, c, v), c, v, vm.procs[p].pt[v])
  {
    assert EntryOk(vm, p, v);
    OthersReadOnly(vm, p, v);
    ShareCounts(vm, p, c, v);
    ShareAllowed(vm, p, c, v);
  }

  lemma ShareCounts(vm: Vm, p: nat, c: nat, v: nat)
    requires CountsOk(vm) && Maps(vm.procs, p, v) && c in vm.procs && !Maps(vm.procs, c, v)
    requires FrameOf(vm.procs, p, v) in vm.refcnt
    ensures CountsMove(vm, ShareWith(vm, p, c, v), c, v, vm.procs[p].pt[v])
  {
  }

  lemma ShareAllowed(vm: Vm, p: nat, c: nat, v: nat)
    requires Maps(vm.procs, p, v) && c in vm.procs && !vm.procs[p].pt[v].writable
    requires EntryOk(vm, p, v) && !RegionOf(vm.procs, p, v).value.kind.Shared?
    requires RegionOf(vm.procs, c, v) == RegionOf(vm.procs, p, v)
    requires forall q, u | Maps(vm.procs, q, u) && FrameOf(vm.procs, q, u) == FrameOf(vm.procs, p, v) && (q, u) != (p, v) ::
              !vm.procs[q].pt[u].writable
    ensures EntryAllowed(vm, ShareWith(vm, p, c, v), c, v, vm.procs[p].pt[v])
  {
  }

  // --- Clearing an entry ---

  ghost function Clear(vm: Vm, p: nat, v: nat): Vm
    requires p in vm.procs
  {
    var old_ := EntryAt(vm.procs, p, v);
    var procs := WithPte(vm.procs, p, v, Pte(0, false, false));
    if !old_.present || old_.frame !in vm.refcnt then vm.(procs := procs)
    else if vm.refcnt[old_.frame] == 1 then
      vm.(procs := procs, refcnt := vm.refcnt - {old_.frame}, pool := vm.pool + {old_.frame})
    else vm.(procs := procs, refcnt := vm.refcnt[old_.frame := Less(vm.refcnt[old_.frame])])
  }

  /** `clear_pte`: one reference less. */
  lemma ClearKeeps(vm: Vm, p: nat, v: nat)
    requires Inv(vm) && p in vm.procs
    ensures Inv(Clear(vm, p, v)) && SameExcept(vm, Clear(vm, p, v), p, v)
  {
    ClearStep(vm, p, v);
    PteStepKeeps(vm, Clear(vm, p, v), p, v, Pte(0, false, false));
  }

  lemma ClearStep(vm: Vm, p: nat, v: nat)
    requires Inv(vm) && p in vm.procs
    ensures PteStep(vm, Clear(vm, p, v), p, v, Pte(0, false, false))
  {
    if Maps(vm.procs, p, v) {
      assert EntryOk(vm, p, v);
    }
    ClearCounts(vm, p, v);
  }

  lemma ClearCounts(vm: Vm, p: nat, v: nat)
    requires CountsOk(vm) && p in vm.procs
    requires Maps(vm.procs, p, v) ==> FrameOf(vm.procs, p, v) in vm.refcnt
    ensures CountsMove(vm, Clear(vm, p, v), p, v, Pte(0, false, false))
  {
  }

  /** A frame returns to the pool exactly when its last mapping goes and no store caches it. */
  lemma ClearFreesLast(vm: Vm, p: nat, v: nat, f: nat)
    requires Inv(vm) && p in vm.procs && f in vm.refcnt
    ensures f !in Clear(vm, p, v).refcnt <==> Mappers(vm.procs, f) == {(p, v)} && f !in vm.cache.Values
    ensures f !in Clear(vm, p, v).refcnt <==> f in Clear(vm, p, v).pool
  {
    assert (p, v) in Mappers(vm.procs, f) <==> Maps(vm.procs, p, v) && FrameOf(vm.procs, p, v) == f;
    if Maps(vm.procs, p, v) && FrameOf(vm.procs, p, v) == f && vm.refcnt[f] == 1 {
      SoleMapper(vm, p, v);
    }
  }

  // --- The page cache of a shared store ---

  ghost function Fill(vm: Vm, k: (nat, nat), f: nat): Vm
  {
    vm.(refcnt := vm.refcnt[f := 1], data := vm.data[f := ZeroPage()], cache := vm.cache[k := f], pool := vm.pool - {f})
  }

  lemma FillValues(vm: Vm, k: (nat, nat), f: nat, g: nat)
    requires k !in vm.cache
    ensures g in Fill(vm, k, f).cache.Values <==> g in vm.cache.Values || g == f
  {
    var cache' := Fill(vm, k, f).cache;
    if g in vm.cache.Values {
      var l :| l in vm.cache && vm.cache[l] == g;
      assert l in cache' && cache'[l] == g;
    }
    if g == f {
      assert k in cache' && cache'[k] == g;
    }
  }

  lemma FillInv(vm: Vm, k: (nat, nat), f: nat)
    requires Inv(vm) && k !in vm.cache && f in vm.pool
    ensures Inv(Fill(vm, k, f))
  {
    FillEntries(vm, k, f);
    NoMappers(vm, f);
    FillCounts(vm, k, f);
  }

  lemma FillEntries(vm: Vm, k: (nat, nat), f: nat)
    requires Inv(vm) && k !in vm.cache && f in vm.pool
    ensures forall q, w | Maps(vm.procs, q, w) :: EntryOk(Fill(vm, k, f), q, w)
  {
    NoMappers(vm, f);
    forall q: nat, w: nat | Maps(vm.procs, q, w) ensures EntryOk(Fill(vm, k, f), q, w) {
      assert EntryOk(vm, q, w);
      assert (q, w) !in Mappers(vm.procs, f);
      FillValues(vm, k, f, FrameOf(vm.procs, q, w));
    }
  }

  lemma FillCounts(vm: Vm, k: (nat, nat), f: nat)
    requires CountsOk(vm) && CacheOk(vm) && k !in vm.cache && f in vm.pool
    requires Mappers(vm.procs, f) == {} && f !in vm.cache.Values
    ensures CountsOk(Fill(vm, k, f)) && CacheOk(Fill(vm, k, f))
  {
    var vm' := Fill(vm, k, f);
    forall g | g in vm'.refcnt ensures vm'.refcnt[g] == |Mappers(vm'.procs, g)| + CacheRef(vm'.cache, g) {
      FillValues(vm, k, f, g);
    }
    forall l | l in vm.cache ensures vm.cache[l] != f {
      assert vm.cache[l] in vm.cache.Values;
    }
  }

  /** A first touch of page k adds a zeroed frame that nobody maps yet. */
  lemma FillKeeps(vm: Vm, k: (nat, nat), f: nat)
    requires Inv(vm) && k !in vm.cache && f in vm.pool
    ensures Inv(Fill(vm, k, f)) && Abs(Fill(vm, k, f)) == Abs(vm)
  {
    FillInv(vm, k, f);
    FillView(vm, k, f);
    SameView(vm, Fill(vm, k, f));
  }

  lemma FillView(vm: Vm, k: (nat, nat), f: nat)
    requires Inv(vm) && k !in vm.cache && f in vm.pool
    ensures forall p: nat, v: nat | p in vm.procs :: PrivatePage(Fill(vm, k, f), p, v) == PrivatePage(vm, p, v)
    ensures forall l: (nat, nat) :: SharedPage(Fill(vm, k, f), l) == SharedPage(vm, l)
  {
    forall p: nat, v: nat | p in vm.procs ensures PrivatePage(Fill(vm, k, f), p, v) == PrivatePage(vm, p, v) {
      if Maps(vm.procs, p, v) {
        assert EntryOk(vm, p, v);
      }
    }
  }

  ghost function MapCached(vm: Vm, p: nat, v: nat, k: (nat, nat)): Vm
    requires p in vm.procs && k in vm.cache && vm.cache[k] in vm.refcnt
  {
    vm.(procs := WithPte(vm.procs, p, v, Pte(vm.cache[k], true, true)),
        refcnt := vm.refcnt[vm.cache[k] := vm.refcnt[vm.cache[k]] + 1])
  }

  /** `handleSharedRegion` on an absent entry: the process joins the store's one frame for the page. */
  lemma MapCachedKeeps(vm: Vm, p: nat, v: nat, k: (nat, nat))
    requires Inv(vm) && p in vm.procs && !Maps(vm.procs, p, v) && k in vm.cache && vm.cache[k] in vm.refcnt
    requires var r := RegionOf(vm.procs, p, v); r.Some? && r.value.kind.Shared? && k == (r.value.kind.store, v - r.value.start)
    ensures Inv(MapCached(vm, p, v, k)) && Abs(MapCached(vm, p, v, k)) == Abs(vm)
  {
    var pte := Pte(vm.cache[k], true, true);
    var vm' := MapCached(vm, p, v, k);
    var r := RegionOf(vm.procs, p, v).value;
    assert r in vm.procs[p].regions && r.urw;
    assert EntryAllowed(vm, vm', p, v, pte);
    PteStepKeeps(vm, vm', p, v, pte);
    MapsAfter(vm.procs, p, v, pte, p, v);
    PteSameView(vm, vm', p, v);
  }

  // --- Storing a byte through a writable entry ---

  ghost function Store(vm: Vm, f: nat, ofs: nat, b: byte): Vm
    requires ofs < PAGE_SIZE
  {
    vm.(data := vm.data[f := SetByte(Bytes(vm, f), ofs, b)])
  }

  lemma StoreInv(vm: Vm, f: nat, ofs: nat, b: byte)
    requires Inv(vm) && ofs < PAGE_SIZE
    ensures Inv(Store(vm, f, ofs, b))
  {
    var vm' := Store(vm, f, ofs, b);
    forall q, w | Maps(vm'.procs, q, w) ensures EntryOk(vm', q, w) {
      assert EntryOk(vm, q, w);
    }
  }

  /** A store through a private writable entry changes that process's page and nothing else. */
  lemma StorePrivate(vm: Vm, p: nat, v: nat, ofs: nat, b: byte)
    requires Inv(vm) && Maps(vm.procs, p, v) && vm.procs[p].pt[v].writable && ofs < PAGE_SIZE
    requires RegionOf(vm.procs, p, v).Some? && !RegionOf(vm.procs, p, v).value.kind.Shared?
    ensures var vm' := Store(vm, FrameOf(vm.procs, p, v), ofs, b);
            SameExcept(vm, vm', p, v) && PrivatePage(vm, p, v).Some?
            && PrivatePage(vm', p, v) == Some(SetByte(PrivatePage(vm, p, v).value, ofs, b))
  {
    var f := FrameOf(vm.procs, p, v);
    var vm' := Store(vm, f, ofs, b);
    assert EntryOk(vm, p, v);
    forall q: nat, w: nat | q in vm.procs && (q, w) != (p, v) ensures PrivatePage(vm', q, w) == PrivatePage(vm, q, w) {
      assert (q, w) in Mappers(vm.procs, f) <==> Maps(vm.procs, q, w) && FrameOf(vm.procs, q, w) == f;
    }
    forall k: (nat, nat) ensures SharedPage(vm', k) == SharedPage(vm, k) {
      if k in vm.cache {
        assert vm.cache[k] in vm.cache.Values;
      }
    }
  }

  /** A store through a shared entry changes that page of the store and no private page. */
  lemma StoreShared(vm: Vm, p: nat, v: nat, ofs: nat, b: byte, k: (nat, nat))
    requires Inv(vm) && Maps(vm.procs, p, v) && ofs < PAGE_SIZE
    requires var r := RegionOf(vm.procs, p, v); r.Some? && r.value.kind.Shared? && k == (r.value.kind.store, v - r.value.start)
    ensures var vm' := Store(vm, FrameOf(vm.procs, p, v), ofs, b);
            && (forall q: nat, w: nat | q in vm.procs :: PrivatePage(vm', q, w) == PrivatePage(vm, q, w))
            && (forall l: (nat, nat) | l != k :: SharedPage(vm', l) == SharedPage(vm, l))
            && SharedPage(vm', k) == SetByte(SharedPage(vm, k), ofs, b)
  {
    var f := FrameOf(vm.procs, p, v);
    var vm' := Store(vm, f, ofs, b);
    assert EntryOk(vm, p, v);
    assert vm.cache[k] == f && f in vm.cache.Values;
    forall q: nat, w: nat | q in vm.procs ensures PrivatePage(vm', q, w) == PrivatePage(vm, q, w) {
      if Maps(vm.procs, q, w) {
        assert EntryOk(vm, q, w);
      }
    }
  }

  /** In terms of the reference machine, either store is one byte of the page the process sees. */
  lemma StoreRefines(vm: Vm, p: nat, v: nat, ofs: nat, b: byte)
    requires Inv(vm) && Maps(vm.procs, p, v) && vm.procs[p].pt[v].writable && ofs < PAGE_SIZE
    requires RegionOf(vm.procs, p, v).Some?
    ensures EagerPage(Abs(vm), p, v).Some?
    ensures Abs(Store(vm, FrameOf(vm.procs, p, v), ofs, b)) == EagerStore(Abs(vm), p, v, ofs, b)
  {
    var vm' := Store(vm, FrameOf(vm.procs, p, v), ofs, b);
    var r := RegionOf(vm.procs, p, v).value;
    if r.kind.Shared? {
      StoreShared(vm, p, v, ofs, b, (r.kind.store, v - r.start));
      PrivateUnmoved(vm, vm');
      SharedMoved(vm, vm', (r.kind.store, v - r.start));
      SharedUpdate(vm, vm', p, v, ofs, b);
    } else {
      StorePrivate(vm, p, v, ofs, b);
      PrivateUpdate(vm, vm', p, v, ofs, b);
    }
  }

  lemma SharedUpdate(vm: Vm, vm': Vm, p: nat, v: nat, ofs: nat, b: byte)
    requires p in vm.procs && vm'.procs == vm.procs && ofs < PAGE_SIZE
    requires RegionOf(vm.procs, p, v).Some? && RegionOf(vm.procs, p, v).value.kind.Shared?
    requires AllPrivate(vm') == AllPrivate(vm)
    requires var r := RegionOf(vm.procs, p, v).value; var k := (r.kind.store, v - r.start);
             SharedPages(vm') == SharedPages(vm)[k := SetByte(SharedPage(vm, k), ofs, b)]
    ensures EagerPage(Abs(vm), p, v).Some?
    ensures Abs(vm') == EagerStore(Abs(vm), p, v, ofs, b)
  {
    var r := RegionOf(vm.procs, p, v).value;
    assert EagerPage(Abs(vm), p, v) == Some(SharedPage(vm, (r.kind.store, v - r.start)));
  }

  lemma SharedMoved(vm: Vm, vm': Vm, k: (nat, nat))
    requires forall l: (nat, nat) | l != k :: SharedPage(vm', l) == SharedPage(vm, l)
    ensures SharedPages(vm') == SharedPages(vm)[k := SharedPage(vm', k)]
  {
  }

  lemma PutPages(vm: Vm, vm': Vm, p: nat, v: nat)
    requires p in vm.procs && p in vm'.procs && PrivatePage(vm', p, v).Some?
    requires forall w: nat | w != v :: PrivatePage(vm', p, w) == PrivatePage(vm, p, w)
    ensures PrivatePages(vm', p) == Put(PrivatePages(vm, p), v, PrivatePage(vm', p, v).value)
  {
  }

  lemma PrivateUpdate(vm: Vm, vm': Vm, p: nat, v: nat, ofs: nat, b: byte)
    requires p in vm.procs && vm'.procs == vm.procs && SameExcept(vm, vm', p, v) && ofs < PAGE_SIZE
    requires RegionOf(vm.procs, p, v).Some? && !RegionOf(vm.procs, p, v).value.kind.Shared?
    requires PrivatePage(vm, p, v).Some? && PrivatePage(vm', p, v) == Some(SetByte(PrivatePage(vm, p, v).value, ofs, b))
    ensures EagerPage(Abs(vm), p, v).Some?
    ensures Abs(vm') == EagerStore(Abs(vm), p, v, ofs, b)
  {
    forall q | q in vm.procs && q != p ensures PrivatePages(vm', q) == PrivatePages(vm, q) {
      SamePages(vm, q, vm', q);
    }
    PutPages(vm, vm', p, v);
    PrivateMaps(AllPrivate(vm), AllPrivate(vm'), p, PrivatePages(vm', p));
    assert SharedPages(vm') == SharedPages(vm);
  }

  lemma PrivateMaps(m: map<nat, imap<nat, Page>>, m': map<nat, imap<nat, Page>>, p: nat, pages: imap<nat, Page>)
    requires p in m && m'.Keys == m.Keys && m'[p] == pages
    requires forall q | q in m && q != p :: m'[q] == m[q]
    ensures m' == m[p := pages]
  {
  }
}
