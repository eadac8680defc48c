/**
 * Copy-on-write virtual memory as a value: page tables, frames and their
 * reference counts, and the shared-region page cache.
 *
 * `EagerVm` is the reference: every address space owns its pages outright and
 * fork duplicates them.
 */
module CowState {
  import opened Basics

  const PAGE_SIZE: nat := 4096

  /** Virtual pages under the first 511 top-level entries; the last entry is the kernel's. */
  const USER_PAGES: nat := 511 * 0x800_0000

  newtype byte = x: int | 0 <= x < 256

  type Page = s: seq<byte> | |s| == PAGE_SIZE witness seq(PAGE_SIZE, _ => 0)

  function ZeroPage(): (p: Page)
  {
    seq(PAGE_SIZE, _ => 0)
  }

  function SetByte(page: Page, ofs: nat, b: byte): (r: Page)
    requires ofs < PAGE_SIZE
  {
    page[ofs := b]
  }

  /** A leaf page-table entry; `frame` is zero unless the entry is present. */
  datatype Pte = Pte(frame: nat, present: bool, writable: bool)

  datatype Kind = Stack | Heap | Image | Shared(store: nat)

  /** A memory region of `len` pages from virtual page `start`. */
  datatype Region = Region(start: nat, len: nat, urw: bool, kind: Kind) {
    predicate Contains(v: nat)
    {
      start <= v < start + len
    }

    /** Pages of these regions appear on first touch. */
    predicate OnDemand()
    {
      kind.Stack? || kind.Heap?
    }
  }

  /** `as_find_memregion` for one page. */
  function Find(rs: seq<Region>, v: nat): (r: Option<Region>)
    ensures r.Some? ==> r.value in rs && r.value.Contains(v)
    ensures r.None? ==> forall s | s in rs :: !s.Contains(v)
  {
    if rs == [] then None
    else if rs[0].Contains(v) then Some(rs[0])
    else Find(rs[1..], v)
  }

  ghost predicate RegionsOk(rs: seq<Region>)
  {
    && (forall i, j | 0 <= i < j < |rs| :: forall v: nat :: !(rs[i].Contains(v) && rs[j].Contains(v)))
    && (forall r | r in rs :: (!r.kind.Image? ==> r.urw) && r.start + r.len <= 0xF_F800_0000)
  }

  datatype Proc = Proc(regions: seq<Region>, pt: map<nat, Pte>)

  /**
   * `refcnt` has the allocated page frames, `pool` the free ones. `cache` maps
   * page i of store s to the frame that holds it.
   */
  datatype Vm = Vm(procs: map<nat, Proc>, refcnt: map<nat, nat>, data: map<nat, Page>,
                   cache: map<(nat, nat), nat>, pool: set<nat>)

  /** Process p has a present entry for virtual page v. */
  ghost predicate Maps(procs: map<nat, Proc>, p: nat, v: nat)
  {
    p in procs && v in procs[p].pt && procs[p].pt[v].present
  }

  ghost function FrameOf(procs: map<nat, Proc>, p: nat, v: nat): nat
    requires Maps(procs, p, v)
  {
    procs[p].pt[v].frame
  }

  ghost function RegionOf(procs: map<nat, Proc>, p: nat, v: nat): Option<Region>
    requires p in procs
  {
    Find(procs[p].regions, v)
  }

  /** All present entries, in all address spaces, that name frame f. */
  ghost function Mappers(procs: map<nat, Proc>, f: nat): set<(nat, nat)>
  {
    set p, v | p in procs && v in procs[p].pt && procs[p].pt[v].present && procs[p].pt[v].frame == f :: (p, v)
  }

  ghost function CacheRef(cache: map<(nat, nat), nat>, f: nat): nat
  {
    if f in cache.Values then 1 else 0
  }

  /** A present entry lies in a region and names an allocated frame of the right kind. */
  ghost predicate EntryOk(vm: Vm, p: nat, v: nat)
    requires Maps(vm.procs, p, v)
  {
    var f := FrameOf(vm.procs, p, v);
    var r := RegionOf(vm.procs, p, v);
    && f in vm.refcnt && r.Some?
    && (if r.value.kind.Shared? then
          (r.value.kind.store, v - r.value.start) in vm.cache && vm.cache[(r.value.kind.store, v - r.value.start)] == f
          && vm.procs[p].pt[v].writable
        else
          f !in vm.cache.Values)
    && (vm.procs[p].pt[v].writable ==> r.value.urw && (r.value.kind.Shared? || Mappers(vm.procs, f) == {(p, v)}))
  }

  ghost predicate CountsOk(vm: Vm)
  {
    && (forall f | f in vm.refcnt :: vm.refcnt[f] > 0 && vm.refcnt[f] == |Mappers(vm.procs, f)| + CacheRef(vm.cache, f))
    && (forall f | f in vm.refcnt :: f > 0 && f !in vm.pool && f in vm.data)
    && (forall f | f in vm.pool :: f > 0 && f in vm.data)
  }

  ghost predicate CacheOk(vm: Vm)
  {
    && (forall k | k in vm.cache :: vm.cache[k] in vm.refcnt)
    && (forall k, l | k in vm.cache && l in vm.cache && k != l :: vm.cache[k] != vm.cache[l])
  }

  ghost predicate Inv(vm: Vm)
  {
    && (forall p | p in vm.procs :: RegionsOk(vm.procs[p].regions))
    && (forall p, v | p in vm.procs && v in vm.procs[p].pt && !vm.procs[p].pt[v].present :: vm.procs[p].pt[v].frame == 0)
    && (forall p, v {:trigger EntryOk(vm, p, v)} | Maps(vm.procs, p, v) :: EntryOk(vm, p, v))
    && CountsOk(vm) && CacheOk(vm)
  }

  /** The bytes of frame f. */
  ghost function Bytes(vm: Vm, f: nat): Page
  {
    if f in vm.data then vm.data[f] else ZeroPage()
  }

  /** What process p sees at page v of its private regions; nothing where an access kills it. */
  ghost function PrivatePage(vm: Vm, p: nat, v: nat): Option<Page>
    requires p in vm.procs
  {
    var r := RegionOf(vm.procs, p, v);
    if r.None? || r.value.kind.Shared? then None
    else if Maps(vm.procs, p, v) then Some(Bytes(vm, FrameOf(vm.procs, p, v)))
    else if r.value.OnDemand() then Some(ZeroPage())
    else None
  }

  ghost function PrivatePages(vm: Vm, p: nat): imap<nat, Page>
    requires p in vm.procs
  {
    imap v: nat | PrivatePage(vm, p, v).Some? :: PrivatePage(vm, p, v).value
  }

  ghost function SharedPage(vm: Vm, k: (nat, nat)): Page
  {
    if k in vm.cache then Bytes(vm, vm.cache[k]) else ZeroPage()
  }

  ghost function SharedPages(vm: Vm): imap<(nat, nat), Page>
  {
    imap k: (nat, nat) :: SharedPage(vm, k)
  }

  // --- The reference machine ---

  /** Private pages per process and the pages of every shared store. */
  datatype EagerVm = EagerVm(regions: map<nat, seq<Region>>, priv: map<nat, imap<nat, Page>>, shm: imap<(nat, nat), Page>)

  ghost function AllRegions(procs: map<nat, Proc>): map<nat, seq<Region>>
  {
    map p | p in procs :: procs[p].regions
  }

  ghost function AllPrivate(vm: Vm): map<nat, imap<nat, Page>>
  {
    map p | p in vm.procs :: PrivatePages(vm, p)
  }

  ghost function Abs(vm: Vm): EagerVm
  {
    EagerVm(AllRegions(vm.procs), AllPrivate(vm), SharedPages(vm))
  }

  /** Duplicates the regions and every page of process p under the new name c. */
  ghost function EagerFork(e: EagerVm, p: nat, c: nat): EagerVm
    requires p in e.regions && p in e.priv
  {
    EagerVm(e.regions[c := e.regions[p]], e.priv[c := e.priv[p]], e.shm)
  }

  ghost function EagerExit(e: EagerVm, p: nat): EagerVm
  {
    EagerVm(e.regions - {p}, e.priv - {p}, e.shm)
  }

  /** The page process p sees at v, private or shared. */
  ghost function EagerPage(e: EagerVm, p: nat, v: nat): Option<Page>
    requires p in e.regions && p in e.priv && (forall k: (nat, nat) :: k in e.shm)
  {
    var r := Find(e.regions[p], v);
    if r.None? then None
    else if r.value.kind.Shared? then Some(e.shm[(r.value.kind.store, v - r.value.start)])
    else if v in e.priv[p] then Some(e.priv[p][v])
    else None
  }

  ghost function Put(pages: imap<nat, Page>, v: nat, page: Page): imap<nat, Page>
  {
    pages[v := page]
  }

  /** Stores one byte in the page process p sees at v. */
  ghost function EagerStore(e: EagerVm, p: nat, v: nat, ofs: nat, b: byte): EagerVm
    requires p in e.regions && p in e.priv && (forall k: (nat, nat) :: k in e.shm)
    requires EagerPage(e, p, v).Some? && ofs < PAGE_SIZE
  {
    var r := Find(e.regions[p], v).value;
    var page := SetByte(EagerPage(e, p, v).value, ofs, b);
    if r.kind.Shared? then
      EagerVm(e.regions, e.priv, e.shm[(r.kind.store, v - r.start) := page])
    else
      EagerVm(e.regions, e.priv[p := Put(e.priv[p], v, page)], e.shm)
  }
}
