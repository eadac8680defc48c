/**
 * The page-table operations, updating tables in place: walking with and
 * without allocation, mapping a range, looking an address up, and creating an
 * address space.
 */
module PageTables {
  import opened Basics
  import opened PageWalk
  import opened PageTeardown

  const PAGE_SIZE: nat := 4096
  /** Addresses are 64-bit words. */
  const WORD: nat := 0x1_0000_0000_0000_0000
  /** Page numbers of 64-bit addresses. */
  const WORD_PAGES: nat := 0x10_0000_0000_0000
  /** Physical page numbers that fit an entry (bits 12 to 50). */
  const PPNS: nat := 0x80_0000_0000

  /** Number of pages `map_pages` visits: from the page of `vaddr` up to, not including, the page of `vaddr + size`, around the end of memory. */
  ghost function PagesIn(vaddr: nat, size: nat): (n: nat)
  {
    ((((vaddr + size) % 0x1_0000_0000_0000_0000) / 4096) - vaddr / 4096) % 0x10_0000_0000_0000
  }

  /** The i-th page from page `v0` on has page number v. */
  predicate Hits(v0: nat, i: nat, v: nat)
  {
    (v0 + i) % 0x10_0000_0000 == v
  }

  /** The last of the first n pages from page `v0` on whose page number is v, as an offset. */
  function Target(v0: nat, n: nat, v: nat): (r: Option<nat>)
    ensures r.Some? ==> r.value < n && Hits(v0, r.value, v)
    ensures r.None? ==> forall i: nat | i < n :: !Hits(v0, i, v)
  {
    if n == 0 then None
    else if Hits(v0, n - 1, v) then Some(n - 1)
    else Target(v0, n - 1, v)
  }

  /** The flat effect of mapping n pages. */
  ghost function Mapped(old_: Option<Entry>, v0: nat, p0: nat, n: nat, v: nat, w: bool, u: bool): Option<Entry>
  {
    match Target(v0, n, v)
    case Some(i) => Some(Entry((p0 + i) % 0x80_0000_0000, true, w, u))
    case None => old_
  }

  /** A range that does not wrap has its own pages, each at its own offset. */
  lemma PlainRange(vaddr: nat, paddr: nat, size: nat, a: nat)
    requires vaddr % 4096 == 0 && paddr % 4096 == 0 && size % 4096 == 0 && vaddr <= a < vaddr + size
    requires vaddr + size <= 0x1_0000_0000_0000 && paddr + size <= 0x8_0000_0000_0000
    ensures var (v, i) := (a / 4096 % 0x10_0000_0000, (a - vaddr) / 4096);
            && Target(vaddr / 4096, PagesIn(vaddr, size), v) == Some(i)
            && (paddr / 4096 + i) % 0x80_0000_0000 * 4096 + a % 4096 == paddr + (a - vaddr)
  {
    var i := (a - vaddr) / 4096;
    PlainPages(vaddr, size);
    PlainOffset(vaddr, paddr, size, a);
    TargetUnique(vaddr / 4096, size / 4096, a / 4096, i);
  }

  lemma PlainPages(vaddr: nat, size: nat)
    requires vaddr % 4096 == 0 && size % 4096 == 0 && vaddr + size <= 0x1_0000_0000_0000
    ensures PagesIn(vaddr, size) == size / 4096 <= 0x10_0000_0000
  {
    assert (vaddr + size) / 4096 == vaddr / 4096 + size / 4096;
  }

  lemma PlainOffset(vaddr: nat, paddr: nat, size: nat, a: nat)
    requires vaddr % 4096 == 0 && paddr % 4096 == 0 && size % 4096 == 0 && vaddr <= a < vaddr + size
    requires vaddr + size <= 0x1_0000_0000_0000 && paddr + size <= 0x8_0000_0000_0000
    ensures var i := (a - vaddr) / 4096;
            && i < size / 4096 && a / 4096 == vaddr / 4096 + i < 0x10_0000_0000
            && (paddr / 4096 + i) % 0x80_0000_0000 * 4096 + a % 4096 == paddr + (a - vaddr)
  {
    var x, p, i := vaddr / 4096, paddr / 4096, (a - vaddr) / 4096;
    assert vaddr == 4096 * x && paddr == 4096 * p;
    assert a == 4096 * (x + i) + a % 4096;
    assert p + i < 0x80_0000_0000;
  }

  /** Ranges of at most all 2^36 pages have one offset per page. */
  lemma TargetUnique(v0: nat, n: nat, v: nat, i: nat)
    requires n <= PAGES && i < n && Hits(v0, i, v)
    ensures Target(v0, n, v) == Some(i)
  {
    var r := Target(v0, n, v);
    assert r.Some?;
    var j := r.value;
    assert (v0 + i) % PAGES == (v0 + j) % PAGES;
    assert (v0 + i) / PAGES * PAGES + (v0 + i) % PAGES == v0 + i;
    assert (v0 + j) / PAGES * PAGES + (v0 + j) % PAGES == v0 + j;
  }

  /** The loop variables of `map_pages` after i of n pages. */
  ghost predicate Cursor(v0: nat, p0: nat, i: nat, n: nat, v: nat, p: nat, end: nat)
  {
    && v < WORD_PAGES && end < WORD_PAGES && i <= n
    && v == (v0 + i) % WORD_PAGES && p == (p0 + i) % WORD_PAGES && n - i == (end - v) % WORD_PAGES
  }

  lemma CursorStart(vaddr: nat, paddr: nat, size: nat)
    requires vaddr < WORD && paddr < WORD
    ensures Cursor(vaddr / PAGE_SIZE, paddr / PAGE_SIZE, 0, PagesIn(vaddr, size),
                   vaddr / PAGE_SIZE, paddr / PAGE_SIZE, ((vaddr + size) % WORD) / PAGE_SIZE)
  {
  }

  /** Page counting survives the wrap at the end of the address space, and the loop ends at its end page. */
  lemma CursorStep(v0: nat, p0: nat, i: nat, n: nat, v: nat, p: nat, end: nat)
    requires Cursor(v0, p0, i, n, v, p, end) && v != end
    ensures i < n && Cursor(v0, p0, i + 1, n, (v + 1) % WORD_PAGES, (p + 1) % WORD_PAGES, end)
    ensures v % PAGES == (v0 + i) % PAGES && p % PPNS == (p0 + i) % PPNS
  {
    NextPage(v, end);
    StepMod(v0, i);
    StepMod(p0, i);
  }

  lemma CursorEnd(v0: nat, p0: nat, i: nat, n: nat, v: nat, p: nat)
    requires Cursor(v0, p0, i, n, v, p, v)
    ensures i == n
  {
  }

  lemma NextPage(v: nat, end: nat)
    requires v < WORD_PAGES && end < WORD_PAGES && v != end
    ensures (end - v) % WORD_PAGES > 0
    ensures (end - (v + 1) % WORD_PAGES) % WORD_PAGES == (end - v) % WORD_PAGES - 1
  {
  }

  lemma StepMod(a: nat, i: nat)
    ensures ((a + i) % WORD_PAGES + 1) % WORD_PAGES == (a + i + 1) % WORD_PAGES
    ensures ((a + i) % WORD_PAGES) % PAGES == (a + i) % PAGES
    ensures ((a + i) % WORD_PAGES) % PPNS == (a + i) % PPNS
  {
  }

  /** No root loses or gains a translation. */
  ghost predicate SameFlat(m: Tabs, m': Tabs)
  {
    && (forall r: nat | Root(m, r) :: Root(m', r))
    && (forall r: nat, v: nat {:trigger Translate(m', r, v)} | Root(m, r) && v < PAGES :: Translate(m', r, v) == Translate(m, r, v))
  }

  /** Tables stay where they are and present entries above the leaves stay. */
  ghost predicate Extends(m: Tabs, m': Tabs)
  {
    && m'.kroot == m.kroot
    && (forall t | t in m.tables :: t in m'.tables)
    && (forall t | t in m.pos :: t in m'.pos && m'.pos[t] == m.pos[t])
    && (forall t, i | t in m.tables && t in m'.tables && 0 <= i < ENTRIES && m.tables[t][i].present ::
          m'.tables[t][i] == m.tables[t][i])
  }

  lemma SameFlatChain(m: Tabs, m1: Tabs, m2: Tabs)
    requires SameFlat(m, m1) && SameFlat(m1, m2)
    ensures SameFlat(m, m2)
  {
    forall r: nat, v: nat | Root(m, r) && v < PAGES ensures Translate(m2, r, v) == Translate(m, r, v) {
      assert Translate(m1, r, v) == Translate(m, r, v);
    }
  }

  /** A range that the kernel maps for itself. */
  datatype Mapping = Mapping(vaddr: nat, paddr: nat, size: nat, writable: bool)

  /** What page v of the kernel is mapped to by the first n mappings. */
  ghost function KernelMap(maps: seq<Mapping>, n: nat, v: nat): Option<Entry>
    requires n <= |maps|
  {
    if n == 0 then None else
      var k := maps[n - 1];
      Mapped(KernelMap(maps, n - 1, v), k.vaddr / 4096, k.paddr / 4096, PagesIn(k.vaddr, k.size), v, k.writable, false)
  }

  class PageTables {
    var tables: map<nat, Table>
    var pool: set<nat>
    /** Record of the calls to the physical allocator: page and frame of every lost reference, and every table freed. */
    ghost var dropped: seq<(nat, nat)>
    ghost var freed: seq<nat>
    const kroot: nat
    ghost var pos: map<nat, Pos>

    ghost function Snapshot(): Snap
      reads this
    {
      Snap(tables, dropped, freed, pool)
    }

    ghost function State(): Tabs
      reads this
    {
      Tabs(tables, pos, kroot)
    }

    ghost predicate Valid()
      reads this
    {
      Inv(State()) && forall f | f in pool :: f !in tables
    }

    /** Before `vpmap_init` has mapped anything there is the kernel's empty root. */
    constructor (root: nat, frames: set<nat>)
      requires root !in frames
      ensures Valid() && kroot == root && pool == frames && Root(State(), root) && dropped == [] && freed == []
      ensures forall v: nat | v < PAGES :: Translate(State(), root, v) == None
    {
      tables, pool, kroot, pos := map[root := EmptyTable()], frames, root, map[root := Pos(root, 4, 0, root)];
      dropped, freed := [], [];
    }

    /** `vpmap_init`: the kernel's pages are mapped, the later mappings over the earlier ones; a failure is a panic. */
    method Boot(maps: seq<Mapping>) returns (ok: bool)
      requires Valid() && Root(State(), kroot) && forall v: nat | v < PAGES :: Translate(State(), kroot, v) == None
      requires forall i | 0 <= i < |maps| :: maps[i].vaddr < WORD && maps[i].paddr < WORD
      modifies this
      ensures Valid() && (!ok ==> pool == {})
      ensures ok ==> Root(State(), kroot) && forall v: nat | v < PAGES :: Translate(State(), kroot, v) == KernelMap(maps, |maps|, v)
      ensures ok && (exists v: nat | v < PAGES && Index(v, 4) == KERNEL_SLOT :: KernelMap(maps, |maps|, v).Some?) ==> Booted(State())
    {
      for i := 0 to |maps|
        invariant Valid() && Root(State(), kroot)
        invariant forall v: nat | v < PAGES :: Translate(State(), kroot, v) == KernelMap(maps, i, v)
      {
        ok := MapPages(kroot, maps[i].vaddr, maps[i].paddr, maps[i].size, maps[i].writable, false);
        if !ok {
          return;
        }
      }
      return true;
    }

    /** One level of `find_pte`: follows entry i of table t, with a fresh zeroed table where there is none. */
    method NextTable(t: nat, i: nat, alloc: bool) returns (r: Option<nat>)
      requires Valid() && t in tables && pos[t].level > 1 && i < ENTRIES
      modifies this
      ensures Valid() && Extends(old(State()), State()) && SameFlat(old(State()), State())
      ensures Booted(old(State())) ==> Booted(State())
      ensures !alloc ==> State() == old(State()) && pool == old(pool)
      ensures r.Some? ==> t in tables && tables[t][i].present && tables[t][i].ppn == r.value
      ensures r.None? ==> State() == old(State()) && !tables[t][i].present && (alloc ==> pool == {})
    {
      if tables[t][i].present {
        return Some(tables[t][i].ppn);
      }
      if !alloc || pool == {} {
        return None;
      }
      var c :| c in pool;
      ghost var m := State();
      AddTableKeeps(m, t, i, c);
      pool := pool - {c};
      tables := tables[c := EmptyTable()][t := tables[t][i := Entry(c, true, true, true)]];
      pos := pos[c := Pos(pos[t].root, pos[t].level - 1, pos[t].prefix * ENTRIES + i, t)];
      assert State() == AddTable(m, t, i, c);
      forall r: nat, v: nat | Root(m, r) && v < PAGES ensures Translate(State(), r, v) == Translate(m, r, v) {
        AddTableFlat(m, t, i, c, r, v);
      }
      return Some(c);
    }

    /** `find_pte`: the leaf table for page v; allocation shows in no translation. */
    method FindPte(root: nat, v: nat, alloc: bool) returns (r: Option<nat>)
      requires Valid() && Root(State(), root)
      modifies this
      ensures Valid() && Extends(old(State()), State()) && SameFlat(old(State()), State())
      ensures Booted(old(State())) ==> Booted(State())
      ensures !alloc ==> State() == old(State()) && pool == old(pool)
      ensures r.Some? ==> Walk(State(), root, 4, v) == r
      ensures r.None? && !alloc ==> Walk(State(), root, 4, v).None?
      ensures r.None? && alloc ==> pool == {}
    {
      var t3 := NextTable(root, Index(v, 4), alloc);
      if t3.None? {
        return None;
      }
      LinkLevel(State(), root, Index(v, 4));
      ghost var m1 := State();
      var t2 := NextTable(t3.value, Index(v, 3), alloc);
      SameFlatChain(old(State()), m1, State());
      if t2.None? {
        WalkStuck(State(), root, t3.value, v);
        return None;
      }
      LinkLevel(State(), t3.value, Index(v, 3));
      ghost var m2 := State();
      r := NextTable(t2.value, Index(v, 2), alloc);
      SameFlatChain(old(State()), m2, State());
      if r.Some? {
        LinkLevel(State(), t2.value, Index(v, 2));
      }
      WalkUnfold(State(), root, t3.value, t2.value, v);
    }

    /** Stores the entry `map_pages` builds for page v. */
    method WriteLeaf(root: nat, v: nat, t: nat, e: Entry)
      requires Valid() && Root(State(), root) && v < PAGES && Walk(State(), root, 4, v) == Some(t)
      modifies `tables
      ensures t in old(tables) && State() == SetLeaf(old(State()), t, Index(v, 1), e) && Valid()
      ensures Booted(old(State())) ==> Booted(State())
    {
      RootWalk(State(), root, v);
      SetLeafKeeps(State(), t, Index(v, 1), e);
      tables := tables[t := tables[t][Index(v, 1) := e]];
    }

    /**
     * `map_pages`: exactly the visited pages translate to consecutive frames
     * with the given permission, and no other translation changes. A failed
     * call has mapped a leading part of the range.
     */
    method MapPages(root: nat, vaddr: nat, paddr: nat, size: nat, w: bool, u: bool) returns (ok: bool)
      requires Valid() && Root(State(), root) && vaddr < WORD && paddr < WORD
      modifies this
      ensures Valid() && (Booted(old(State())) ==> Booted(State()))
      ensures ok ==> Root(State(), root) && MapPost(old(State()), State(), root, vaddr / 4096, paddr / 4096, PagesIn(vaddr, size), w, u)
      ensures !ok ==> pool == {}
      ensures !ok ==> exists n: nat | n < PagesIn(vaddr, size) ::
        MapPost(old(State()), State(), root, vaddr / 4096, paddr / 4096, n, w, u)
    {
      var v: nat, end: nat, p: nat := vaddr / PAGE_SIZE, ((vaddr + size) % WORD) / PAGE_SIZE, paddr / PAGE_SIZE;
      ghost var v0, p0, n: nat, i: nat := v, p, PagesIn(vaddr, size), 0;
      CursorStart(vaddr, paddr, size);
      while v != end
        invariant Valid() && Root(State(), root) && Cursor(v0, p0, i, n, v, p, end)
        invariant Booted(old(State())) ==> Booted(State())
        invariant MapPost(old(State()), State(), root, v0, p0, i, w, u)
        decreases n - i
      {
        CursorStep(v0, p0, i, n, v, p, end);
        ok := MapOne(root, v % PAGES, Entry(p % PPNS, true, w, u), old(State()), v0, p0, i);
        if !ok {
          return;
        }
        v, p, i := (v + 1) % WORD_PAGES, (p + 1) % WORD_PAGES, i + 1;
      }
      CursorEnd(v0, p0, i, n, v, p);
      return true;
    }

    /** One round of `map_pages`. */
    method MapOne(root: nat, v: nat, e: Entry, ghost m0: Tabs, ghost v0: nat, ghost p0: nat, ghost i: nat) returns (ok: bool)
      requires Valid() && Root(State(), root) && v < PAGES && v == (v0 + i) % PAGES
      requires e.present && e.ppn == (p0 + i) % PPNS && MapPost(m0, State(), root, v0, p0, i, e.writable, e.user)
      modifies this
      ensures Valid() && Root(State(), root) && (Booted(old(State())) ==> Booted(State()))
      ensures ok ==> MapPost(m0, State(), root, v0, p0, i + 1, e.writable, e.user)
      ensures !ok ==> pool == {} && MapPost(m0, State(), root, v0, p0, i, e.writable, e.user)
    {
      ghost var m1 := State();
      var pte := FindPte(root, v, true);
      MapSameFlat(m0, m1, State(), root, v0, p0, i, e.writable, e.user);
      if pte.None? {
        return false;
      }
      ghost var m2 := State();
      WriteLeaf(root, v, pte.value, e);
      MapStep(m0, m2, root, v0, p0, i, v, e);
      return true;
    }

    /** `vpmap_lookup_vaddr`: the physical address behind a virtual one, if its page is present. */
    method LookupVaddr(root: nat, vaddr: nat) returns (r: Option<nat>)
      requires Valid() && Root(State(), root)
      modifies this
      ensures State() == old(State())
      ensures var t := Hardware(tables, root, vaddr); r == if t.Some? then Some(t.value.ppn * 4096 + vaddr % 4096) else None
    {
      WalkIsHardware(State(), root, vaddr);
      var v := (vaddr / PAGE_SIZE) % PAGES;
      var t := FindPte(root, v, false);
      if t.None? {
        return None;
      }
      RootWalk(State(), root, v);
      var e := tables[t.value][Index(v, 1)];
      return if e.present then Some(e.ppn * PAGE_SIZE + vaddr % PAGE_SIZE) else None;
    }

    /** A range of whole pages that was mapped is looked up byte for byte, in the lower half of the address space. */
    method MapThenLookup(root: nat, vaddr: nat, paddr: nat, size: nat, w: bool, u: bool, a: nat) returns (ok: bool, r: Option<nat>)
      requires Valid() && Root(State(), root) && vaddr % 4096 == 0 && paddr % 4096 == 0 && size % 4096 == 0
      requires vaddr + size <= 0x1_0000_0000_0000 && paddr + size <= 0x8_0000_0000_0000
      modifies this
      ensures !ok ==> pool == {}
      ensures ok && vaddr <= a < vaddr + size ==> r == Some(paddr + (a - vaddr))
      ensures ok && vaddr <= a < vaddr + size ==> Hardware(tables, root, a) == Some(Entry(r.value / 4096, true, w, u))
    {
      r := None;
      ok := MapPages(root, vaddr, paddr, size, w, u);
      if ok && vaddr <= a < vaddr + size {
        PlainRange(vaddr, paddr, size, a);
        WalkIsHardware(State(), root, a);
        r := LookupVaddr(root, a);
      }
    }

    /** `vpmap_create` with `vpmap_copy_kernel_mapping`: a root with the kernel's pages and no user page. */
    method Create() returns (r: Option<nat>)
      requires Valid() && Booted(State())
      modifies this
      ensures Valid() && Booted(State()) && (r.None? <==> old(pool) == {}) && (r.None? ==> State() == old(State()))
      ensures r.Some? ==> Root(State(), r.value) && r.value !in old(tables) && SameFlat(old(State()), State())
      ensures r.Some? ==> forall v: nat | v < PAGES ::
        Translate(State(), r.value, v) == if v >= 511 * 0x800_0000 then Translate(old(State()), kroot, v) else None
    {
      if pool == {} {
        return None;
      }
      var c :| c in pool;
      ghost var m := State();
      AddRootKeeps(m, c);
      pool := pool - {c};
      tables := tables[c := EmptyTable()[KERNEL_SLOT := tables[kroot][KERNEL_SLOT]]];
      pos := pos[c := Pos(c, 4, 0, c)];
      assert State() == AddRoot(m, c);
      forall q: nat, v: nat | (Root(m, q) || q == c) && v < PAGES
        ensures q != c ==> Translate(State(), q, v) == Translate(m, q, v)
        ensures q == c ==> Translate(State(), q, v) == if Index(v, 4) == KERNEL_SLOT then Translate(m, kroot, v) else None
      {
        AddRootFlat(m, c, q, v);
      }
      return Some(c);
    }

    /** The innermost loop of `unmap_pd`: `clear_pte` on every entry of a leaf table. */
    method ClearTable(t: nat, ghost m: Tabs)
      requires Inv(m) && t in m.tables && m.pos[t].level == 1 && (m.pos[t].prefix + 1) * ENTRIES <= PAGES
      requires t in tables && tables[t] == m.tables[t]
      modifies `tables, `dropped
      ensures t in tables && tables == old(tables)[t := tables[t]] && (forall i | 0 <= i < ENTRIES :: !tables[t][i].present)
      ensures dropped == old(dropped) +
              Drops(m, m.pos[t].root, m.pos[t].prefix * ENTRIES, (m.pos[t].prefix + 1) * ENTRIES)
    {
      ghost var root, lo := m.pos[t].root, m.pos[t].prefix * ENTRIES;
      for i := 0 to ENTRIES
        invariant t in tables && tables == old(tables)[t := tables[t]]
        invariant forall j | 0 <= j < i :: !tables[t][j].present
        invariant forall j | i <= j < ENTRIES :: tables[t][j] == m.tables[t][j]
        invariant dropped == old(dropped) + Drops(m, root, lo, lo + i)
      {
        LeafPage(m, t, i);
        if tables[t][i].present {
          dropped := dropped + [(lo + i, tables[t][i].ppn)];
        }
        tables := tables[t := tables[t][i := NO_ENTRY]];
      }
    }

    /** `pmem_free` of a table's frame. */
    method FreeTable(t: nat)
      requires t in tables && t !in pool
      modifies `tables, `pool, `freed
      ensures Snapshot() == Snap(old(tables) - {t}, dropped, old(freed) + [t], old(pool) + {t})
    {
      tables := tables - {t};
      pool := pool + {t};
      freed := freed + [t];
    }

    /** One entry of `unmap_pd`: a leaf table is cleared, then freed. */
    method UnmapLeaf(t: nat, i: nat, ghost m: Tabs, ghost root: nat, ghost start: Snap)
      requires Inv(m) && i < ENTRIES && Standing(m, root, t, 2, start)
      requires var lo := m.pos[t].prefix * ENTRIES; Torn(m, root, 1, lo, lo + i, start, Snapshot())
      modifies `tables, `pool, `dropped, `freed
      ensures var lo := m.pos[t].prefix * ENTRIES; Torn(m, root, 1, lo, lo + i + 1, start, Snapshot())
    {
      ghost var a, lo := Snapshot(), m.pos[t].prefix * ENTRIES;
      StandingEntry(m, root, t, 2, i, start, a);
      if tables[t][i].present {
        var c := tables[t][i].ppn;
        ClearTable(c, m);
        FreeTable(c);
        assert tables == a.tables - {c};
        TornLeaf(m, root, c, a);
      } else {
        TornAbsent(m, root, t, 1, i, a);
      }
      TornChain(m, root, 1, lo, lo + i, lo + i + 1, start, a, Snapshot());
    }

    /** `unmap_pd` over all 512 entries. */
    method UnmapPd(t: nat, ghost m: Tabs, ghost root: nat)
      requires Inv(m) && Standing(m, root, t, 2, Snapshot())
      modifies `tables, `pool, `dropped, `freed
      ensures var p := m.pos[t].prefix; Torn(m, root, 1, p * ENTRIES, (p + 1) * ENTRIES, old(Snapshot()), Snapshot())
    {
      ghost var a, lo := Snapshot(), m.pos[t].prefix * ENTRIES;
      TornNothing(m, root, 1, lo, a);
      for i := 0 to ENTRIES
        invariant Torn(m, root, 1, lo, lo + i, a, Snapshot())
      {
        UnmapLeaf(t, i, m, root, a);
      }
    }

    /** One entry of `unmap_pdpt`: a page directory is unmapped, then freed. */
    method UnmapPdTable(t: nat, i: nat, ghost m: Tabs, ghost root: nat, ghost start: Snap)
      requires Inv(m) && i < ENTRIES && Standing(m, root, t, 3, start)
      requires var lo := m.pos[t].prefix * ENTRIES; Torn(m, root, 2, lo, lo + i, start, Snapshot())
      modifies `tables, `pool, `dropped, `freed
      ensures var lo := m.pos[t].prefix * ENTRIES; Torn(m, root, 2, lo, lo + i + 1, start, Snapshot())
    {
      ghost var a, lo := Snapshot(), m.pos[t].prefix * ENTRIES;
      StandingEntry(m, root, t, 3, i, start, a);
      if tables[t][i].present {
        var c := tables[t][i].ppn;
        UnmapPd(c, m, root);
        StillThere(m, root, c, 2, a, Snapshot());
        TornUp(m, root, 2, c, a, Snapshot());
        FreeTable(c);
      } else {
        TornAbsent(m, root, t, 2, i, a);
      }
      TornChain(m, root, 2, lo, lo + i, lo + i + 1, start, a, Snapshot());
    }

    /** `unmap_pdpt` over all 512 entries. */
    method UnmapPdpt(t: nat, ghost m: Tabs, ghost root: nat)
      requires Inv(m) && Standing(m, root, t, 3, Snapshot())
      modifies `tables, `pool, `dropped, `freed
      ensures var p := m.pos[t].prefix; Torn(m, root, 2, p * ENTRIES, (p + 1) * ENTRIES, old(Snapshot()), Snapshot())
    {
      ghost var a, lo := Snapshot(), m.pos[t].prefix * ENTRIES;
      TornNothing(m, root, 2, lo, a);
      for i := 0 to ENTRIES
        invariant Torn(m, root, 2, lo, lo + i, a, Snapshot())
      {
        UnmapPdTable(t, i, m, root, a);
      }
    }

    /** One entry of `unmap_pages`: a page-directory-pointer table is unmapped, then freed. */
    method UnmapPdptTable(t: nat, i: nat, ghost m: Tabs, ghost root: nat)
      requires Inv(m) && i < ENTRIES && EntryStands(m, root, t, 4, i, Snapshot())
      modifies `tables, `pool, `dropped, `freed
      ensures var p := m.pos[t].prefix * ENTRIES + i; Torn(m, root, 3, p, p + 1, old(Snapshot()), Snapshot())
    {
      ghost var a := Snapshot();
      if tables[t][i].present {
        var c := tables[t][i].ppn;
        UnmapPdpt(c, m, root);
        StillThere(m, root, c, 3, a, Snapshot());
        TornUp(m, root, 3, c, a, Snapshot());
        FreeTable(c);
      } else {
        TornAbsent(m, root, t, 3, i, a);
      }
    }

    /** `unmap_pages` over the user half: top-level entries 0 to 510. */
    method UnmapPages(root: nat, ghost m: Tabs)
      requires Inv(m) && Standing(m, root, root, 4, Snapshot())
      modifies `tables, `pool, `dropped, `freed
      ensures Torn(m, root, 3, 0, KERNEL_SLOT, old(Snapshot()), Snapshot())
    {
      ghost var a := Snapshot();
      TornNothing(m, root, 3, 0, a);
      assert TableOk(m, root);
      for i := 0 to KERNEL_SLOT
        invariant Torn(m, root, 3, 0, i, a, Snapshot())
      {
        ghost var b := Snapshot();
        StandingEntry(m, root, root, 4, i, a, b);
        UnmapPdptTable(root, i, m, root);
        TornChain(m, root, 3, 0, i, i + 1, a, b, Snapshot());
      }
    }

    /**
     * `vpmap_destroy`: every present user page loses its entry once, every
     * table of the root is freed once, and no other root notices.
     */
    method Destroy(root: nat)
      requires Valid() && Root(State(), root) && root != kroot
      modifies this
      ensures Valid() && Booted(State()) && dropped == old(dropped) + Drops(old(State()), root, 0, 511 * 0x800_0000)
      ensures Enumerates(old(freed), freed, TablesOf(old(State()), root))
      ensures pool == old(pool) + TablesOf(old(State()), root)
      ensures forall r: nat | Root(old(State()), r) && r != root :: Root(State(), r)
      ensures forall r: nat, v: nat | Root(old(State()), r) && r != root && v < PAGES ::
        Translate(State(), r, v) == Translate(old(State()), r, v)
    {
      ghost var m, a := State(), Snapshot();
      UserOnly(m, root);
      AllStanding(m, root, a);
      UnmapPages(root, m);
      StillRoot(m, root, a, Snapshot());
      ghost var b := Snapshot();
      FreeTable(root);
      RootTorn(m, root, a, b);
      pos := map t | t in pos && t !in TablesOf(m, root) :: pos[t];
      assert tables == m.tables - TablesOf(m, root);
      assert State() == Without(m, root);
      WithoutKeeps(m, root);
      forall r: nat, v: nat | Root(m, r) && r != root && v < PAGES ensures Translate(State(), r, v) == Translate(m, r, v) {
        WithoutFlat(m, root, r, v);
      }
    }
  }

  /** The tables of a root, itself included. */
  ghost function TablesOf(m: Tabs, root: nat): set<nat>
  {
    set t | t in m.pos && m.pos[t].root == root
  }

  /** The root shares the kernel's tables instead of having its own under the kernel's entry. */
  ghost predicate OwnsOnlyUser(m: Tabs, root: nat)
  {
    forall t | t in m.pos && m.pos[t].root == root && m.pos[t].level == 3 :: m.pos[t].prefix < KERNEL_SLOT
  }

  /** A root other than the kernel's owns no table under the kernel's entry. */
  lemma UserOnly(m: Tabs, root: nat)
    requires Inv(m) && Root(m, root) && root != m.kroot
    ensures OwnsOnlyUser(m, root) && Booted(m)
  {
    assert SharesKernel(m, root) && TableOk(m, root) && TableOk(m, m.kroot);
    forall t | t in m.pos && m.pos[t].root == root && m.pos[t].level == 3 ensures m.pos[t].prefix < KERNEL_SLOT {
      KernelTable(m, t);
    }
  }

  /** The table under the kernel's entry belongs to the kernel's root. */
  lemma KernelTable(m: Tabs, t: nat)
    requires Inv(m) && Booted(m) && t in m.pos && m.pos[t].level == 3
    ensures m.pos[t].prefix < ENTRIES && (m.pos[t].prefix == KERNEL_SLOT ==> m.pos[t].root == m.kroot)
  {
    assert TableOk(m, t);
    var up := m.pos[t].up;
    assert TableOk(m, up) && SharesKernel(m, up) && ChildOk(m, up, m.pos[t].prefix % ENTRIES);
    assert TableOk(m, m.kroot) && ChildOk(m, m.kroot, KERNEL_SLOT);
  }

  lemma UserTables(m: Tabs, root: nat)
    requires Inv(m) && Root(m, root) && OwnsOnlyUser(m, root)
    ensures TablesOf(m, root) == Below(m, root, 3, 0, KERNEL_SLOT) + {root}
    ensures root !in Below(m, root, 3, 0, KERNEL_SLOT)
  {
    assert TableOk(m, root);
    forall t | t in m.pos ensures t in TablesOf(m, root) <==> t in Below(m, root, 3, 0, KERNEL_SLOT) || t == root {
      assert TableOk(m, t);
      if m.pos[t].root == root && m.pos[t].level < 4 {
        var a := HasAncestor(m, t, 3);
      }
    }
  }

  lemma AllStanding(m: Tabs, root: nat, a: Snap)
    requires Inv(m) && Root(m, root) && a.tables == m.tables && forall f | f in a.pool :: f !in m.tables
    ensures Standing(m, root, root, 4, a)
  {
    assert TableOk(m, root);
  }

  lemma StillRoot(m: Tabs, root: nat, a: Snap, b: Snap)
    requires Inv(m) && Root(m, root) && a.tables == m.tables && (forall f | f in a.pool :: f !in m.tables)
    requires Torn(m, root, 3, 0, KERNEL_SLOT, a, b)
    ensures root in b.tables && root !in b.pool
  {
  }

  lemma RootTorn(m: Tabs, root: nat, a: Snap, b: Snap)
    requires Inv(m) && Root(m, root) && OwnsOnlyUser(m, root) && Torn(m, root, 3, 0, KERNEL_SLOT, a, b)
    ensures Enumerates(a.freed, b.freed + [root], TablesOf(m, root))
    ensures b.pool + {root} == a.pool + TablesOf(m, root) && b.tables - {root} == a.tables - TablesOf(m, root)
    ensures b.dropped == a.dropped + Drops(m, root, 0, KERNEL_SLOT * Span(4))
  {
    UserTables(m, root);
    EnumeratesOne(b.freed, root);
    EnumeratesChain(a.freed, b.freed, b.freed + [root], Below(m, root, 3, 0, KERNEL_SLOT), {root});
  }

  ghost function Without(m: Tabs, root: nat): Tabs
  {
    Tabs(m.tables - TablesOf(m, root), map t | t in m.pos && t !in TablesOf(m, root) :: m.pos[t], m.kroot)
  }

  /** The other trees stand without this one. */
  lemma WithoutKeeps(m: Tabs, root: nat)
    requires Inv(m) && Root(m, root) && root != m.kroot
    ensures Inv(Without(m, root))
    ensures forall r: nat | Root(m, r) && r != root :: Root(Without(m, root), r)
  {
    var m' := Without(m, root);
    assert TableOk(m, m.kroot);
    forall t | t in m'.tables ensures TableOk(m', t) {
      assert TableOk(m, t);
      assert TableOk(m, m.pos[t].root);
    }
    forall t, i | t in m'.tables && 0 <= i < ENTRIES && m'.pos[t].level > 1 && m'.tables[t][i].present ensures ChildOk(m', t, i) {
      assert ChildOk(m, t, i);
    }
    forall r: nat | Root(m, r) && r != root ensures Root(m', r) {
      assert TableOk(m, r);
    }
    forall r | Root(m', r) ensures SharesKernel(m', r) {
      assert SharesKernel(m, r);
    }
  }

  lemma {:induction false} WithoutWalk(m: Tabs, root: nat, s: nat, level: nat, v: nat)
    requires Inv(m) && root != m.kroot && s in m.tables && m.pos[s].level == level && m.pos[s].root != root
    ensures Walk(Without(m, root), s, level, v) == Walk(m, s, level, v)
    ensures Walk(m, s, level, v).Some? ==>
      Walk(m, s, level, v).value in m.tables && m.pos[Walk(m, s, level, v).value].root != root
    decreases level
  {
    assert TableOk(m, s);
    if level > 1 && m.tables[s][Index(v, level)].present {
      assert ChildOk(m, s, Index(v, level));
      WithoutWalk(m, root, m.tables[s][Index(v, level)].ppn, level - 1, v);
    }
  }

  lemma WithoutFlat(m: Tabs, root: nat, r: nat, v: nat)
    requires Inv(m) && root != m.kroot && Root(m, r) && r != root
    ensures Translate(Without(m, root), r, v) == Translate(m, r, v)
  {
    assert TableOk(m, r);
    WithoutWalk(m, root, r, 4, v);
  }

  /** Table t and what hangs off its entry i are as in m, none of it free. */
  ghost predicate EntryStands(m: Tabs, root: nat, t: nat, level: nat, i: nat, b: Snap)
    requires i < ENTRIES
  {
    && 2 <= level <= 4 && t in m.tables && t in m.pos && m.pos[t].root == root && m.pos[t].level == level
    && |m.tables[t]| == ENTRIES && t in b.tables && b.tables[t] == m.tables[t]
    && (m.pos[t].prefix * ENTRIES + i + 1) * TableSpan(level - 1) <= PAGES
    && (m.tables[t][i].present ==> ChildStands(m, root, m.tables[t][i].ppn, level - 1, m.pos[t].prefix * ENTRIES + i, b))
  }

  ghost predicate ChildStands(m: Tabs, root: nat, c: nat, level: nat, prefix: nat, b: Snap)
  {
    && c in m.tables && c in m.pos && m.pos[c].root == root && m.pos[c].prefix == prefix && m.pos[c].level == level
    && c in b.tables && b.tables[c] == m.tables[c] && c !in b.pool
    && (level > 1 ==> Standing(m, root, c, level, b))
  }

  /** What tearing down the earlier entries of t leaves for entry i. */
  lemma StandingEntry(m: Tabs, root: nat, t: nat, level: nat, i: nat, a: Snap, b: Snap)
    requires Inv(m) && Standing(m, root, t, level, a) && i < ENTRIES && (level == 4 ==> i < KERNEL_SLOT)
    requires var p := m.pos[t].prefix * ENTRIES; Torn(m, root, level - 1, p, p + i, a, b)
    ensures EntryStands(m, root, t, level, i, b)
  {
    var p := m.pos[t].prefix;
    assert TableOk(m, t);
    EntryBound(p, level, i);
    if m.tables[t][i].present {
      assert ChildOk(m, t, i);
      EntryKept(m, root, t, level, i, a, b);
      StandingChild(m, root, m.tables[t][i].ppn, level - 1, p * ENTRIES + i, b);
    }
  }

  lemma StandingChild(m: Tabs, root: nat, c: nat, level: nat, p: nat, b: Snap)
    requires Inv(m) && c in m.tables && c in m.pos && 1 <= level <= 3 && m.pos[c].level == level
    requires m.pos[c].root == root && m.pos[c].prefix == p && (p + 1) * TableSpan(level) <= PAGES
    requires forall d | d in Below(m, root, level, p, p + 1) ::
      d in b.tables && d in m.tables && b.tables[d] == m.tables[d] && d !in b.pool
    ensures ChildStands(m, root, c, level, p, b)
  {
    assert TableOk(m, c);
    assert c in Below(m, root, level, p, p + 1);
    if level > 1 {
      BelowOne(m, root, level, c);
    }
  }

  /** The subtree of entry i is untouched while the earlier ones go. */
  lemma EntryKept(m: Tabs, root: nat, t: nat, level: nat, i: nat, a: Snap, b: Snap)
    requires Standing(m, root, t, level, a) && i < ENTRIES
    requires var p := m.pos[t].prefix * ENTRIES; Torn(m, root, level - 1, p, p + i, a, b)
    ensures var p := m.pos[t].prefix * ENTRIES;
            forall c | c in Below(m, root, level - 1, p + i, p + i + 1) ::
              c in b.tables && c in m.tables && b.tables[c] == m.tables[c] && c !in b.pool
  {
    var p := m.pos[t].prefix;
    BelowExtend(m, root, level - 1, p * ENTRIES, p * ENTRIES + i, (p + 1) * ENTRIES);
    BelowExtend(m, root, level - 1, p * ENTRIES + i, p * ENTRIES + i + 1, (p + 1) * ENTRIES);
  }

  lemma EntryBound(p: nat, level: nat, i: nat)
    requires 2 <= level <= 4 && i < ENTRIES
    requires if level < 4 then (p + 1) * TableSpan(level) <= PAGES else p == 0 && i < KERNEL_SLOT
    ensures (p * ENTRIES + i + 1) * TableSpan(level - 1) <= PAGES
  {
    if level < 4 {
      assert TableSpan(level) == ENTRIES * TableSpan(level - 1);
      ScaleOrder(p * ENTRIES + i + 1, (p + 1) * ENTRIES, TableSpan(level - 1));
      assert ((p + 1) * ENTRIES) * TableSpan(level - 1) == (p + 1) * TableSpan(level);
    }
  }

  lemma StillThere(m: Tabs, root: nat, c: nat, level: nat, a: Snap, b: Snap)
    requires Standing(m, root, c, level, a) && c !in a.pool
    requires var p := m.pos[c].prefix; Torn(m, root, level - 1, p * ENTRIES, (p + 1) * ENTRIES, a, b)
    ensures c in b.tables && c !in b.pool
  {
  }

  /** The subtree of table t is as in m, none of it free. */
  ghost predicate Standing(m: Tabs, root: nat, t: nat, level: nat, a: Snap)
  {
    && t in m.tables && t in m.pos && m.pos[t].root == root && m.pos[t].level == level && 2 <= level <= 4
    && (level < 4 ==> (m.pos[t].prefix + 1) * TableSpan(level) <= PAGES)
    && t in a.tables && a.tables[t] == m.tables[t]
    && (forall c | c in Below(m, root, level - 1, m.pos[t].prefix * ENTRIES, (m.pos[t].prefix + 1) * ENTRIES) ::
          c in a.tables && c in m.tables && a.tables[c] == m.tables[c] && c !in a.pool)
  }

  /** The flat meaning of mapping n pages from page v0 to frames from p0 on. */
  ghost predicate MapPost(m: Tabs, m': Tabs, root: nat, v0: nat, p0: nat, n: nat, w: bool, u: bool)
  {
    && (forall r: nat | Root(m, r) :: Root(m', r))
    && (forall v: nat | v < PAGES :: Translate(m', root, v) == Mapped(Translate(m, root, v), v0, p0, n, v, w, u))
    && (forall r: nat, v: nat {:trigger Translate(m', r, v)} |
          Root(m, r) && v < PAGES && (Target(v0, n, v).None? || (r != root && Index(v, 4) != KERNEL_SLOT)) ::
          Translate(m', r, v) == Translate(m, r, v))
  }

  lemma MapSameFlat(m0: Tabs, m1: Tabs, m2: Tabs, root: nat, v0: nat, p0: nat, n: nat, w: bool, u: bool)
    requires MapPost(m0, m1, root, v0, p0, n, w, u) && SameFlat(m1, m2) && Root(m1, root)
    ensures MapPost(m0, m2, root, v0, p0, n, w, u)
  {
    forall v: nat | v < PAGES ensures Translate(m2, root, v) == Mapped(Translate(m0, root, v), v0, p0, n, v, w, u) {
      assert Translate(m1, root, v) == Mapped(Translate(m0, root, v), v0, p0, n, v, w, u);
    }
    forall r: nat, v: nat | Root(m0, r) && v < PAGES && (Target(v0, n, v).None? || (r != root && Index(v, 4) != KERNEL_SLOT))
      ensures Translate(m2, r, v) == Translate(m0, r, v)
    {
      assert Translate(m1, r, v) == Translate(m0, r, v);
    }
  }

  lemma MapStep(m0: Tabs, m: Tabs, root: nat, v0: nat, p0: nat, i: nat, v: nat, e: Entry)
    requires Inv(m) && Root(m, root) && v < PAGES && v == (v0 + i) % PAGES && Walk(m, root, 4, v).Some?
    requires e.present && e.ppn == (p0 + i) % PPNS && MapPost(m0, m, root, v0, p0, i, e.writable, e.user)
    ensures Walk(m, root, 4, v).value in m.tables
    ensures MapPost(m0, SetLeaf(m, Walk(m, root, 4, v).value, Index(v, 1), e), root, v0, p0, i + 1, e.writable, e.user)
  {
    RootWalk(m, root, v);
    var m' := SetLeaf(m, Walk(m, root, 4, v).value, Index(v, 1), e);
    assert Hits(v0, i, v);
    forall x: nat | x < PAGES
      ensures Translate(m', root, x) == Mapped(Translate(m0, root, x), v0, p0, i + 1, x, e.writable, e.user)
    {
      SetLeafFlat(m, root, v, e, root, x);
      assert x != v ==> !Hits(v0, i, x);
    }
    forall r: nat, x: nat | Root(m0, r) && x < PAGES && (Target(v0, i + 1, x).None? || (r != root && Index(x, 4) != KERNEL_SLOT))
      ensures Translate(m', r, x) == Translate(m0, r, x)
    {
      SetLeafFlat(m, root, v, e, r, x);
      assert x != v ==> !Hits(v0, i, x);
      assert Translate(m, r, x) == Translate(m0, r, x);
    }
  }

  lemma LinkLevel(m: Tabs, t: nat, i: nat)
    requires Inv(m) && t in m.tables && m.pos[t].level > 1 && i < ENTRIES && m.tables[t][i].present
    ensures m.tables[t][i].ppn in m.tables && m.pos[m.tables[t][i].ppn].level == m.pos[t].level - 1
  {
    assert ChildOk(m, t, i);
  }

  lemma WalkStuck(m: Tabs, root: nat, t3: nat, v: nat)
    requires root in m.tables && m.tables[root][Index(v, 4)].present && m.tables[root][Index(v, 4)].ppn == t3
    requires t3 in m.tables && !m.tables[t3][Index(v, 3)].present
    ensures Walk(m, root, 4, v).None?
  {
    assert Walk(m, root, 4, v) == Walk(m, t3, 3, v);
  }

  lemma WalkUnfold(m: Tabs, root: nat, t3: nat, t2: nat, v: nat)
    requires root in m.tables && t3 in m.tables && t2 in m.tables
    requires m.tables[root][Index(v, 4)].present && m.tables[root][Index(v, 4)].ppn == t3
    requires m.tables[t3][Index(v, 3)].present && m.tables[t3][Index(v, 3)].ppn == t2
    ensures var e := m.tables[t2][Index(v, 2)];
            Walk(m, root, 4, v) == if e.present && e.ppn in m.tables then Some(e.ppn) else None
  {
    assert Walk(m, root, 4, v) == Walk(m, t3, 3, v);
    assert Walk(m, t3, 3, v) == Walk(m, t2, 2, v);
    var e := m.tables[t2][Index(v, 2)];
    if e.present {
      assert Walk(m, t2, 2, v) == Walk(m, e.ppn, 1, v);
    }
  }
}
