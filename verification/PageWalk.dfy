/**
 * Four-level page tables (section 4.5 of the Intel 64 and IA-32 Architectures
 * Software Developer's Manual, Volume 3A) as a value, and why a walk through
 * them is a flat map from virtual page numbers to entries.
 */
module PageWalk {
  import opened Basics

  const ENTRIES: nat := 512

  /** Number of virtual pages: four indices of nine bits. */
  const PAGES: nat := 0x10_0000_0000

  /** The last top-level entry is the kernel's and shared by all roots. */
  const KERNEL_SLOT: nat := 511

  datatype Entry = Entry(ppn: nat, present: bool, writable: bool, user: bool)

  const NO_ENTRY: Entry := Entry(0, false, false, false)

  type Table = t: seq<Entry> | |t| == ENTRIES witness seq(ENTRIES, _ => Entry(0, false, false, false))

  function EmptyTable(): (t: Table)
  {
    seq(ENTRIES, _ => NO_ENTRY)
  }

  /**
   * Where a table sits: in the tree of `root`, at `level` (4 is the root), for
   * the virtual pages whose leading index digits are `prefix`; `up` is its
   * parent table. The kernel stores none of this.
   */
  datatype Pos = Pos(root: nat, level: nat, prefix: nat, up: nat)

  datatype Tabs = Tabs(tables: map<nat, Table>, pos: map<nat, Pos>, kroot: nat)

  /** Pages covered by one entry of a table at this level. */
  function Span(level: nat): (r: nat)
    ensures r > 0
  {
    if level <= 1 then 1 else if level == 2 then 0x200 else if level == 3 then 0x4_0000 else 0x800_0000
  }

  /** The index digit of page v at this level. */
  function Index(v: nat, level: nat): (r: nat)
    ensures r < ENTRIES
  {
    (v / Span(level)) % ENTRIES
  }

  /** The digits of page v above this level. */
  function Prefix(v: nat, level: nat): nat
  {
    v / (Span(level) * ENTRIES)
  }

  ghost predicate ChildOk(m: Tabs, t: nat, i: nat)
    requires t in m.tables && t in m.pos && i < ENTRIES
  {
    var e := m.tables[t][i];
    var q := m.pos[t];
    && e.ppn in m.tables && e.ppn in m.pos && e.writable && e.user
    && m.pos[e.ppn].level == q.level - 1
    && m.pos[e.ppn].prefix == q.prefix * ENTRIES + i
    && (m.pos[e.ppn].root == q.root || (q.level == 4 && i == KERNEL_SLOT && m.pos[e.ppn].root == m.kroot))
  }

  ghost predicate TableOk(m: Tabs, t: nat)
    requires t in m.tables && t in m.pos
  {
    var q := m.pos[t];
    && 1 <= q.level <= 4 && q.root in m.tables && q.root in m.pos && m.pos[q.root].level == 4
    && (q.level == 4 ==> q.root == t && q.prefix == 0)
    && (q.level < 4 ==>
          && q.up in m.tables && q.up in m.pos
          && m.pos[q.up].root == q.root && m.pos[q.up].level == q.level + 1 && m.pos[q.up].prefix == q.prefix / ENTRIES
          && m.tables[q.up][q.prefix % ENTRIES].present && m.tables[q.up][q.prefix % ENTRIES].ppn == t)
  }

  /** Every table has one place in one tree, and links lead where the places say. */
  ghost predicate Inv(m: Tabs)
  {
    && m.tables.Keys == m.pos.Keys
    && m.kroot in m.tables && m.pos[m.kroot].level == 4
    && (forall t {:trigger TableOk(m, t)} | t in m.tables :: TableOk(m, t))
    && (forall t, i {:trigger ChildOk(m, t, i)} | t in m.tables && 0 <= i < ENTRIES && m.pos[t].level > 1 && m.tables[t][i].present ::
          ChildOk(m, t, i))
    && (forall r {:trigger SharesKernel(m, r)} | Root(m, r) :: SharesKernel(m, r))
  }

  /** The kernel's own root has an entry for the kernel. */
  ghost predicate Booted(m: Tabs)
  {
    m.kroot in m.tables && m.tables[m.kroot][KERNEL_SLOT].present
  }

  /** Every other root has that same entry. */
  ghost predicate SharesKernel(m: Tabs, r: nat)
    requires Root(m, r) && m.kroot in m.tables
  {
    r != m.kroot ==> Booted(m) && m.tables[r][KERNEL_SLOT] == m.tables[m.kroot][KERNEL_SLOT]
  }

  ghost predicate Root(m: Tabs, r: nat)
  {
    r in m.tables && r in m.pos && m.pos[r].level == 4
  }

  /** The leaf table that `find_pte` without allocation reaches for page v from table t. */
  ghost function Walk(m: Tabs, t: nat, level: nat, v: nat): Option<nat>
    decreases level
  {
    if t !in m.tables then None
    else if level <= 1 then Some(t)
    else if !m.tables[t][Index(v, level)].present then None
    else Walk(m, m.tables[t][Index(v, level)].ppn, level - 1, v)
  }

  /** The present leaf entry for page v, if there is one. */
  ghost function Translate(m: Tabs, r: nat, v: nat): Option<Entry>
  {
    var w := Walk(m, r, 4, v);
    if w.Some? && w.value in m.tables && m.tables[w.value][Index(v, 1)].present then Some(m.tables[w.value][Index(v, 1)])
    else None
  }

  /**
   * What the processor does with a linear address: bits 47 to 39, 38 to 30, 29
   * to 21 and 20 to 12 pick the entries, from the table in CR3 down, and an
   * access needs its right in all of them.
   */
  ghost function Hardware(tables: map<nat, Table>, cr3: nat, vaddr: nat): Option<Entry>
  {
    if cr3 !in tables then None else
      var l4 := tables[cr3][vaddr / 0x80_0000_0000 % 512];
      if !l4.present || l4.ppn !in tables then None else
        var l3 := tables[l4.ppn][vaddr / 0x4000_0000 % 512];
        if !l3.present || l3.ppn !in tables then None else
          var l2 := tables[l3.ppn][vaddr / 0x20_0000 % 512];
          if !l2.present || l2.ppn !in tables then None else
            var l1 := tables[l2.ppn][vaddr / 4096 % 512];
            if !l1.present then None else
              Some(Entry(l1.ppn, true, l4.writable && l3.writable && l2.writable && l1.writable, l4.user && l3.user && l2.user && l1.user))
  }

  /** That is the translation of its page, with the rights of the leaf entry. */
  lemma WalkIsHardware(m: Tabs, r: nat, vaddr: nat)
    requires Inv(m) && Root(m, r)
    ensures Translate(m, r, vaddr / 4096 % 0x10_0000_0000) == Hardware(m.tables, r, vaddr)
  {
    var v := vaddr / 4096 % 0x10_0000_0000;
    IndexBits(vaddr);
    if m.tables[r][Index(v, 4)].present {
      assert ChildOk(m, r, Index(v, 4));
      var t := m.tables[r][Index(v, 4)].ppn;
      assert Walk(m, r, 4, v) == Walk(m, t, 3, v);
      if m.tables[t][Index(v, 3)].present {
        assert ChildOk(m, t, Index(v, 3));
        var u := m.tables[t][Index(v, 3)].ppn;
        assert Walk(m, t, 3, v) == Walk(m, u, 2, v);
        if m.tables[u][Index(v, 2)].present {
          assert ChildOk(m, u, Index(v, 2));
        }
      }
    }
  }

  lemma IndexBits(vaddr: nat)
    ensures var v := vaddr / 4096 % 0x10_0000_0000;
            && Index(v, 4) == vaddr / 0x80_0000_0000 % 512 && Index(v, 3) == vaddr / 0x4000_0000 % 512
            && Index(v, 2) == vaddr / 0x20_0000 % 512 && Index(v, 1) == vaddr / 4096 % 512
  {
    TopDigit(vaddr / 4096);
    ThirdDigit(vaddr / 4096);
    SecondDigit(vaddr / 4096);
    FirstDigit(vaddr / 4096);
    PageBits(vaddr);
  }

  lemma PageBits(vaddr: nat)
    ensures vaddr / 4096 / 0x800_0000 == vaddr / 0x80_0000_0000
    ensures vaddr / 4096 / 0x4_0000 == vaddr / 0x4000_0000
    ensures vaddr / 4096 / 0x200 == vaddr / 0x20_0000
  {
  }

  lemma LastDigit(k: nat, x: nat)
    ensures (512 * k + x) % 512 == x % 512
  {
  }

  lemma FirstDigit(p: nat)
    ensures p % 0x10_0000_0000 % 512 == p % 512
  {
    LastDigit(0x800_0000 * (p / 0x10_0000_0000), p % 0x10_0000_0000);
  }

  lemma TopDigit(p: nat)
    ensures p % 0x10_0000_0000 / 0x800_0000 % 512 == p / 0x800_0000 % 512
  {
    var a, v := p / 0x10_0000_0000, p % 0x10_0000_0000;
    var x, y := v / 0x800_0000, v % 0x800_0000;
    var n := 0x200 * a + x;
    assert p == 0x800_0000 * n + y;
    assert p / 0x800_0000 == n by {
      TopDigitQuotient(n, y);
    }
    LastDigit(0x200 / 512 * a, x);
  }

  lemma TopDigitQuotient(n: nat, y: nat)
    requires y < 0x800_0000
    ensures (0x800_0000 * n + y) / 0x800_0000 == n
  {
  }

  lemma ThirdDigit(p: nat)
    ensures p % 0x10_0000_0000 / 0x4_0000 % 512 == p / 0x4_0000 % 512
  {
    var a, v := p / 0x10_0000_0000, p % 0x10_0000_0000;
    var x, y := v / 0x4_0000, v % 0x4_0000;
    var n := 0x4_0000 * a + x;
    assert p == 0x4_0000 * n + y;
    assert p / 0x4_0000 == n by {
      ThirdDigitQuotient(n, y);
    }
    LastDigit(0x4_0000 / 512 * a, x);
  }

  lemma ThirdDigitQuotient(n: nat, y: nat)
    requires y < 0x4_0000
    ensures (0x4_0000 * n + y) / 0x4_0000 == n
  {
  }

  lemma SecondDigit(p: nat)
    ensures p % 0x10_0000_0000 / 0x200 % 512 == p / 0x200 % 512
  {
    var a, v := p / 0x10_0000_0000, p % 0x10_0000_0000;
    var x, y := v / 0x200, v % 0x200;
    var n := 0x800_0000 * a + x;
    assert p == 0x200 * n + y;
    assert p / 0x200 == n by {
      SecondDigitQuotient(n, y);
    }
    LastDigit(0x800_0000 / 512 * a, x);
  }

  lemma SecondDigitQuotient(n: nat, y: nat)
    requires y < 0x200
    ensures (0x200 * n + y) / 0x200 == n
  {
  }

  lemma DigitsUp(v: nat, level: nat)
    requires 2 <= level <= 4
    ensures Prefix(v, level - 1) == Prefix(v, level) * ENTRIES + Index(v, level)
  {
    if level == 2 {
      TwoDigits(v / 0x200);
      assert v / 0x200 / 0x200 == v / (0x200 * 0x200);
    } else if level == 3 {
      TwoDigits(v / 0x4_0000);
      assert v / 0x4_0000 / 0x200 == v / (0x4_0000 * 0x200);
    } else {
      TwoDigits(v / 0x800_0000);
      assert v / 0x800_0000 / 0x200 == v / (0x800_0000 * 0x200);
    }
  }

  lemma TwoDigits(x: nat)
    ensures x == x / 0x200 * 0x200 + x % 0x200
  {
  }

  /** A page is its leaf prefix and its last digit. */
  lemma DigitsDetermine(v: nat, u: nat)
    requires Prefix(v, 1) == Prefix(u, 1) && Index(v, 1) == Index(u, 1)
    ensures v == u
  {
    assert v == (v / 0x200) * 0x200 + v % 0x200;
    assert u == (u / 0x200) * 0x200 + u % 0x200;
  }

  /** The walk from a table at its own prefix ends at the leaf table placed at the page's prefix. */
  lemma {:induction false} WalkPlace(m: Tabs, t: nat, level: nat, v: nat)
    requires Inv(m) && t in m.tables && m.pos[t].level == level && m.pos[t].prefix == Prefix(v, level)
    requires Walk(m, t, level, v).Some?
    ensures var w := Walk(m, t, level, v).value;
            && w in m.tables && m.pos[w].level == 1 && m.pos[w].prefix == Prefix(v, 1)
            && (m.pos[w].root == m.pos[t].root || (level == 4 && Index(v, 4) == KERNEL_SLOT && m.pos[w].root == m.kroot))
    decreases level
  {
    assert TableOk(m, t);
    if level > 1 {
      var i := Index(v, level);
      assert ChildOk(m, t, i);
      DigitsUp(v, level);
      WalkPlace(m, m.tables[t][i].ppn, level - 1, v);
    }
  }

  lemma RootWalk(m: Tabs, r: nat, v: nat)
    requires Inv(m) && Root(m, r) && v < PAGES && Walk(m, r, 4, v).Some?
    ensures var w := Walk(m, r, 4, v).value;
            && w in m.tables && m.pos[w].level == 1 && m.pos[w].prefix == Prefix(v, 1)
            && (m.pos[w].root == r || (Index(v, 4) == KERNEL_SLOT && m.pos[w].root == m.kroot))
  {
    assert TableOk(m, r);
    WalkPlace(m, r, 4, v);
  }

  // --- Writing a leaf entry ---

  ghost function SetLeaf(m: Tabs, t: nat, i: nat, e: Entry): Tabs
    requires t in m.tables && i < ENTRIES
  {
    m.(tables := m.tables[t := m.tables[t][i := e]])
  }

  lemma SetLeafKeeps(m: Tabs, t: nat, i: nat, e: Entry)
    requires Inv(m) && t in m.tables && m.pos[t].level == 1 && i < ENTRIES
    ensures Inv(SetLeaf(m, t, i, e))
  {
    var m' := SetLeaf(m, t, i, e);
    forall u | u in m'.tables ensures TableOk(m', u) {
      assert TableOk(m, u);
    }
    forall u, j | u in m'.tables && 0 <= j < ENTRIES && m'.pos[u].level > 1 && m'.tables[u][j].present
      ensures ChildOk(m', u, j)
    {
      assert ChildOk(m, u, j);
    }
    forall r | Root(m', r) ensures SharesKernel(m', r) {
      assert SharesKernel(m, r);
    }
  }

  lemma {:induction false} SetLeafWalk(m: Tabs, t: nat, i: nat, e: Entry, s: nat, level: nat, v: nat)
    requires Inv(m) && t in m.tables && m.pos[t].level == 1 && i < ENTRIES
    requires s in m.tables && m.pos[s].level == level
    ensures Walk(SetLeaf(m, t, i, e), s, level, v) == Walk(m, s, level, v)
    decreases level
  {
    assert TableOk(m, s);
    if level > 1 && m.tables[s][Index(v, level)].present {
      assert ChildOk(m, s, Index(v, level));
      SetLeafWalk(m, t, i, e, m.tables[s][Index(v, level)].ppn, level - 1, v);
    }
  }

  /**
   * A write through the walk of page v changes the translation of that page
   * and of no other, in this root and in every other root; another root sees
   * it exactly under the kernel's entry.
   */
  lemma SetLeafFlat(m: Tabs, r: nat, v: nat, e: Entry, r2: nat, u: nat)
    requires Inv(m) && Root(m, r) && v < PAGES && Walk(m, r, 4, v).Some?
    requires Root(m, r2) && u < PAGES
    ensures Walk(m, r, 4, v).value in m.tables
    ensures var m' := SetLeaf(m, Walk(m, r, 4, v).value, Index(v, 1), e);
            && (u != v ==> Translate(m', r2, u) == Translate(m, r2, u))
            && (r2 != r && Index(v, 4) != KERNEL_SLOT ==> Translate(m', r2, u) == Translate(m, r2, u))
            && Translate(m', r, v) == (if e.present then Some(e) else None)
            && (Index(v, 4) == KERNEL_SLOT ==> Translate(m', r2, v) == Translate(m', r, v))
  {
    RootWalk(m, r, v);
    var t := Walk(m, r, 4, v).value;
    var i := Index(v, 1);
    SetLeafWalk(m, t, i, e, r, 4, v);
    SetLeafWalk(m, t, i, e, r2, 4, u);
    SetLeafWalk(m, t, i, e, r2, 4, v);
    assert SharesKernel(m, r) && SharesKernel(m, r2);
    if Walk(m, r2, 4, u) == Some(t) {
      RootWalk(m, r2, u);
      if Index(u, 1) == i {
        DigitsDetermine(u, v);
      }
    }
  }

  // --- Adding an intermediate table ---

  ghost function AddTable(m: Tabs, t: nat, i: nat, c: nat): Tabs
    requires t in m.tables && t in m.pos && i < ENTRIES && m.pos[t].level > 0
  {
    Tabs(m.tables[c := EmptyTable()][t := m.tables[t][i := Entry(c, true, true, true)]],
         m.pos[c := Pos(m.pos[t].root, m.pos[t].level - 1, m.pos[t].prefix * ENTRIES + i, t)],
         m.kroot)
  }

  lemma AddTableTable(m: Tabs, t: nat, i: nat, c: nat, u: nat)
    requires Inv(m) && t in m.tables && m.pos[t].level > 1 && i < ENTRIES && !m.tables[t][i].present && c !in m.tables
    requires u in m.tables || u == c
    ensures TableOk(AddTable(m, t, i, c), u)
  {
    assert TableOk(m, t);
    if u != c {
      assert TableOk(m, u);
    }
  }

  lemma AddTableChild(m: Tabs, t: nat, i: nat, c: nat, u: nat, j: nat)
    requires Inv(m) && t in m.tables && m.pos[t].level > 1 && i < ENTRIES && !m.tables[t][i].present && c !in m.tables
    requires (u in m.tables || u == c) && j < ENTRIES
    requires var m' := AddTable(m, t, i, c); m'.pos[u].level > 1 && m'.tables[u][j].present
    ensures ChildOk(AddTable(m, t, i, c), u, j)
  {
    assert TableOk(m, t);
    if u != c && !(u == t && j == i) {
      assert ChildOk(m, u, j);
    }
  }

  lemma AddTableKeeps(m: Tabs, t: nat, i: nat, c: nat)
    requires Inv(m) && t in m.tables && m.pos[t].level > 1 && i < ENTRIES && !m.tables[t][i].present && c !in m.tables
    ensures Inv(AddTable(m, t, i, c))
  {
    var m' := AddTable(m, t, i, c);
    assert TableOk(m, t);
    forall u | u in m'.tables ensures TableOk(m', u) {
      AddTableTable(m, t, i, c, u);
    }
    forall u, j | u in m'.tables && 0 <= j < ENTRIES && m'.pos[u].level > 1 && m'.tables[u][j].present
      ensures ChildOk(m', u, j)
    {
      AddTableChild(m, t, i, c, u, j);
    }
    forall r | Root(m', r) ensures SharesKernel(m', r) {
      assert SharesKernel(m, r);
    }
  }

  /** A walk that ended at a leaf table still does; one that did not may now end at the new, empty table. */
  lemma {:induction false} AddTableWalk(m: Tabs, t: nat, i: nat, c: nat, s: nat, level: nat, v: nat)
    requires Inv(m) && t in m.tables && m.pos[t].level > 1 && i < ENTRIES && !m.tables[t][i].present && c !in m.tables
    requires s in m.tables && m.pos[s].level == level
    ensures var w, w' := Walk(m, s, level, v), Walk(AddTable(m, t, i, c), s, level, v);
            w' == w || (w.None? && w' == Some(c))
    decreases level
  {
    var m' := AddTable(m, t, i, c);
    var j := Index(v, level);
    assert TableOk(m, s);
    if level > 1 {
      if m.tables[s][j].present {
        assert ChildOk(m, s, j);
        AddTableWalk(m, t, i, c, m.tables[s][j].ppn, level - 1, v);
      } else if s == t && j == i {
        assert !EmptyTable()[Index(v, level - 1)].present;
      }
    }
  }

  /** Intermediate tables are invisible to translation. */
  lemma AddTableFlat(m: Tabs, t: nat, i: nat, c: nat, r: nat, v: nat)
    requires Inv(m) && t in m.tables && m.pos[t].level > 1 && i < ENTRIES && !m.tables[t][i].present && c !in m.tables
    requires Root(m, r)
    ensures Translate(AddTable(m, t, i, c), r, v) == Translate(m, r, v)
  {
    AddTableWalk(m, t, i, c, r, 4, v);
    assert TableOk(m, r);
    var w := Walk(m, r, 4, v);
    if w.Some? {
      WalkLeaf(m, r, 4, v);
    }
  }

  lemma {:induction false} WalkLeaf(m: Tabs, s: nat, level: nat, v: nat)
    requires Inv(m) && s in m.tables && m.pos[s].level == level && Walk(m, s, level, v).Some?
    ensures Walk(m, s, level, v).value in m.tables && m.pos[Walk(m, s, level, v).value].level == 1
    decreases level
  {
    assert TableOk(m, s);
    if level > 1 {
      assert ChildOk(m, s, Index(v, level));
      WalkLeaf(m, m.tables[s][Index(v, level)].ppn, level - 1, v);
    }
  }

  // --- A new root ---

  ghost function AddRoot(m: Tabs, c: nat): Tabs
    requires m.kroot in m.tables
  {
    Tabs(m.tables[c := EmptyTable()[KERNEL_SLOT := m.tables[m.kroot][KERNEL_SLOT]]], m.pos[c := Pos(c, 4, 0, c)], m.kroot)
  }

  /** A fresh root that copies the kernel's entry starts with no user page and moves nobody else's. */
  lemma AddRootKeeps(m: Tabs, c: nat)
    requires Inv(m) && Booted(m) && c !in m.tables
    ensures Inv(AddRoot(m, c)) && Root(AddRoot(m, c), c)
  {
    var m' := AddRoot(m, c);
    assert TableOk(m, m.kroot);
    forall u | u in m'.tables ensures TableOk(m', u) {
      if u != c {
        assert TableOk(m, u);
      }
    }
    forall u, j | u in m'.tables && 0 <= j < ENTRIES && m'.pos[u].level > 1 && m'.tables[u][j].present
      ensures ChildOk(m', u, j)
    {
      if u == c {
        assert ChildOk(m, m.kroot, j);
      } else {
        assert ChildOk(m, u, j);
      }
    }
    forall r | Root(m', r) ensures SharesKernel(m', r) {
      assert r != c ==> SharesKernel(m, r);
    }
  }

  lemma {:induction false} AddRootWalk(m: Tabs, c: nat, s: nat, level: nat, v: nat)
    requires Inv(m) && c !in m.tables && s in m.tables && m.pos[s].level == level
    ensures Walk(AddRoot(m, c), s, level, v) == Walk(m, s, level, v)
    decreases level
  {
    assert TableOk(m, s);
    if level > 1 && m.tables[s][Index(v, level)].present {
      assert ChildOk(m, s, Index(v, level));
      AddRootWalk(m, c, m.tables[s][Index(v, level)].ppn, level - 1, v);
    }
  }

  lemma AddRootFlat(m: Tabs, c: nat, r: nat, v: nat)
    requires Inv(m) && c !in m.tables && (Root(m, r) || r == c)
    ensures r != c ==> Translate(AddRoot(m, c), r, v) == Translate(m, r, v)
    ensures r == c ==> Translate(AddRoot(m, c), r, v) == if Index(v, 4) == KERNEL_SLOT then Translate(m, m.kroot, v) else None
  {
    var m' := AddRoot(m, c);
    assert TableOk(m, m.kroot);
    if r != c {
      assert TableOk(m, r);
      AddRootWalk(m, c, r, 4, v);
      if Walk(m, r, 4, v).Some? {
        WalkLeaf(m, r, 4, v);
      }
    } else if Index(v, 4) == KERNEL_SLOT && m.tables[m.kroot][KERNEL_SLOT].present {
      assert ChildOk(m, m.kroot, KERNEL_SLOT);
      AddRootWalk(m, c, m.tables[m.kroot][KERNEL_SLOT].ppn, 3, v);
      if Walk(m, m.kroot, 4, v).Some? {
        WalkLeaf(m, m.kroot, 4, v);
      }
    }
  }
}
