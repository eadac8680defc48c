/** Which pages and which tables the teardown of an address space has to visit. */
module PageTeardown {
  import opened Basics
  import opened PageWalk

  /** Pages covered by one table at this level. */
  function TableSpan(level: nat): (r: nat)
    ensures r > 0
  {
    Span(level) * ENTRIES
  }

  /** 512 to the power k. */
  function Widen(k: nat): (r: nat)
    ensures r > 0
  {
    if k == 0 then 1 else if k == 1 then 0x200 else if k == 2 then 0x4_0000 else 0x800_0000
  }

  /** The prefix of a table's ancestor at `level`. */
  ghost function Ancestor(q: Pos, level: nat): nat
    requires q.level <= level
  {
    q.prefix / Widen(level - q.level)
  }

  /** The tables of `root` at or below the level-`level` tables with prefix in [lo, hi). */
  ghost function Below(m: Tabs, root: nat, level: nat, lo: nat, hi: nat): set<nat>
  {
    set t | t in m.pos && m.pos[t].root == root && 1 <= m.pos[t].level <= level && lo <= Ancestor(m.pos[t], level) < hi
  }

  lemma BelowExtend(m: Tabs, root: nat, level: nat, lo: nat, mid: nat, hi: nat)
    requires lo <= mid <= hi
    ensures Below(m, root, level, lo, hi) == Below(m, root, level, lo, mid) + Below(m, root, level, mid, hi)
    ensures Below(m, root, level, lo, mid) !! Below(m, root, level, mid, hi)
  {
  }

  lemma AncestorStep(q: Pos, level: nat, b: nat)
    requires 1 <= q.level < level <= 3
    ensures Ancestor(q, level) == b <==> b * ENTRIES <= Ancestor(q, level - 1) < (b + 1) * ENTRIES
    ensures Ancestor(q, level) == Ancestor(q, level - 1) / ENTRIES
  {
    var d := level - q.level;
    if d == 2 {
      assert (q.prefix / 0x200) / 0x200 == q.prefix / 0x4_0000;
    }
  }

  /** Tables placed alike are the same table. */
  lemma {:induction false} UniquePlace(m: Tabs, t: nat, s: nat)
    requires Inv(m) && t in m.tables && s in m.tables
    requires m.pos[t].root == m.pos[s].root && m.pos[t].level == m.pos[s].level && m.pos[t].prefix == m.pos[s].prefix
    ensures t == s
    decreases 4 - m.pos[t].level
  {
    assert TableOk(m, t) && TableOk(m, s);
    if m.pos[t].level < 4 {
      UniquePlace(m, m.pos[t].up, m.pos[s].up);
    }
  }

  /** Every table has all its ancestors. */
  lemma {:induction false} HasAncestor(m: Tabs, t: nat, level: nat) returns (a: nat)
    requires Inv(m) && t in m.tables && m.pos[t].level <= level <= 3
    ensures a in m.tables && m.pos[a].root == m.pos[t].root && m.pos[a].level == level
    ensures m.pos[a].prefix == Ancestor(m.pos[t], level)
    decreases level
  {
    assert TableOk(m, t);
    if m.pos[t].level == level {
      a := t;
    } else {
      var c := HasAncestor(m, t, level - 1);
      assert TableOk(m, c);
      AncestorStep(m.pos[t], level, Ancestor(m.pos[t], level));
      a := m.pos[c].up;
    }
  }

  /** The subtree of one table is the table and the subtrees of its children. */
  lemma BelowOne(m: Tabs, root: nat, level: nat, t: nat)
    requires Inv(m) && t in m.tables && 2 <= level <= 3
    requires m.pos[t].root == root && m.pos[t].level == level
    ensures var b := m.pos[t].prefix;
            Below(m, root, level, b, b + 1) == Below(m, root, level - 1, b * ENTRIES, (b + 1) * ENTRIES) + {t}
  {
    var b := m.pos[t].prefix;
    forall c | c in m.pos && m.pos[c].root == root && 1 <= m.pos[c].level <= level
      ensures c in Below(m, root, level, b, b + 1) <==> c in Below(m, root, level - 1, b * ENTRIES, (b + 1) * ENTRIES) || c == t
    {
      if m.pos[c].level == level {
        if m.pos[c].prefix == b {
          UniquePlace(m, c, t);
        }
      } else {
        AncestorStep(m.pos[c], level, b);
      }
    }
    assert TableOk(m, t);
  }

  lemma BelowLeaf(m: Tabs, root: nat, t: nat)
    requires Inv(m) && t in m.tables && m.pos[t].root == root && m.pos[t].level == 1
    ensures Below(m, root, 1, m.pos[t].prefix, m.pos[t].prefix + 1) == {t}
  {
    var b := m.pos[t].prefix;
    forall c | c in m.pos ensures c in Below(m, root, 1, b, b + 1) <==> c == t {
      if c in Below(m, root, 1, b, b + 1) {
        UniquePlace(m, c, t);
      }
    }
    assert TableOk(m, t);
    assert t in Below(m, root, 1, b, b + 1);
  }

  /** Under an absent entry there is no table. */
  lemma BelowAbsent(m: Tabs, root: nat, t: nat, level: nat, i: nat)
    requires Inv(m) && t in m.tables && m.pos[t].root == root && m.pos[t].level == level + 1 && 1 <= level <= 3
    requires i < ENTRIES && !m.tables[t][i].present
    ensures Below(m, root, level, m.pos[t].prefix * ENTRIES + i, m.pos[t].prefix * ENTRIES + i + 1) == {}
  {
    var p := m.pos[t].prefix * ENTRIES + i;
    forall c | c in m.pos ensures c !in Below(m, root, level, p, p + 1) {
      if c in Below(m, root, level, p, p + 1) {
        NoTableUnder(m, root, t, level, i, c);
      }
    }
  }

  lemma NoTableUnder(m: Tabs, root: nat, t: nat, level: nat, i: nat, c: nat)
    requires Inv(m) && t in m.tables && m.pos[t].root == root && m.pos[t].level == level + 1 && 1 <= level <= 3
    requires i < ENTRIES && !m.tables[t][i].present
    requires c in m.tables && m.pos[c].root == root && 1 <= m.pos[c].level <= level
    ensures Ancestor(m.pos[c], level) != m.pos[t].prefix * ENTRIES + i
  {
    var a := HasAncestor(m, c, level);
    assert TableOk(m, a);
    if m.pos[a].prefix == m.pos[t].prefix * ENTRIES + i {
      UniquePlace(m, m.pos[a].up, t);
    }
  }

  // --- Pages ---

  /** The present pages of `root` in [lo, hi), in order, with their frames. */
  ghost function Drops(m: Tabs, root: nat, lo: nat, hi: nat): seq<(nat, nat)>
    decreases hi
  {
    if hi <= lo then []
    else
      var t := Translate(m, root, hi - 1);
      Drops(m, root, lo, hi - 1) + (if t.Some? then [(hi - 1, t.value.ppn)] else [])
  }

  /** The page x.0 translates to the frame x.1. */
  ghost predicate Holds(m: Tabs, root: nat, x: (nat, nat))
  {
    Translate(m, root, x.0).Some? && Translate(m, root, x.0).value.ppn == x.1
  }

  /** `d` holds each present page of [lo, hi) once, in order and with its own frame, and nothing else. */
  ghost predicate ListsPresent(d: seq<(nat, nat)>, m: Tabs, root: nat, lo: nat, hi: nat)
  {
    && (forall v: nat | lo <= v < hi && Translate(m, root, v).Some? :: (v, Translate(m, root, v).value.ppn) in d)
    && (forall i | 0 <= i < |d| :: lo <= d[i].0 < hi && Holds(m, root, d[i]))
    && (forall i, j | 0 <= i < j < |d| :: d[i].0 < d[j].0)
  }

  lemma DropsExact(m: Tabs, root: nat, lo: nat, hi: nat)
    ensures ListsPresent(Drops(m, root, lo, hi), m, root, lo, hi)
  {
    DropsSound(m, root, lo, hi);
    forall v: nat | lo <= v < hi && Translate(m, root, v).Some?
      ensures (v, Translate(m, root, v).value.ppn) in Drops(m, root, lo, hi)
    {
      DropsComplete(m, root, lo, hi, v);
    }
  }

  lemma {:induction false} DropsSound(m: Tabs, root: nat, lo: nat, hi: nat)
    ensures var d := Drops(m, root, lo, hi);
            && (forall i | 0 <= i < |d| :: lo <= d[i].0 < hi && Holds(m, root, d[i]))
            && (forall i, j | 0 <= i < j < |d| :: d[i].0 < d[j].0)
    decreases hi
  {
    if hi > lo {
      DropsSound(m, root, lo, hi - 1);
      var t := Translate(m, root, hi - 1);
      assert t.Some? ==> Holds(m, root, (hi - 1, t.value.ppn));
      assert Drops(m, root, lo, hi) == Drops(m, root, lo, hi - 1) + (if t.Some? then [(hi - 1, t.value.ppn)] else []);
    }
  }

  lemma {:induction false} DropsComplete(m: Tabs, root: nat, lo: nat, hi: nat, v: nat)
    requires lo <= v < hi && Translate(m, root, v).Some?
    ensures (v, Translate(m, root, v).value.ppn) in Drops(m, root, lo, hi)
    decreases hi
  {
    if v < hi - 1 {
      DropsComplete(m, root, lo, hi - 1, v);
    }
  }

  lemma {:induction false} DropsAppend(m: Tabs, root: nat, lo: nat, mid: nat, hi: nat)
    requires lo <= mid <= hi
    ensures Drops(m, root, lo, hi) == Drops(m, root, lo, mid) + Drops(m, root, mid, hi)
    decreases hi
  {
    if mid < hi {
      DropsAppend(m, root, lo, mid, hi - 1);
    }
  }

  lemma {:induction false} DropsNone(m: Tabs, root: nat, lo: nat, hi: nat)
    requires forall v: nat | lo <= v < hi :: Translate(m, root, v).None?
    ensures Drops(m, root, lo, hi) == []
    decreases hi
  {
    if lo < hi {
      DropsNone(m, root, lo, hi - 1);
    }
  }

  /** The walk of a page passes through every table placed at one of its prefixes. */
  lemma {:induction false} WalkVia(m: Tabs, a: nat, v: nat)
    requires Inv(m) && a in m.tables && v < PAGES && m.pos[a].prefix == Prefix(v, m.pos[a].level)
    ensures Walk(m, m.pos[a].root, 4, v) == Walk(m, a, m.pos[a].level, v)
    decreases 4 - m.pos[a].level
  {
    assert TableOk(m, a);
    var level := m.pos[a].level;
    if level < 4 {
      var u := m.pos[a].up;
      DigitsUp(v, level + 1);
      assert m.pos[a].prefix == Prefix(v, level + 1) * ENTRIES + Index(v, level + 1);
      QuotientDigit(Prefix(v, level + 1), Index(v, level + 1));
      WalkVia(m, u, v);
    }
  }

  lemma QuotientDigit(q: nat, d: nat)
    requires d < ENTRIES
    ensures (q * ENTRIES + d) / ENTRIES == q && (q * ENTRIES + d) % ENTRIES == d
  {
  }

  /** Page `prefix * 512 + i` is entry i of the leaf table placed at the prefix. */
  lemma LeafPage(m: Tabs, t: nat, i: nat)
    requires Inv(m) && t in m.tables && m.pos[t].level == 1 && i < ENTRIES && m.pos[t].prefix * ENTRIES + i < PAGES
    ensures var e := m.tables[t][i];
            Translate(m, m.pos[t].root, m.pos[t].prefix * ENTRIES + i) == if e.present then Some(e) else None
  {
    var v := m.pos[t].prefix * ENTRIES + i;
    QuotientDigit(m.pos[t].prefix, i);
    assert Prefix(v, 1) == v / ENTRIES && Index(v, 1) == (v / 1) % ENTRIES;
    WalkVia(m, t, v);
  }

  /** Pages under an absent entry have no translation. */
  lemma AbsentPages(m: Tabs, t: nat, i: nat)
    requires Inv(m) && t in m.tables && 2 <= m.pos[t].level && i < ENTRIES && !m.tables[t][i].present
    requires (m.pos[t].prefix * ENTRIES + i + 1) * Span(m.pos[t].level) <= PAGES
    ensures var p := m.pos[t].prefix * ENTRIES + i;
            Drops(m, m.pos[t].root, p * Span(m.pos[t].level), (p + 1) * Span(m.pos[t].level)) == []
  {
    assert TableOk(m, t);
    var level := m.pos[t].level;
    var p := m.pos[t].prefix * ENTRIES + i;
    forall v: nat | p * Span(level) <= v < (p + 1) * Span(level) ensures Translate(m, m.pos[t].root, v).None? {
      EntryDigits(v, level, m.pos[t].prefix, i);
      WalkVia(m, t, v);
    }
    DropsNone(m, m.pos[t].root, p * Span(level), (p + 1) * Span(level));
  }

  lemma EntryDigits(v: nat, level: nat, prefix: nat, i: nat)
    requires 2 <= level <= 4 && i < ENTRIES
    requires (prefix * ENTRIES + i) * Span(level) <= v < (prefix * ENTRIES + i + 1) * Span(level)
    ensures Prefix(v, level) == prefix && Index(v, level) == i
  {
    assert v / Span(level) == prefix * ENTRIES + i;
    QuotientDigit(prefix, i);
    DigitsUp(v, level);
    assert Prefix(v, level - 1) == v / Span(level);
    QuotientDigit(Prefix(v, level), Index(v, level));
  }

  // --- The effect of tearing down some subtrees ---

  /** Tables, pages released (with their frames), tables freed, and the free frames. */
  datatype Snap = Snap(tables: map<nat, Table>, dropped: seq<(nat, nat)>, freed: seq<nat>, pool: set<nat>)

  /** `after` is `before` followed by each element of s exactly once. */
  ghost predicate Enumerates(before: seq<nat>, after: seq<nat>, s: set<nat>)
  {
    && |before| <= |after| && after[..|before|] == before
    && (forall i | |before| <= i < |after| :: after[i] in s)
    && (forall t | t in s :: exists i :: |before| <= i < |after| && after[i] == t)
    && (forall i, j | |before| <= i < j < |after| :: after[i] != after[j])
  }

  lemma EnumeratesChain(a: seq<nat>, b: seq<nat>, c: seq<nat>, s: set<nat>, t: set<nat>)
    requires Enumerates(a, b, s) && Enumerates(b, c, t) && s !! t
    ensures Enumerates(a, c, s + t)
  {
    assert forall i | 0 <= i < |b| :: c[i] == c[..|b|][i] == b[i];
    assert c[..|a|] == a by {
      assert forall i | 0 <= i < |a| :: c[i] == b[i] == b[..|a|][i] == a[i];
    }
    forall x | x in s + t ensures exists i :: |a| <= i < |c| && c[i] == x {
      if x in s {
        var i :| |a| <= i < |b| && b[i] == x;
        assert c[i] == x;
      } else {
        var i :| |b| <= i < |c| && c[i] == x;
      }
    }
    forall i, j | |a| <= i < j < |c| ensures c[i] != c[j] {
      if j < |b| {
        assert c[i] == b[i] && c[j] == b[j];
      } else if i < |b| {
        assert c[i] == b[i] && b[i] in s && c[j] in t;
      }
    }
  }

  lemma EnumeratesOne(a: seq<nat>, t: nat)
    ensures Enumerates(a, a + [t], {t})
  {
    assert (a + [t])[|a|] == t;
  }

  /** From `a` to `b`, exactly the subtrees with prefixes [lo, hi) at `level` went. */
  ghost predicate Torn(m: Tabs, root: nat, level: nat, lo: nat, hi: nat, a: Snap, b: Snap)
  {
    var s := Below(m, root, level, lo, hi);
    && b.tables == a.tables - s
    && b.dropped == a.dropped + Drops(m, root, lo * TableSpan(level), hi * TableSpan(level))
    && Enumerates(a.freed, b.freed, s)
    && b.pool == a.pool + s
  }

  lemma TornChain(m: Tabs, root: nat, level: nat, lo: nat, mid: nat, hi: nat, a: Snap, b: Snap, c: Snap)
    requires lo <= mid <= hi && Torn(m, root, level, lo, mid, a, b) && Torn(m, root, level, mid, hi, b, c)
    ensures Torn(m, root, level, lo, hi, a, c)
  {
    BelowExtend(m, root, level, lo, mid, hi);
    ScaleOrder(lo, mid, TableSpan(level));
    ScaleOrder(mid, hi, TableSpan(level));
    DropsAppend(m, root, lo * TableSpan(level), mid * TableSpan(level), hi * TableSpan(level));
    EnumeratesChain(a.freed, b.freed, c.freed, Below(m, root, level, lo, mid), Below(m, root, level, mid, hi));
  }

  lemma ScaleOrder(x: nat, y: nat, d: nat)
    requires x <= y
    ensures x * d <= y * d
  {
  }

  lemma TornNothing(m: Tabs, root: nat, level: nat, lo: nat, a: Snap)
    ensures Torn(m, root, level, lo, lo, a, a)
  {
    assert Below(m, root, level, lo, lo) == {};
  }

  lemma TornAbsent(m: Tabs, root: nat, t: nat, level: nat, i: nat, a: Snap)
    requires Inv(m) && t in m.tables && m.pos[t].root == root && m.pos[t].level == level + 1 && 1 <= level <= 3
    requires i < ENTRIES && !m.tables[t][i].present
    requires (m.pos[t].prefix * ENTRIES + i + 1) * TableSpan(level) <= PAGES
    ensures var p := m.pos[t].prefix * ENTRIES + i; Torn(m, root, level, p, p + 1, a, a)
  {
    assert TableSpan(level) == Span(level + 1);
    BelowAbsent(m, root, t, level, i);
    AbsentPages(m, t, i);
  }

  /** Freeing a table after the subtrees of all its entries completes its own subtree. */
  lemma TornUp(m: Tabs, root: nat, level: nat, t: nat, a: Snap, b: Snap)
    requires Inv(m) && t in m.tables && m.pos[t].root == root && m.pos[t].level == level && 2 <= level <= 3
    requires var p := m.pos[t].prefix; Torn(m, root, level - 1, p * ENTRIES, (p + 1) * ENTRIES, a, b)
    ensures var p := m.pos[t].prefix;
            Torn(m, root, level, p, p + 1, a, Snap(b.tables - {t}, b.dropped, b.freed + [t], b.pool + {t}))
  {
    var p := m.pos[t].prefix;
    BelowOne(m, root, level, t);
    assert t !in Below(m, root, level - 1, p * ENTRIES, (p + 1) * ENTRIES);
    EnumeratesOne(b.freed, t);
    EnumeratesChain(a.freed, b.freed, b.freed + [t], Below(m, root, level - 1, p * ENTRIES, (p + 1) * ENTRIES), {t});
    assert TableSpan(level) == TableSpan(level - 1) * ENTRIES;
    ScaleTwice(p, level);
  }

  lemma ScaleTwice(p: nat, level: nat)
    requires 2 <= level <= 3
    ensures p * TableSpan(level) == (p * ENTRIES) * TableSpan(level - 1)
    ensures (p + 1) * TableSpan(level) == ((p + 1) * ENTRIES) * TableSpan(level - 1)
  {
  }

  lemma TornLeaf(m: Tabs, root: nat, t: nat, a: Snap)
    requires Inv(m) && t in m.tables && m.pos[t].root == root && m.pos[t].level == 1
    ensures var p := m.pos[t].prefix;
            Torn(m, root, 1, p, p + 1, a,
                 Snap(a.tables - {t}, a.dropped + Drops(m, root, p * ENTRIES, (p + 1) * ENTRIES), a.freed + [t], a.pool + {t}))
  {
    BelowLeaf(m, root, t);
    EnumeratesOne(a.freed, t);
    assert TableSpan(1) == ENTRIES;
  }
}
