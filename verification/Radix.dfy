/** The radix tree operations: a fast form of a finite map. */
module Radix {
  import opened RadixNodes
  import opened RadixSteps

  /** Five levels hold every index below 2^30. */
  const MAX_HEIGHT := 5

  datatype Err = Ok | NoMem | Exists

  /** Every lookup is the same. */
  ghost predicate SameMap(t: Tree, u: Tree)
  {
    forall i: nat :: Value(u, i) == Value(t, i)
  }

  /** One key has a new value. */
  ghost predicate MapPut(t: Tree, u: Tree, key: nat, x: nat)
  {
    forall i: nat :: Value(u, i) == if i == key then x else Value(t, i)
  }

  class RadixTree {
    var nodes: map<nat, Node>
    var root: nat
    var height: nat
    // Node memory that is not in use.
    var pool: set<nat>
    ghost var pos: map<nat, Pos>

    ghost function State(): Tree
      reads this
    {
      Tree(nodes, root, height, pos)
    }

    ghost predicate Valid()
      reads this
    {
      Inv(State()) && height <= MAX_HEIGHT && NULL !in pool && pool !! nodes.Keys
    }

    /** `radix_tree_construct`. */
    constructor (memory: set<nat>)
      requires NULL !in memory
      ensures Valid() && forall i: nat :: Value(State(), i) == NULL
    {
      nodes, root, height, pool, pos := map[], NULL, 0, memory, map[];
    }

    /** `radix_tree_max_index`, plus one. */
    function Limit(): nat
      reads this
    {
      if height == 0 then 0 else Capacity(height)
    }

    /** `radix_tree_add_level`. */
    method AddLevel() returns (ok: bool)
      requires Valid() && height < MAX_HEIGHT
      modifies this
      ensures Valid() && SameMap(old(State()), State())
      ensures ok ==> height == old(height) + 1
      ensures !ok ==> State() == old(State()) && pool == {}
    {
      if pool == {} {
        return false;
      }
      var c :| c in pool;
      NewRootKeeps(State(), c);
      forall i: nat ensures Value(NewRoot(State(), c), i) == Value(State(), i) {
        NewRootValue(State(), c, i);
      }
      pool := pool - {c};
      var v := Fresh(NULL);
      if root != NULL {
        v := Node(1, NULL, v.slots[0 := root]);
        nodes := nodes[root := nodes[root].(parent := c)];
      }
      nodes := nodes[c := v];
      pos := pos[c := Pos(height, 0)];
      root, height := c, height + 1;
      assert State() == NewRoot(old(State()), c);
      ok := true;
    }

    /** One missing inner node of `radix_tree_find_parent`. */
    method AddNode(n: nat, i: nat) returns (c: nat)
      requires Valid() && n in nodes && pos[n].level > 0 && i < WIDTH == |nodes[n].slots| && nodes[n].slots[i] == NULL
      modifies `nodes, `pool, `pos
      ensures Valid() && SameMap(old(State()), State())
      ensures c == NULL ==> State() == old(State()) && pool == {}
      ensures c != NULL ==> c in nodes && pos[c] == Pos(old(pos)[n].level - 1, old(pos)[n].prefix * WIDTH + i)
    {
      if pool == {} {
        return NULL;
      }
      c :| c in pool;
      assert NodeOk(State(), n);
      NewChildKeeps(State(), n, i, c);
      forall k: nat ensures Value(NewChild(State(), n, i, c), k) == Value(State(), k) {
        NewChildValue(State(), n, i, c, k);
      }
      pool := pool - {c};
      var v := nodes[n];
      nodes := nodes[n := v.(slots := v.slots[i := c], count := v.count + 1)][c := Fresh(n)];
      pos := pos[c := Pos(pos[n].level - 1, pos[n].prefix * WIDTH + i)];
      assert State() == NewChild(old(State()), n, i, c);
    }

    /**
     * `radix_tree_find_parent`: the node whose slot holds the leaf. The walk
     * sees only the digits below the height, which are those of `key`.
     */
    method FindParent(index: nat, alloc: bool, ghost key: nat) returns (n: nat)
      requires Valid() && (height > 0 ==> key < Capacity(height)) && SameDigits(index, key, height)
      modifies `nodes, `pool, `pos
      ensures Valid() && SameMap(old(State()), State())
      ensures !alloc ==> State() == old(State()) && pool == old(pool)
      ensures n == NULL ==> (height > 0 ==> Value(State(), key) == NULL) && (alloc && height > 0 ==> pool == {})
      ensures n != NULL ==> n in nodes && pos[n] == Pos(0, Shift(key, 1)) && height > 0 && |nodes[n].slots| == WIDTH
      ensures n != NULL ==> nodes[n].slots[Digit(index, 0)] == Value(State(), key)
    {
      if height > 0 {
        RootPlace(State(), Nowhere, key);
      }
      var level := height - 1;
      n := root;
      while level > 0 && n != NULL
        invariant Valid() && SameMap(old(State()), State()) && (!alloc ==> State() == old(State()) && pool == old(pool))
        invariant n != NULL ==> 0 <= level < height && n in nodes && pos[n] == Pos(level, Shift(key, level + 1))
        invariant n == NULL ==> (height > 0 ==> Value(State(), key) == NULL) && (alloc && height > 0 ==> pool == {})
        decreases level
      {
        n := NextNode(n, level, index, alloc, key);
        level := level - 1;
      }
      if n != NULL {
        Through(State(), Nowhere, n, key);
        assert NodeOk(State(), n);
        assert Digit(index, 0) == Digit(key, 0);
      }
    }

    /** One level of the walk. */
    method NextNode(n: nat, level: nat, index: nat, alloc: bool, ghost key: nat) returns (c: nat)
      requires Valid() && n in nodes && key < Capacity(height) && SameDigits(index, key, height)
      requires 0 < level < height && pos[n] == Pos(level, Shift(key, level + 1))
      modifies `nodes, `pool, `pos
      ensures Valid() && SameMap(old(State()), State()) && (!alloc ==> State() == old(State()) && pool == old(pool))
      ensures c != NULL ==> c in nodes && pos[c] == Pos(level - 1, Shift(key, level))
      ensures c == NULL ==> Value(State(), key) == NULL && (alloc ==> pool == {})
    {
      var d := Digit(index, level);
      assert d == Digit(key, level);
      assert NodeOk(State(), n) && DownOk(State(), n, d);
      NoNull(State(), Nowhere);
      c := nodes[n].slots[d];
      assert Shift(key, level) == Shift(key, level + 1) * WIDTH + d;
      Through(State(), Nowhere, n, key);
      if c == NULL && alloc {
        c := AddNode(n, d);
      }
    }

    /**
     * `radix_tree_insert`: a new key gets the leaf and no other key changes;
     * on any error no key changes.
     */
    method Insert(index: nat, leaf: nat) returns (r: Err)
      requires Valid() && index < 0x4000_0000 && leaf != NULL
      modifies this
      ensures Valid()
      ensures r.Ok? ==> Value(old(State()), index) == NULL && MapPut(old(State()), State(), index, leaf)
      ensures !r.Ok? ==> SameMap(old(State()), State())
      ensures r.Exists? ==> Value(old(State()), index) != NULL
      ensures r.NoMem? ==> pool == {} && Value(old(State()), index) == NULL
    {
      FullHeight();
      while index >= Limit()
        invariant Valid() && SameMap(old(State()), State())
        decreases MAX_HEIGHT - height
      {
        LevelsLeft(index, height);
        var ok := AddLevel();
        if !ok {
          return NoMem;
        }
      }
      var n := FindParent(index, true, index);
      if n == NULL {
        return NoMem;
      }
      r := PutLeaf(n, index, leaf);
    }

    /** `radix_tree_add_child` of a leaf. */
    method PutLeaf(n: nat, index: nat, leaf: nat) returns (r: Err)
      requires Valid() && height > 0 && index < Capacity(height) && n in nodes && pos[n] == Pos(0, Shift(index, 1)) && leaf != NULL
      requires |nodes[n].slots| == WIDTH && nodes[n].slots[Digit(index, 0)] == Value(State(), index)
      modifies `nodes
      ensures Valid()
      ensures if Value(old(State()), index) != NULL then r == Exists && State() == old(State())
              else r == Ok && MapPut(old(State()), State(), index, leaf)
    {
      var i := Digit(index, 0);
      if nodes[n].slots[i] != NULL {
        return Exists;
      }
      LeafIndex(index);
      SlotKeeps(State(), n, i, leaf, Nowhere);
      forall k: nat ensures Value(SetSlot(State(), n, i, leaf), k) == if k == index then leaf else Value(State(), k) {
        SlotValue(State(), n, i, leaf, k);
      }
      var v := nodes[n];
      nodes := nodes[n := v.(slots := v.slots[i := leaf], count := v.count + 1)];
      assert State() == SetSlot(old(State()), n, i, leaf);
      r := Ok;
    }

    /** `radix_tree_lookup`. */
    method Lookup(index: nat) returns (leaf: nat)
      requires Valid()
      modifies `nodes, `pool, `pos
      ensures State() == old(State()) && pool == old(pool) && leaf == Value(State(), index)
    {
      if index >= Limit() {
        return NULL;
      }
      var n := FindParent(index, false, index);
      if n == NULL {
        return NULL;
      }
      leaf := nodes[n].slots[Digit(index, 0)];
    }

    /** Where the pruning loop of `radix_tree_remove` stands. */
    ghost predicate Pruning(t: Tree, n: nat, level: nat, key: nat)
      reads this
    {
      && NULL !in pool && pool !! nodes.Keys && height <= MAX_HEIGHT && level < height && key < Capacity(height)
      && n in nodes && n in pos && pos[n] == Pos(level, Shift(key, level + 1)) && |nodes[n].slots| == WIDTH
      && nodes[n].slots[Digit(key, level)] != NULL && nodes[n].count > 0
      && if level == 0 then Inv(State()) && State() == t else InvX(State(), At(n, Digit(key, level))) && MapPut(t, State(), key, NULL)
    }

    /** One node loses its slot. */
    method ClearSlot(n: nat, level: nat, i: nat, ghost t: Tree, ghost key: nat)
      requires Pruning(t, n, level, key) && i == Digit(key, level)
      modifies `nodes
      ensures Valid() && height > 0 && n in nodes && |nodes[n].slots| == WIDTH && MapPut(t, State(), key, NULL)
      ensures nodes.Keys == old(nodes.Keys)
    {
      LeafIndex(key);
      forall k: nat ensures Value(SetSlot(State(), n, i, NULL), k) == if k == key then NULL else Value(t, k) {
        if level == 0 {
          SlotValue(State(), n, i, NULL, k);
        } else {
          DeadValue(State(), n, i, k);
        }
      }
      SlotKeeps(State(), n, i, NULL, if level == 0 then Nowhere else At(n, i));
      var v := nodes[n];
      nodes := nodes[n := v.(slots := v.slots[i := NULL], count := v.count - 1)];
      assert State() == SetSlot(old(State()), n, i, NULL);
    }

    /** An empty inner node is freed; its parent is next. */
    method FreeNode(n: nat, level: nat, ghost t: Tree, ghost key: nat) returns (p: nat)
      requires Valid() && level + 1 < height && key < Capacity(height) && n in nodes && pos[n] == Pos(level, Shift(key, level + 1))
      requires nodes[n].count == 0 && MapPut(t, State(), key, NULL)
      modifies `nodes, `pool, `pos
      ensures Pruning(t, p, level + 1, key)
    {
      assert NodeOk(State(), n) && NodeOk(State(), root) && NodeOk(State(), nodes[n].parent);
      DropKeeps(State(), n);
      forall k: nat ensures Value(Drop(State(), n), k) == Value(State(), k) {
        DropValue(State(), n, k);
      }
      p := nodes[n].parent;
      nodes, pool, pos := nodes - {n}, pool + {n}, pos - {n};
      assert State() == Drop(old(State()), n);
      DeadValue(State(), p, Digit(key, level + 1), 0);
    }

    /**
     * `radix_tree_remove`. There is no range check: an index beyond the tree
     * acts on the index with its upper digits dropped.
     */
    method Remove(index: nat) returns (leaf: nat)
      requires Valid()
      modifies this
      ensures Valid()
      ensures var key := index % Capacity(old(height)); leaf == Value(old(State()), key) && MapPut(old(State()), State(), key, NULL)
      ensures index < old(Limit()) ==> leaf == Value(old(State()), index) && MapPut(old(State()), State(), index, NULL)
    {
      ghost var key, t := index % Capacity(height), State();
      Reduce(index, height);
      var n := FindParent(index, false, key);
      leaf := if n == NULL then NULL else nodes[n].slots[Digit(index, 0)];
      if leaf != NULL {
        Prune(n, index, t, key);
      }
    }

    /** The loop that clears slots upwards while nodes become empty. */
    method Prune(leafNode: nat, index: nat, ghost t: Tree, ghost key: nat)
      requires Valid() && State() == t && height > 0 && key < Capacity(height) && SameDigits(index, key, height)
      requires leafNode in nodes && pos[leafNode] == Pos(0, Shift(key, 1)) && |nodes[leafNode].slots| == WIDTH
      requires nodes[leafNode].slots[Digit(index, 0)] != NULL
      modifies this
      ensures Valid() && MapPut(t, State(), key, NULL)
    {
      var n := leafNode;
      assert NodeOk(State(), n) && Digit(index, 0) == Digit(key, 0);
      SlotKeeps(State(), n, Digit(key, 0), NULL, Nowhere);
      var level, h := 0, height;
      while true
        invariant 0 <= level < h == height && Pruning(t, n, level, key)
        decreases h - level
      {
        assert Digit(index, level) == Digit(key, level);
        ClearSlot(n, level, Digit(index, level), t, key);
        if nodes[n].count != 0 {
          return;
        }
        if level == h - 1 {
          break;
        }
        n := FreeNode(n, level, t, key);
        level := level + 1;
      }
      FreeRoot(n, t, key);
    }

    /** The root itself became empty. */
    method FreeRoot(n: nat, ghost t: Tree, ghost key: nat)
      requires Valid() && height > 0 && n in nodes && pos[n].level == height - 1 && nodes[n].count == 0
      requires MapPut(t, State(), key, NULL)
      modifies this
      ensures Valid() && MapPut(t, State(), key, NULL)
    {
      TopIsRoot(State(), n);
      forall k: nat ensures Value(Empty(), k) == Value(State(), k) {
        EmptyRoot(State(), k);
      }
      EmptyRoot(State(), 0);
      pool := pool + {n};
      nodes, pos := map[], map[];
      root, height := NULL, 0;
    }
  }

  lemma TopIsRoot(t: Tree, n: nat)
    requires Inv(t) && n in t.nodes && t.pos[n].level + 1 == t.height
    ensures n == t.root
  {
    assert NodeOk(t, n) && (n != t.root ==> NodeOk(t, t.nodes[n].parent));
  }

  /** Dropping the upper digits keeps the lower ones. */
  lemma Reduce(index: nat, h: nat)
    ensures index % Capacity(h) < Capacity(h) && SameDigits(index, index % Capacity(h), h)
    ensures index < Capacity(h) ==> index % Capacity(h) == index
  {
    if index < Capacity(h) {
      RemUnique(index, Capacity(h), 0, index);
    }
    forall l: nat | l < h ensures Digit(index, l) == Digit(index % Capacity(h), l) {
      ReduceDigit(index, h, l);
    }
  }

  /** Five levels of six bits. */
  lemma FullHeight()
    ensures Capacity(MAX_HEIGHT) == 0x4000_0000
  {
    assert Capacity(1) == 64 && Capacity(2) == 0x1000 && Capacity(3) == 0x4_0000 && Capacity(4) == 0x100_0000;
  }

  lemma {:induction false} ReduceDigit(index: nat, h: nat, l: nat)
    requires l < h
    ensures Digit(index, l) == Digit(index % Capacity(h), l)
    decreases l
  {
    var c := Capacity(h - 1);
    ModDiv(index, c);
    if l > 0 {
      ReduceDigit(index / WIDTH, h - 1, l - 1);
      ShiftLow(index, l);
      ShiftLow(index % Capacity(h), l);
    }
  }

  lemma ModDiv(index: nat, c: nat)
    requires c > 0
    ensures (index % (WIDTH * c)) / WIDTH == (index / WIDTH) % c && (index % (WIDTH * c)) % WIDTH == index % WIDTH
  {
    var q, r := index / WIDTH, index % WIDTH;
    var a, b := q / c, q % c;
    assert index == WIDTH * (a * c + b) + r;
    assert index == (WIDTH * c) * a + (WIDTH * b + r);
    assert 0 <= WIDTH * b + r < WIDTH * c;
    RemUnique(index, WIDTH * c, a, WIDTH * b + r);
  }

  lemma RemUnique(x: int, m: int, a: int, r: int)
    requires m > 0 && x == m * a + r && 0 <= r < m
    ensures x % m == r
  {
    assert x == m * (x / m) + x % m;
    assert m * (x / m - a) == r - x % m;
    SmallMultiple(m, x / m - a);
  }

  lemma SmallMultiple(m: int, d: int)
    requires m > 0 && -m < m * d < m
    ensures d == 0
  {
    assert d >= 1 ==> m * d >= m * 1;
    assert d <= -1 ==> m * d <= m * -1;
  }

  /** Remove leaves every other key alone exactly when the index is in range or no leaf is at the reduced index. */
  lemma RemoveExact(t: Tree, u: Tree, index: nat)
    requires Inv(t) && MapPut(t, u, index % Capacity(t.height), NULL)
    ensures (forall k: nat | k != index :: Value(u, k) == Value(t, k)) <==>
      index < Capacity(t.height) || Value(t, index % Capacity(t.height)) == NULL
  {
    var key := index % Capacity(t.height);
    assert Value(u, key) == NULL;
    Reduce(index, t.height);
    assert index < Capacity(t.height) ==> key == index;
    assert index >= Capacity(t.height) ==> key != index;
  }

  ghost predicate SameDigits(i: nat, k: nat, height: nat)
  {
    forall l: nat | l < height :: Digit(i, l) == Digit(k, l)
  }

  lemma LeafIndex(index: nat)
    ensures Shift(index, 1) * WIDTH + Digit(index, 0) == index
  {
    assert Shift(index, 1) == Shift(index, 0) / WIDTH;
  }

  /** An index below 2^30 never needs a sixth level. */
  lemma {:induction false} LevelsLeft(index: nat, h: nat)
    requires index < Capacity(MAX_HEIGHT) && (h > 0 ==> index >= Capacity(h))
    ensures h < MAX_HEIGHT
  {
    if h >= MAX_HEIGHT {
      CapacityGrows(MAX_HEIGHT, h);
    }
  }

  lemma {:induction false} CapacityGrows(a: nat, b: nat)
    requires a <= b
    ensures Capacity(a) <= Capacity(b)
  {
    if a < b {
      CapacityGrows(a, b - 1);
    }
  }

  lemma NewChildValue(t: Tree, n: nat, i: nat, c: nat, index: nat)
    requires Inv(t) && n in t.nodes && t.pos[n].level > 0 && i < WIDTH == |t.nodes[n].slots| && c != NULL && c !in t.nodes
    requires t.nodes[n].slots[i] == NULL
    ensures Value(NewChild(t, n, i, c), index) == Value(t, index)
  {
    assert NodeOk(t, n);
    if t.height > 0 && index < Capacity(t.height) {
      assert NodeOk(t, t.root);
      NewChildLeaf(t, n, i, c, t.root, t.height - 1, index);
    }
  }

  /** A tree of one level with a leaf at 1: the removal of index 65, which has no leaf, takes that one. */
  lemma RemoveBeyondExample(t: Tree, u: Tree)
    requires t == Tree(map[9 := Node(1, NULL, Fresh(NULL).slots[1 := 7])], 9, 1, map[9 := Pos(0, 0)])
    requires MapPut(t, u, 65 % Capacity(t.height), NULL)
    ensures Inv(t) && Value(t, 1) == 7 && Value(t, 65) == NULL && Value(u, 1) == NULL && !MapPut(t, u, 65, NULL)
  {
    CountNone(WIDTH);
    CountSet(Fresh(NULL).slots, 1, 7);
    assert Capacity(1) == WIDTH * Capacity(0);
    assert NodeOk(t, 9) && Digit(1, 0) == 1;
    assert Leaf(t, 9, 0, 1) == 7;
    assert Value(u, 1) == NULL;
  }
}
