/** The changes that the radix tree operations make, one node at a time. */
module RadixSteps {
  import opened RadixNodes

  function Fresh(parent: nat): Node
  {
    Node(0, parent, seq(WIDTH, _ => NULL))
  }

  /** A slot of a node is set; the count follows. */
  ghost function SetSlot(t: Tree, n: nat, i: nat, x: nat): Tree
    requires n in t.nodes && i < |t.nodes[n].slots| && (x == NULL ==> t.nodes[n].count > 0)
  {
    var v := t.nodes[n];
    t.(nodes := t.nodes[n := v.(slots := v.slots[i := x], count := if x == NULL then v.count - 1 else v.count + 1)])
  }

  /** `radix_tree_add_child` of a new inner node. */
  ghost function NewChild(t: Tree, n: nat, i: nat, c: nat): Tree
    requires n in t.nodes && n in t.pos && t.pos[n].level > 0 && i < |t.nodes[n].slots| && c != NULL
  {
    var s := SetSlot(t, n, i, c);
    s.(nodes := s.nodes[c := Fresh(n)], pos := s.pos[c := Pos(t.pos[n].level - 1, t.pos[n].prefix * WIDTH + i)])
  }

  lemma NewChildKeeps(t: Tree, n: nat, i: nat, c: nat)
    requires Inv(t) && n in t.nodes && t.pos[n].level > 0 && i < WIDTH == |t.nodes[n].slots| && c != NULL && c !in t.nodes
    requires t.nodes[n].slots[i] == NULL
    ensures Inv(NewChild(t, n, i, c))
  {
    var u := NewChild(t, n, i, c);
    assert NodeOk(t, n);
    assert t.root != NULL ==> NodeOk(t, t.root);
    forall m | m in u.nodes ensures NodeOk(u, m) {
      NewChildNode(t, n, i, c, m);
    }
    forall m, k: nat | m in u.nodes ensures DownOk(u, m, k) {
      assert m in t.nodes ==> DownOk(t, m, k);
    }
  }

  lemma NewChildNode(t: Tree, n: nat, i: nat, c: nat, m: nat)
    requires Inv(t) && n in t.nodes && t.pos[n].level > 0 && i < WIDTH == |t.nodes[n].slots| && c != NULL && c !in t.nodes
    requires t.nodes[n].slots[i] == NULL && (m in t.nodes || m == c)
    ensures NodeOk(NewChild(t, n, i, c), m)
  {
    assert NodeOk(t, n) && (m in t.nodes ==> NodeOk(t, m));
    CountSet(t.nodes[n].slots, i, c);
    CountNone(WIDTH);
  }

  /** An empty node is invisible. */
  lemma {:induction false} NewChildLeaf(t: Tree, n: nat, i: nat, c: nat, m: nat, level: nat, index: nat)
    requires Inv(t) && n in t.nodes && t.pos[n].level > 0 && i < WIDTH == |t.nodes[n].slots| && c != NULL && c !in t.nodes
    requires t.nodes[n].slots[i] == NULL && m in t.nodes && t.pos[m].level == level
    ensures Leaf(NewChild(t, n, i, c), m, level, index) == Leaf(t, m, level, index)
    decreases level
  {
    NoNull(t, Nowhere);
    assert NodeOk(t, m);
    var d := Digit(index, level);
    if level > 0 {
      assert DownOk(t, m, d);
      if m == n && d == i {
        EmptyLeaf(NewChild(t, n, i, c), c, level - 1, index);
      } else if t.nodes[m].slots[d] != NULL {
        NewChildLeaf(t, n, i, c, t.nodes[m].slots[d], level - 1, index);
      } else {
        NewChildKeeps(t, n, i, c);
        NoNull(NewChild(t, n, i, c), Nowhere);
      }
    }
  }

  lemma EmptyLeaf(t: Tree, c: nat, level: nat, index: nat)
    requires NULL !in t.nodes && c in t.nodes && |t.nodes[c].slots| == WIDTH && forall k | 0 <= k < WIDTH :: t.nodes[c].slots[k] == NULL
    ensures Leaf(t, c, level, index) == NULL
  {
    assert level > 0 ==> Leaf(t, NULL, level - 1, index) == NULL;
  }

  // --- A new root above the old one ---

  ghost function NewRoot(t: Tree, c: nat): Tree
    requires t.root != NULL ==> t.root in t.nodes
  {
    var top := Fresh(NULL);
    if t.root == NULL then Tree(map[c := top], c, t.height + 1, map[c := Pos(t.height, 0)])
    else
      var v := t.nodes[t.root];
      Tree(t.nodes[t.root := v.(parent := c)][c := Node(1, NULL, top.slots[0 := t.root])],
           c, t.height + 1, t.pos[c := Pos(t.height, 0)])
  }

  lemma NewRootKeeps(t: Tree, c: nat)
    requires Inv(t) && c != NULL && c !in t.nodes
    ensures Inv(NewRoot(t, c))
  {
    var u := NewRoot(t, c);
    NoNull(t, Nowhere);
    forall m | m in u.nodes ensures NodeOk(u, m) {
      NewRootNode(t, c, m);
    }
    forall m, k: nat | m in u.nodes ensures DownOk(u, m, k) {
      NewRootDown(t, c, m, k);
    }
  }

  lemma NewRootDown(t: Tree, c: nat, m: nat, k: nat)
    requires Inv(t) && c != NULL && c !in t.nodes && m in NewRoot(t, c).nodes
    ensures m in NewRoot(t, c).pos && DownOk(NewRoot(t, c), m, k)
  {
    NoNull(t, Nowhere);
    assert m in t.nodes ==> DownOk(t, m, k);
    assert t.root != NULL ==> NodeOk(t, t.root);
  }

  lemma NewRootNode(t: Tree, c: nat, m: nat)
    requires Inv(t) && c != NULL && c !in t.nodes && (m == c || m in t.nodes)
    ensures NodeOk(NewRoot(t, c), m)
  {
    NoNull(t, Nowhere);
    CountNone(WIDTH);
    CountSet(Fresh(NULL).slots, 0, t.root);
    assert m in t.nodes ==> NodeOk(t, m);
  }

  lemma {:induction false} NewRootLeaf(t: Tree, c: nat, m: nat, level: nat, index: nat)
    requires Inv(t) && c != NULL && c !in t.nodes && m in t.nodes && t.pos[m].level == level
    ensures Leaf(NewRoot(t, c), m, level, index) == Leaf(t, m, level, index)
    decreases level
  {
    NoNull(t, Nowhere);
    assert NodeOk(t, m);
    var d := Digit(index, level);
    if level > 0 {
      assert DownOk(t, m, d);
      if t.nodes[m].slots[d] != NULL {
        NewRootLeaf(t, c, t.nodes[m].slots[d], level - 1, index);
      }
    }
  }

  /** `radix_tree_add_level` preserves every lookup. */
  lemma NewRootValue(t: Tree, c: nat, index: nat)
    requires Inv(t) && c != NULL && c !in t.nodes
    ensures Value(NewRoot(t, c), index) == Value(t, index)
  {
    var u := NewRoot(t, c);
    NewRootKeeps(t, c);
    NoNull(t, Nowhere);
    NoNull(u, Nowhere);
    ShiftZero(index, t.height);
    ShiftZero(index, t.height + 1);
    if t.root == NULL {
      EmptyLeaf(u, c, t.height, index);
    } else if index < Capacity(t.height + 1) {
      assert NodeOk(t, t.root);
      TopDigit(index, t.height);
      var d := Digit(index, t.height);
      assert u.nodes[c].slots[d] == if d == 0 then t.root else NULL;
      assert Leaf(u, c, t.height, index) == Leaf(u, u.nodes[c].slots[d], t.height - 1, index);
      NewRootLeaf(t, c, t.root, t.height - 1, index);
    }
  }

  lemma TopDigit(index: nat, h: nat)
    requires index < Capacity(h + 1)
    ensures Digit(index, h) == 0 <==> index < Capacity(h)
  {
    ShiftZero(index, h);
    ShiftZero(index, h + 1);
  }

  // --- A leaf is put in or taken out ---

  /** The index of leaf slot i of node n. */
  ghost function IndexOf(t: Tree, n: nat, i: nat): nat
    requires n in t.pos
  {
    t.pos[n].prefix * WIDTH + i
  }

  lemma SlotKeeps(t: Tree, n: nat, i: nat, x: nat, dead: Place)
    requires InvX(t, dead) && n in t.nodes && i < WIDTH == |t.nodes[n].slots|
    requires if x == NULL then t.nodes[n].slots[i] != NULL else t.nodes[n].slots[i] == NULL
    requires (dead == Nowhere && t.pos[n].level == 0) || (x == NULL && dead == At(n, i))
    ensures (x == NULL ==> t.nodes[n].count > 0) && Inv(SetSlot(t, n, i, x))
  {
    assert NodeOk(t, n);
    CountSet(t.nodes[n].slots, i, x);
    var u := SetSlot(t, n, i, x);
    forall m | m in u.nodes ensures NodeOk(u, m) {
      SlotNode(t, n, i, x, dead, m);
    }
    forall m, k: nat | m in u.nodes ensures DownOk(u, m, k) {
      assert At(m, k) != dead ==> DownOk(t, m, k);
    }
  }

  lemma SlotNode(t: Tree, n: nat, i: nat, x: nat, dead: Place, m: nat)
    requires InvX(t, dead) && n in t.nodes && i < WIDTH == |t.nodes[n].slots| && m in t.nodes
    requires if x == NULL then t.nodes[n].slots[i] != NULL && t.nodes[n].count > 0 else t.nodes[n].slots[i] == NULL
    requires (dead == Nowhere && t.pos[n].level == 0) || (x == NULL && dead == At(n, i))
    ensures NodeOk(SetSlot(t, n, i, x), m)
  {
    assert NodeOk(t, n) && NodeOk(t, m);
    CountSet(t.nodes[n].slots, i, x);
  }

  /** No lookup of another index changes. */
  lemma {:induction false} LeafOther(t: Tree, n: nat, i: nat, x: nat, m: nat, level: nat, index: nat)
    requires Inv(t) && n in t.nodes && i < WIDTH == |t.nodes[n].slots| && t.pos[n].level == 0
    requires x == NULL ==> t.nodes[n].count > 0
    requires m in t.nodes && t.pos[m] == Pos(level, Shift(index, level + 1)) && index != IndexOf(t, n, i)
    ensures Leaf(SetSlot(t, n, i, x), m, level, index) == Leaf(t, m, level, index)
    decreases level
  {
    NoNull(t, Nowhere);
    assert NodeOk(t, m);
    var d := Digit(index, level);
    if level > 0 {
      assert DownOk(t, m, d);
      if t.nodes[m].slots[d] != NULL {
        LeafOther(t, n, i, x, t.nodes[m].slots[d], level - 1, index);
      }
    }
  }

  /** The walk of an index passes through every node placed at one of its prefixes. */
  lemma {:induction false} Through(t: Tree, dead: Place, n: nat, index: nat)
    requires InvX(t, dead) && n in t.nodes && t.pos[n].prefix == Shift(index, t.pos[n].level + 1)
    ensures t.height > 0 && t.root in t.nodes
    ensures Leaf(t, t.root, t.height - 1, index) == Leaf(t, n, t.pos[n].level, index)
    decreases t.height - t.pos[n].level
  {
    assert NodeOk(t, n);
    if n != t.root {
      assert NodeOk(t, t.nodes[n].parent);
      Through(t, dead, t.nodes[n].parent, index);
    }
  }

  /** A leaf slot is set: exactly one key of the map changes. */
  lemma SlotValue(t: Tree, n: nat, i: nat, x: nat, index: nat)
    requires Inv(t) && n in t.nodes && i < WIDTH == |t.nodes[n].slots| && t.pos[n].level == 0
    requires if x == NULL then t.nodes[n].slots[i] != NULL else t.nodes[n].slots[i] == NULL
    requires IndexOf(t, n, i) < Capacity(t.height)
    ensures (x == NULL ==> t.nodes[n].count > 0)
    ensures Value(SetSlot(t, n, i, x), index) == if index == IndexOf(t, n, i) then x else Value(t, index)
  {
    SlotKeeps(t, n, i, x, Nowhere);
    var u := SetSlot(t, n, i, x);
    assert NodeOk(t, n);
    if index == IndexOf(t, n, i) {
      assert Shift(index, 0) == index && Shift(index, 1) == Shift(index, 0) / WIDTH;
      Through(u, Nowhere, n, index);
    } else if index < Capacity(t.height) {
      RootPlace(t, Nowhere, index);
      LeafOther(t, n, i, x, t.root, t.height - 1, index);
    }
  }

  // --- An empty node is freed ---

  ghost function Drop(t: Tree, n: nat): Tree
  {
    t.(nodes := t.nodes - {n}, pos := t.pos - {n})
  }

  lemma DropKeeps(t: Tree, n: nat)
    requires Inv(t) && n in t.nodes && n != t.root && t.nodes[n].count == 0
    ensures n in t.pos && InvX(Drop(t, n), At(t.nodes[n].parent, t.pos[n].prefix % WIDTH))
  {
    assert NodeOk(t, n);
    var p, k, u := t.nodes[n].parent, t.pos[n].prefix % WIDTH, Drop(t, n);
    assert NodeOk(t, p) && t.root != NULL;
    forall m | m in u.nodes ensures NodeOk(u, m) {
      DropNode(t, n, m);
    }
    forall m, i: nat | m in u.nodes && At(m, i) != At(p, k) ensures DownOk(u, m, i) {
      assert DownOk(t, m, i);
      assert i < |t.nodes[m].slots| && t.pos[m].level > 0 && t.nodes[m].slots[i] == n ==> m == p && i == k;
    }
  }

  lemma DropNode(t: Tree, n: nat, m: nat)
    requires Inv(t) && n in t.nodes && n != t.root && t.nodes[n].count == 0 && m in t.nodes && m != n
    ensures NodeOk(Drop(t, n), m)
  {
    assert NodeOk(t, m) && NodeOk(t, n);
    if m != t.root && t.nodes[m].parent == n {
      CountZero(t.nodes[n].slots, t.pos[m].prefix % WIDTH);
    }
  }

  lemma {:induction false} DropLeaf(t: Tree, n: nat, m: nat, level: nat, index: nat)
    requires Inv(t) && n in t.nodes && n != t.root && t.nodes[n].count == 0
    requires m in t.nodes && t.pos[m].level == level
    ensures Leaf(Drop(t, n), m, level, index) == Leaf(t, m, level, index)
    decreases level
  {
    NoNull(t, Nowhere);
    assert NodeOk(t, m) && NodeOk(t, n);
    if m == n {
      forall k | 0 <= k < WIDTH ensures t.nodes[n].slots[k] == NULL {
        CountZero(t.nodes[n].slots, k);
      }
      EmptyLeaf(t, n, level, index);
    } else if level > 0 {
      var d := Digit(index, level);
      assert DownOk(t, m, d);
      if t.nodes[m].slots[d] != NULL {
        DropLeaf(t, n, t.nodes[m].slots[d], level - 1, index);
      }
    }
  }

  lemma DropValue(t: Tree, n: nat, index: nat)
    requires Inv(t) && n in t.nodes && n != t.root && t.nodes[n].count == 0
    ensures Value(Drop(t, n), index) == Value(t, index)
  {
    assert NodeOk(t, n);
    if t.height > 0 && index < Capacity(t.height) {
      assert NodeOk(t, t.root);
      DropLeaf(t, n, t.root, t.height - 1, index);
    }
  }

  // --- The slot of a freed node is cleared ---

  lemma {:induction false} DeadLeaf(t: Tree, n: nat, i: nat, m: nat, level: nat, index: nat)
    requires InvX(t, At(n, i)) && t.nodes[n].count > 0 && m in t.nodes && t.pos[m].level == level
    ensures Leaf(SetSlot(t, n, i, NULL), m, level, index) == Leaf(t, m, level, index)
    decreases level
  {
    NoNull(t, At(n, i));
    assert NodeOk(t, m) && NodeOk(t, n);
    var d := Digit(index, level);
    if level > 0 && At(m, d) != At(n, i) {
      assert DownOk(t, m, d);
      if t.nodes[m].slots[d] != NULL {
        DeadLeaf(t, n, i, t.nodes[m].slots[d], level - 1, index);
      }
    }
  }

  lemma DeadValue(t: Tree, n: nat, i: nat, index: nat)
    requires InvX(t, At(n, i))
    ensures t.nodes[n].count > 0 && Inv(SetSlot(t, n, i, NULL))
    ensures Value(SetSlot(t, n, i, NULL), index) == Value(t, index)
  {
    SlotKeeps(t, n, i, NULL, At(n, i));
    assert NodeOk(t, n);
    if t.height > 0 && index < Capacity(t.height) {
      assert NodeOk(t, t.root);
      DeadLeaf(t, n, i, t.root, t.height - 1, index);
    }
  }

  // --- The root is empty ---

  ghost function Empty(): Tree
  {
    Tree(map[], NULL, 0, map[])
  }

  /** Under an empty root there is nothing. */
  lemma {:induction false} AloneBelow(t: Tree, n: nat)
    requires Inv(t) && t.root in t.nodes && t.nodes[t.root].count == 0 && n in t.nodes
    ensures n == t.root
    decreases t.height - (if n in t.pos then t.pos[n].level else 0)
  {
    assert NodeOk(t, n);
    if n != t.root {
      var p := t.nodes[n].parent;
      assert NodeOk(t, p);
      AloneBelow(t, p);
      CountZero(t.nodes[p].slots, t.pos[n].prefix % WIDTH);
    }
  }

  lemma EmptyRoot(t: Tree, index: nat)
    requires Inv(t) && t.root in t.nodes && t.nodes[t.root].count == 0
    ensures Inv(Empty()) && Value(Empty(), index) == Value(t, index)
    ensures t.nodes.Keys == {t.root}
  {
    NoNull(t, Nowhere);
    assert NodeOk(t, t.root);
    forall k | 0 <= k < WIDTH ensures t.nodes[t.root].slots[k] == NULL {
      CountZero(t.nodes[t.root].slots, k);
    }
    EmptyLeaf(t, t.root, t.height - 1, index);
    forall n | n in t.nodes ensures n == t.root {
      AloneBelow(t, n);
    }
  }
}
