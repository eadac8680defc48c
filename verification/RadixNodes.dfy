/**
 * The nodes of a radix tree of width 64 and what they mean. `pos` gives each
 * node its level (0 for parents of leaves) and the common upper digits of the
 * indices below it.
 */
module RadixNodes {

  const WIDTH := 64
  const NULL := 0

  datatype Node = Node(count: nat, parent: nat, slots: seq<nat>)
  datatype Pos = Pos(level: nat, prefix: nat)
  datatype Tree = Tree(nodes: map<nat, Node>, root: nat, height: nat, pos: map<nat, Pos>)

  // --- Digits ---

  /** `index >> (6 * level)`. */
  function Shift(index: nat, level: nat): nat
  {
    if level == 0 then index else Shift(index, level - 1) / WIDTH
  }

  function Digit(index: nat, level: nat): (d: nat)
    ensures d < WIDTH
  {
    Shift(index, level) % WIDTH
  }

  /** `1 << (6 * height)`. */
  function Capacity(height: nat): (c: nat)
    ensures c > 0
  {
    if height == 0 then 1 else WIDTH * Capacity(height - 1)
  }

  /** Digits above the height are zero exactly for the indices the height allows. */
  lemma {:induction false} ShiftZero(index: nat, level: nat)
    ensures Shift(index, level) == 0 <==> index < Capacity(level)
  {
    if level > 0 {
      ShiftLow(index, level);
      ShiftZero(index / WIDTH, level - 1);
      assert index / WIDTH < Capacity(level - 1) <==> index < WIDTH * Capacity(level - 1);
    }
  }

  lemma {:induction false} ShiftLow(index: nat, level: nat)
    requires level > 0
    ensures Shift(index, level) == Shift(index / WIDTH, level - 1)
  {
    if level > 1 {
      ShiftLow(index, level - 1);
    }
  }

  // --- Structure ---

  function CountUsed(slots: seq<nat>): (n: nat)
    ensures n <= |slots|
  {
    if slots == [] then 0 else CountUsed(slots[..|slots| - 1]) + (if slots[|slots| - 1] != NULL then 1 else 0)
  }

  lemma {:induction false} CountSet(slots: seq<nat>, i: nat, x: nat)
    requires i < |slots|
    ensures CountUsed(slots[i := x]) ==
      CountUsed(slots) + (if x != NULL then 1 else 0) - (if slots[i] != NULL then 1 else 0)
  {
    var n := |slots| - 1;
    if i < n {
      CountSet(slots[..n], i, x);
      assert slots[i := x][..n] == slots[..n][i := x];
    } else {
      assert slots[i := x][..n] == slots[..n];
    }
  }

  lemma {:induction false} CountZero(slots: seq<nat>, i: nat)
    requires i < |slots| && CountUsed(slots) == 0
    ensures slots[i] == NULL
  {
    var n := |slots| - 1;
    if i < n {
      CountZero(slots[..n], i);
    }
  }

  lemma {:induction false} CountNone(n: nat)
    ensures CountUsed(seq(n, _ => NULL)) == 0
  {
    if n > 0 {
      assert seq(n, _ => NULL)[..n - 1] == seq(n - 1, _ => NULL);
      CountNone(n - 1);
    }
  }

  /** The slot that a node hangs on. */
  datatype Place = Nowhere | At(node: nat, i: nat)

  ghost predicate NodeOk(t: Tree, n: nat)
  {
    && n in t.nodes && n in t.pos && n != NULL && |t.nodes[n].slots| == WIDTH
    && t.nodes[n].count == CountUsed(t.nodes[n].slots) && t.pos[n].level < t.height
    && (n == t.root ==> t.nodes[n].parent == NULL && t.pos[n] == Pos(t.height - 1, 0))
    && (n != t.root ==> UpOk(t, n))
  }

  /** A node other than the root hangs on its parent at its lowest digit. */
  ghost predicate UpOk(t: Tree, n: nat)
    requires n in t.nodes && n in t.pos
  {
    var (p, q) := (t.nodes[n].parent, t.pos[n]);
    && p in t.nodes && p in t.pos && |t.nodes[p].slots| == WIDTH
    && t.pos[p] == Pos(q.level + 1, q.prefix / WIDTH) && t.nodes[p].slots[q.prefix % WIDTH] == n
  }

  /** An inner slot is empty or holds the node for that digit. */
  ghost predicate DownOk(t: Tree, n: nat, i: nat)
    requires n in t.nodes && n in t.pos
  {
    i < |t.nodes[n].slots| && t.pos[n].level > 0 && t.nodes[n].slots[i] != NULL ==>
      var c := t.nodes[n].slots[i];
      c in t.nodes && c in t.pos && c != t.root && t.nodes[c].parent == n
      && t.pos[c] == Pos(t.pos[n].level - 1, t.pos[n].prefix * WIDTH + i)
  }

  /** All is linked, except that the node at `dead` may be gone. */
  ghost predicate InvX(t: Tree, dead: Place)
  {
    && t.pos.Keys == t.nodes.Keys && (t.root == NULL <==> t.height == 0) && (t.root == NULL ==> t.nodes == map[])
    && (t.root != NULL ==> t.root in t.nodes)
    && (forall n {:trigger NodeOk(t, n)} | n in t.nodes :: NodeOk(t, n))
    && (forall n, i: nat {:trigger DownOk(t, n, i)} | n in t.nodes && At(n, i) != dead :: DownOk(t, n, i))
    && (dead.At? ==> && dead.node in t.nodes && dead.i < WIDTH == |t.nodes[dead.node].slots| && t.pos[dead.node].level > 0
                     && t.nodes[dead.node].slots[dead.i] != NULL && t.nodes[dead.node].slots[dead.i] !in t.nodes)
  }

  ghost predicate Inv(t: Tree)
  {
    InvX(t, Nowhere)
  }

  // --- Meaning ---

  /** The leaf at an index below node n of this level, NULL if there is none. */
  ghost function Leaf(t: Tree, n: nat, level: nat, index: nat): nat
    decreases level
  {
    if n !in t.nodes || |t.nodes[n].slots| != WIDTH then NULL
    else
      var c := t.nodes[n].slots[Digit(index, level)];
      if level == 0 then c else Leaf(t, c, level - 1, index)
  }

  /** The finite map that the tree stands for. */
  ghost function Value(t: Tree, index: nat): nat
  {
    if t.height == 0 || index >= Capacity(t.height) then NULL else Leaf(t, t.root, t.height - 1, index)
  }

  /** From the root, an index in range starts at its own prefix. */
  lemma RootPlace(t: Tree, dead: Place, index: nat)
    requires InvX(t, dead) && t.height > 0 && index < Capacity(t.height)
    ensures t.root in t.nodes && t.pos[t.root] == Pos(t.height - 1, Shift(index, t.height))
  {
    assert NodeOk(t, t.root);
    ShiftZero(index, t.height);
  }

  lemma NoNull(t: Tree, dead: Place)
    requires InvX(t, dead)
    ensures NULL !in t.nodes
  {
    assert NULL in t.nodes ==> NodeOk(t, NULL);
  }
}
