/**
 * The circular doubly linked list with a sentinel: `prev` and `next` pointers
 * of numbered nodes, and the sequence of elements they stand for.
 */
module LinkedRing {
  import opened NatLists

  /** The sentinel inside the list head. */
  const HEAD := 0

  datatype Ring = Ring(prev: map<nat, nat>, next: map<nat, nat>, list: seq<nat>)

  /** The i-th node on the way around: the sentinel, the elements, the sentinel again. */
  function At(list: seq<nat>, i: nat): nat
    requires i <= |list| + 1
  {
    if i == 0 || i == |list| + 1 then HEAD else list[i - 1]
  }

  /** Nodes i and i + 1 point to each other. */
  ghost predicate LinkAt(r: Ring, i: nat)
    requires i <= |r.list|
  {
    var (a, b) := (At(r.list, i), At(r.list, i + 1));
    a in r.next && r.next[a] == b && b in r.prev && r.prev[b] == a
  }

  ghost predicate Inv(r: Ring)
  {
    && NoDup(r.list) && HEAD !in r.list
    && forall i: nat {:trigger LinkAt(r, i)} | i <= |r.list| :: LinkAt(r, i)
  }

  lemma AtDistinct(list: seq<nat>, i: nat, k: nat)
    requires NoDup(list) && HEAD !in list && i < k <= |list| + 1 && !(i == 0 && k == |list| + 1)
    ensures At(list, i) != At(list, k)
  {
    assert 0 < i <= |list| ==> list[i - 1] in list;
    assert 0 < k <= |list| ==> list[k - 1] in list;
  }

  /** A node goes in before the node at position k + 1. */
  ghost function Insert(r: Ring, k: nat, n: nat): Ring
    requires k <= |r.list|
  {
    var (a, b) := (At(r.list, k), At(r.list, k + 1));
    Ring(r.prev[n := a][b := n], r.next[n := b][a := n], r.list[..k] + [n] + r.list[k..])
  }

  lemma InsertAt(r: Ring, k: nat, n: nat, i: nat)
    requires k <= |r.list| && i <= |r.list| + 2
    ensures At(Insert(r, k, n).list, i) == if i <= k then At(r.list, i) else if i == k + 1 then n else At(r.list, i - 1)
  {
  }

  lemma InsertLink(r: Ring, k: nat, n: nat, i: nat)
    requires Inv(r) && k <= |r.list| && n !in r.list && n != HEAD && i <= |r.list| + 1
    ensures LinkAt(Insert(r, k, n), i)
  {
    InsertAt(r, k, n, i);
    InsertAt(r, k, n, i + 1);
    if i < k {
      assert LinkAt(r, i);
      AtDistinct(r.list, i, k);
      AtDistinct(r.list, i + 1, k + 1);
    } else if i > k + 1 {
      assert LinkAt(r, i - 1);
      AtDistinct(r.list, k, i - 1);
      AtDistinct(r.list, k + 1, i);
    }
  }

  /** Insertion keeps the list well formed and puts the node where it says. */
  lemma InsertKeeps(r: Ring, k: nat, n: nat)
    requires Inv(r) && k <= |r.list| && n !in r.list && n != HEAD
    ensures Inv(Insert(r, k, n))
  {
    var s := Insert(r, k, n);
    forall i: nat | i <= |s.list| ensures LinkAt(s, i) {
      InsertLink(r, k, n, i);
    }
    assert NoDup(s.list) by {
      assert forall i | 0 <= i < |s.list| :: s.list[i] == if i < k then r.list[i] else if i == k then n else r.list[i - 1];
    }
  }

  /** The node at list index k is taken out. */
  ghost function Remove(r: Ring, k: nat): Ring
    requires k < |r.list|
  {
    var (a, b) := (At(r.list, k), At(r.list, k + 2));
    Ring(r.prev[b := a], r.next[a := b], r.list[..k] + r.list[k + 1..])
  }

  lemma RemoveAt(r: Ring, k: nat, i: nat)
    requires k < |r.list| && i <= |r.list|
    ensures At(Remove(r, k).list, i) == At(r.list, if i <= k then i else i + 1)
  {
  }

  lemma RemoveLink(r: Ring, k: nat, i: nat)
    requires Inv(r) && k < |r.list| && i < |r.list|
    ensures LinkAt(Remove(r, k), i)
  {
    RemoveAt(r, k, i);
    RemoveAt(r, k, i + 1);
    if i < k {
      assert LinkAt(r, i);
      AtDistinct(r.list, i, k);
      AtDistinct(r.list, i + 1, k + 2);
    } else if i > k {
      assert LinkAt(r, i + 1);
      AtDistinct(r.list, k, i + 1);
      AtDistinct(r.list, k + 2, i + 2);
    }
  }

  lemma RemoveKeeps(r: Ring, k: nat)
    requires Inv(r) && k < |r.list|
    ensures Inv(Remove(r, k))
  {
    var s := Remove(r, k);
    forall i: nat | i <= |s.list| ensures LinkAt(s, i) {
      RemoveLink(r, k, i);
    }
    assert NoDup(s.list) && HEAD !in s.list by {
      assert forall i | 0 <= i < |s.list| :: s.list[i] == if i < k then r.list[i] else r.list[i + 1];
    }
  }
}
