/** Lists of numbers without repetition. */
module NatLists {

  ghost predicate NoDup(l: seq<nat>)
  {
    forall i, k | 0 <= i < k < |l| :: l[i] != l[k]
  }

  /** The list after `list_remove` of an element. */
  function Without(l: seq<nat>, c: nat): seq<nat>
  {
    if l == [] then [] else if l[0] == c then l[1..] else [l[0]] + Without(l[1..], c)
  }

  lemma {:induction false} WithoutList(l: seq<nat>, c: nat)
    requires NoDup(l)
    ensures NoDup(Without(l, c)) && forall d :: d in Without(l, c) <==> d in l && d != c
  {
    if l != [] {
      assert l == [l[0]] + l[1..] && l[0] !in l[1..];
      if l[0] != c {
        WithoutList(l[1..], c);
        assert l[0] !in Without(l[1..], c);
      }
    }
  }

  lemma {:induction false} WithoutAt(l: seq<nat>, k: nat)
    requires NoDup(l) && k < |l|
    ensures Without(l, l[k]) == l[..k] + l[k + 1..]
  {
    if k > 0 {
      WithoutAt(l[1..], k - 1);
      assert l[1..][..k - 1] == l[1..k] && l[1..][k..] == l[k + 1..] && l[..k] == [l[0]] + l[1..k];
    }
  }
}
