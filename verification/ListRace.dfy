/**
 * `list_append` on one list from two CPUs, write by write. The ring's sequence
 * has the nodes that were written into the list and not taken out since: it is
 * what the pointers should stand for.
 */
module ListRace {
  import opened Basics
  import opened NatLists
  import opened LinkedRing

  /**
   * How far an append is: it reads the tail, writes the tail's `next`, reads the
   * tail again into the node's `prev`, writes the node's `next`, and last the
   * head's `prev`.
   */
  datatype Stage = Start | Loaded(tail: nat) | Stored | PrevSet | NextSet

  datatype App = App(node: nat, at: Stage)

  /** The list, and the append that each thread is in. */
  datatype Race = Race(ring: Ring, apps: map<nat, App>)

  // --- Steps ---

  ghost predicate IsAt(r: Race, a: nat, at: Stage)
  {
    a in r.apps && r.apps[a].at == at
  }

  ghost predicate HasLoaded(r: Race, a: nat)
  {
    a in r.apps && r.apps[a].at.Loaded?
  }

  /** The append is between its first and its last write. */
  ghost predicate Writing(r: Race, a: nat)
  {
    a in r.apps && (r.apps[a].at.Stored? || r.apps[a].at.PrevSet? || r.apps[a].at.NextSet?)
  }

  ghost predicate OtherWriting(r: Race, a: nat)
  {
    exists b :: b != a && Writing(r, b)
  }

  /** The node waits for its first write. */
  ghost predicate InHand(r: Race, n: nat)
  {
    exists a :: a in r.apps && r.apps[a].node == n && !Writing(r, a)
  }

  ghost function Move(r: Race, a: nat, at: Stage): Race
    requires a in r.apps
  {
    r.(apps := r.apps[a := r.apps[a].(at := at)])
  }

  ghost function Begin(r: Race, a: nat, n: nat): Race
  {
    r.(apps := r.apps[a := App(n, Start)])
  }

  ghost function Load(r: Race, a: nat): Race
    requires IsAt(r, a, Start) && HEAD in r.ring.prev
  {
    Move(r, a, Loaded(r.ring.prev[HEAD]))
  }

  ghost function Store(r: Race, a: nat): Race
    requires HasLoaded(r, a)
  {
    var (n, t) := (r.apps[a].node, r.apps[a].at.tail);
    Move(r, a, Stored).(ring := r.ring.(next := r.ring.next[t := n], list := r.ring.list + [n]))
  }

  ghost function SetPrev(r: Race, a: nat): Race
    requires IsAt(r, a, Stored) && HEAD in r.ring.prev
  {
    Move(r, a, PrevSet).(ring := r.ring.(prev := r.ring.prev[r.apps[a].node := r.ring.prev[HEAD]]))
  }

  ghost function SetNext(r: Race, a: nat): Race
    requires IsAt(r, a, PrevSet)
  {
    Move(r, a, NextSet).(ring := r.ring.(next := r.ring.next[r.apps[a].node := HEAD]))
  }

  ghost function SetTail(r: Race, a: nat): Race
    requires IsAt(r, a, NextSet)
  {
    Race(r.ring.(prev := r.ring.prev[HEAD := r.apps[a].node]), r.apps - {a})
  }

  /** `list_remove` of a node whose record is then freed. */
  ghost function TakeOut(r: Race, c: nat): Race
    requires c in r.ring.prev && c in r.ring.next
  {
    var (p, n) := (r.ring.prev[c], r.ring.next[c]);
    r.(ring := Ring(r.ring.prev[n := p] - {c}, r.ring.next[p := n] - {c}, Without(r.ring.list, c)))
  }

  // --- What a walk through the list meets ---

  /** The k-th node on the way from the head. */
  ghost function Nth(next: map<nat, nat>, k: nat): nat
  {
    if k == 0 then HEAD else var x := Nth(next, k - 1); if x in next then next[x] else HEAD
  }

  ghost predicate OnList(next: map<nat, nat>, c: nat)
  {
    c != HEAD && exists k: nat :: Nth(next, k) == c
  }

  /** No pointer leads to the node. */
  ghost predicate Orphaned(next: map<nat, nat>, c: nat)
  {
    c != HEAD && forall z | z in next :: next[z] != c
  }

  lemma OrphanUnseen(next: map<nat, nat>, c: nat)
    requires Orphaned(next, c)
    ensures !OnList(next, c)
  {
    forall k: nat ensures Nth(next, k) != c {
    }
  }

  // --- Invariants ---

  /** Nodes and threads are not mixed up; this holds whatever the pointers do. */
  ghost predicate Sound(r: Race)
  {
    && NoDup(r.ring.list) && HEAD !in r.ring.list && HEAD in r.ring.prev
    && (forall a {:trigger AppOk(r, a)} | a in r.apps :: AppOk(r, a))
    && (forall a, b {:trigger Apart(r, a, b)} | a in r.apps && b in r.apps && a != b :: Apart(r, a, b))
    && (forall c {:trigger Placed(r, c)} | c in r.ring.list :: Placed(r, c))
  }

  /** A node whose append is over has both pointers. */
  ghost predicate Placed(r: Race, c: nat)
  {
    (c in r.ring.prev && c in r.ring.next) || exists a :: a in r.apps && r.apps[a].node == c
  }

  ghost predicate AppOk(r: Race, a: nat)
    requires a in r.apps
  {
    && r.apps[a].node != HEAD && (r.apps[a].node in r.ring.list <==> Writing(r, a))
    && (r.apps[a].at.PrevSet? || r.apps[a].at.NextSet? ==> r.apps[a].node in r.ring.prev)
    && (r.apps[a].at.NextSet? ==> r.apps[a].node in r.ring.next)
  }

  ghost predicate Apart(r: Race, a: nat, b: nat)
    requires a in r.apps && b in r.apps
  {
    r.apps[a].node != r.apps[b].node
  }

  /** The ring once the append of n has made its remaining writes. */
  ghost function Finished(g: Ring, n: nat): Ring
    requires HEAD in g.prev
  {
    Ring(g.prev[n := g.prev[HEAD]][HEAD := n], g.next[n := HEAD], g.list)
  }

  /** The only writes that are missing in the list are the coming ones of a. */
  ghost predicate Midway(r: Race, a: nat)
    requires Writing(r, a) && HEAD in r.ring.prev
  {
    var (g, n) := (r.ring, r.apps[a].node);
    && g.list != [] && n == g.list[|g.list| - 1] && LinkedRing.Inv(Finished(g, n)) && g.prev[HEAD] == At(g.list, |g.list| - 1)
    && (r.apps[a].at != Stored ==> n in g.prev && g.prev[n] == g.prev[HEAD])
    && (if r.apps[a].at == NextSet then n in g.next && g.next[n] == HEAD else n !in g.next)
    && forall b {:trigger Writing(r, b)} | Writing(r, b) :: b == a
  }

  /** Only the head and the nodes of the list point anywhere. */
  ghost predicate Exact(g: Ring)
  {
    (forall z | z in g.next :: z == HEAD || z in g.list) && (forall z | z in g.prev :: z == HEAD || z in g.list)
  }

  /** The tail that an append has read is the head or in the list, and is not being appended. */
  ghost predicate TailOk(r: Race, a: nat)
    requires HasLoaded(r, a)
  {
    var t := r.apps[a].at.tail;
    (t == HEAD || t in r.ring.list) && forall b {:trigger Writing(r, b)} | Writing(r, b) :: r.apps[b].node != t
  }

  /** The pointers stand for the list, but for the writes of at most one append. */
  ghost predicate Good(r: Race)
  {
    && Sound(r) && Exact(r.ring)
    && (forall a {:trigger Midway(r, a)} | Writing(r, a) :: Midway(r, a))
    && ((forall a {:trigger Writing(r, a)} :: !Writing(r, a)) ==> LinkedRing.Inv(r.ring))
    && (forall a {:trigger TailOk(r, a)} | HasLoaded(r, a) :: TailOk(r, a))
  }

  /** Another append has got between the read of the tail and the write to it. */
  ghost predicate Stale(r: Race, a: nat)
  {
    HasLoaded(r, a) && (HEAD !in r.ring.prev || r.apps[a].at.tail != r.ring.prev[HEAD] || OtherWriting(r, a))
  }

  // --- Sound is always kept ---

  lemma BeginSound(r: Race, a: nat, n: nat)
    requires Sound(r) && a !in r.apps && n != HEAD && n !in r.ring.list && forall b | b in r.apps :: r.apps[b].node != n
    ensures Sound(Begin(r, a, n))
  {
    var s := Begin(r, a, n);
    forall b | b in s.apps ensures AppOk(s, b) {
      assert b != a ==> AppOk(r, b);
    }
    forall b, c | b in s.apps && c in s.apps && b != c ensures Apart(s, b, c) {
      assert b in r.apps && c in r.apps ==> Apart(r, b, c);
    }
    forall c | c in s.ring.list ensures Placed(s, c) {
      assert Placed(r, c);
      assert forall b | b in r.apps :: s.apps[b] == r.apps[b];
    }
  }

  /** The nodes that are placed or being appended stay so. */
  lemma PlacedKept(r: Race, s: Race, c: nat)
    requires Placed(r, c) && r.ring.prev.Keys <= s.ring.prev.Keys && r.ring.next.Keys <= s.ring.next.Keys
    requires forall a | a in r.apps :: a in s.apps && s.apps[a].node == r.apps[a].node
    ensures Placed(s, c)
  {
    if !(c in r.ring.prev && c in r.ring.next) {
      var a :| a in r.apps && r.apps[a].node == c;
      assert a in s.apps && s.apps[a].node == c;
    }
  }

  /** An append moves on without its first write. */
  lemma MoveSound(r: Race, s: Race, a: nat)
    requires Sound(r) && a in r.apps && a in s.apps && s.apps == r.apps[a := s.apps[a]] && s.apps[a].node == r.apps[a].node
    requires s.ring.list == r.ring.list && (Writing(r, a) <==> Writing(s, a)) && AppOk(s, a)
    requires r.ring.prev.Keys <= s.ring.prev.Keys && r.ring.next.Keys <= s.ring.next.Keys
    ensures Sound(s)
  {
    forall b | b in s.apps ensures AppOk(s, b) {
      assert AppOk(r, b);
    }
    forall b, c | b in s.apps && c in s.apps && b != c ensures Apart(s, b, c) {
      assert Apart(r, b, c);
    }
    forall c | c in s.ring.list ensures Placed(s, c) {
      assert Placed(r, c);
      PlacedKept(r, s, c);
    }
  }

  lemma StoreSound(r: Race, a: nat)
    requires Sound(r) && HasLoaded(r, a)
    ensures Sound(Store(r, a))
  {
    var s := Store(r, a);
    assert AppOk(r, a);
    forall b | b in s.apps ensures AppOk(s, b) {
      assert AppOk(r, b) && (b != a ==> Apart(r, a, b));
    }
    forall b, c | b in s.apps && c in s.apps && b != c ensures Apart(s, b, c) {
      assert Apart(r, b, c);
    }
    assert s.apps[a].node == r.apps[a].node;
    forall c | c in s.ring.list ensures Placed(s, c) {
      if c in r.ring.list {
        assert Placed(r, c);
        PlacedKept(r, s, c);
      }
    }
  }

  lemma TailSound(r: Race, a: nat)
    requires Sound(r) && IsAt(r, a, NextSet)
    ensures Sound(SetTail(r, a))
  {
    var s := SetTail(r, a);
    assert AppOk(r, a);
    forall b | b in s.apps ensures AppOk(s, b) {
      assert AppOk(r, b);
    }
    forall b, c | b in s.apps && c in s.apps && b != c ensures Apart(s, b, c) {
      assert Apart(r, b, c);
    }
    forall c | c in s.ring.list ensures Placed(s, c) {
      assert Placed(r, c);
      if !(c in r.ring.prev && c in r.ring.next) {
        var b :| b in r.apps && r.apps[b].node == c;
        assert b != a ==> b in s.apps && s.apps[b].node == c;
      }
    }
  }

  lemma TakeSound(r: Race, c: nat)
    requires Sound(r) && c in r.ring.prev && c in r.ring.next && c != HEAD && r.apps == map[]
    ensures Sound(TakeOut(r, c))
  {
    WithoutList(r.ring.list, c);
    forall d | d in TakeOut(r, c).ring.list ensures Placed(TakeOut(r, c), d) {
      assert Placed(r, d);
    }
  }

  // --- What keeps the pointers right ---

  /** Nothing that the pointers stand for changes when an append begins or reads the tail. */
  lemma QuietKeeps(r: Race, s: Race, a: nat)
    requires Good(r) && Sound(s) && s.ring == r.ring && a in s.apps && s.apps == r.apps[a := s.apps[a]]
    requires !Writing(r, a) && !Writing(s, a) && (HasLoaded(s, a) ==> TailOk(s, a))
    ensures Good(s)
  {
    forall b ensures Writing(s, b) <==> Writing(r, b) {
    }
    forall b | Writing(s, b) ensures Midway(s, b) {
      assert Midway(r, b);
    }
    forall b | HasLoaded(s, b) ensures TailOk(s, b) {
      if b != a {
        assert TailOk(r, b);
      }
    }
  }

  lemma BeginGood(r: Race, a: nat, n: nat)
    requires Good(r) && a !in r.apps && n != HEAD && n !in r.ring.list && forall b | b in r.apps :: r.apps[b].node != n
    ensures Good(Begin(r, a, n))
  {
    BeginSound(r, a, n);
    QuietKeeps(r, Begin(r, a, n), a);
  }

  /** The tail is the head or in the list, and never a node whose last write is missing. */
  lemma TailInList(r: Race)
    requires Good(r)
    ensures var t := r.ring.prev[HEAD]; (t == HEAD || t in r.ring.list) && forall b | Writing(r, b) :: r.apps[b].node != t
  {
    if b :| Writing(r, b) {
      var l := r.ring.list;
      assert Midway(r, b);
      forall c | Writing(r, c) ensures c == b {
        assert Midway(r, c);
      }
      assert l[|l| - 1] in l;
      if |l| > 1 {
        assert l[|l| - 2] in l;
      }
    } else {
      assert LinkAt(r.ring, |r.ring.list|);
    }
  }

  lemma LoadGood(r: Race, a: nat)
    requires Good(r) && IsAt(r, a, Start)
    ensures Good(Load(r, a)) && (Stale(Load(r, a), a) <==> OtherWriting(r, a))
  {
    var s := Load(r, a);
    TailInList(r);
    assert AppOk(r, a);
    MoveSound(r, s, a);
    forall b ensures Writing(s, b) <==> Writing(r, b) {
    }
    QuietKeeps(r, s, a);
  }

  /** A store to the tail, with no other append under way, is the middle of an insertion at the end. */
  lemma StoreMidway(r: Race, a: nat)
    requires Good(r) && HasLoaded(r, a) && !Stale(r, a)
    ensures Midway(Store(r, a), a)
  {
    var s, n, l := Store(r, a), r.apps[a].node, r.ring.list;
    assert AppOk(r, a);
    forall b ensures !Writing(r, b) {
    }
    InsertKeeps(r.ring, |l|, n);
    assert LinkAt(r.ring, |l|);
    assert At(l, |l|) == r.ring.prev[HEAD];
    assert l[..|l|] + [n] + l[|l|..] == l + [n];
    assert Finished(s.ring, n) == Insert(r.ring, |l|, n) by {
      assert At(l, |l|) != n;
      assert s.ring.next[n := HEAD] == r.ring.next[n := HEAD][At(l, |l|) := n];
    }
    forall b | Writing(s, b) ensures b == a {
      assert b != a ==> Writing(r, b);
    }
  }

  lemma StoreGood(r: Race, a: nat)
    requires Good(r) && HasLoaded(r, a) && !Stale(r, a)
    ensures Good(Store(r, a))
  {
    var s := Store(r, a);
    StoreSound(r, a);
    StoreMidway(r, a);
    TailInList(r);
    forall b | Writing(s, b) ensures b == a && Midway(s, b) {
      assert b != a ==> Writing(r, b);
    }
    assert Writing(s, a);
    assert AppOk(r, a) && TailOk(r, a);
    forall b | HasLoaded(s, b) ensures TailOk(s, b) {
      assert TailOk(r, b);
    }
  }

  lemma WriterAlone(r: Race, a: nat, b: nat)
    requires Good(r) && Writing(r, a) && Writing(r, b)
    ensures a == b
  {
    assert Midway(r, a);
  }

  /** The later writes of the append that is under way. */
  lemma WriteKeeps(r: Race, s: Race, a: nat)
    requires Good(r) && Writing(r, a) && Writing(s, a) && s.apps == r.apps[a := s.apps[a]] && s.apps[a].node == r.apps[a].node
    requires s.ring.list == r.ring.list && HEAD in s.ring.prev && Exact(s.ring) && Midway(s, a) && Sound(s)
    ensures Good(s)
  {
    forall b | Writing(s, b) ensures b == a {
      assert Writing(r, b);
      WriterAlone(r, a, b);
    }
    forall b | HasLoaded(s, b) ensures TailOk(s, b) {
      assert TailOk(r, b);
    }
  }

  lemma SetPrevGood(r: Race, a: nat)
    requires Good(r) && IsAt(r, a, Stored)
    ensures Good(SetPrev(r, a))
  {
    var s, n := SetPrev(r, a), r.apps[a].node;
    assert Midway(r, a) && AppOk(r, a);
    assert Finished(s.ring, n) == Finished(r.ring, n) by {
      assert s.ring.prev[HEAD] == r.ring.prev[HEAD];
      assert s.ring.prev[n := s.ring.prev[HEAD]] == r.ring.prev[n := r.ring.prev[HEAD]];
    }
    forall b | Writing(s, b) ensures b == a {
      WriterAlone(r, a, b);
    }
    MoveSound(r, s, a);
    WriteKeeps(r, s, a);
  }

  lemma SetNextGood(r: Race, a: nat)
    requires Good(r) && IsAt(r, a, PrevSet)
    ensures Good(SetNext(r, a))
  {
    var s, n := SetNext(r, a), r.apps[a].node;
    assert Midway(r, a) && AppOk(r, a);
    assert Finished(s.ring, n) == Finished(r.ring, n) by {
      assert s.ring.next[n := HEAD] == r.ring.next[n := HEAD];
    }
    forall b | Writing(s, b) ensures b == a {
      WriterAlone(r, a, b);
    }
    MoveSound(r, s, a);
    WriteKeeps(r, s, a);
  }

  lemma SetTailGood(r: Race, a: nat)
    requires Good(r) && IsAt(r, a, NextSet)
    ensures Good(SetTail(r, a)) && forall b | HasLoaded(r, b) :: Stale(SetTail(r, a), b)
  {
    var s, n := SetTail(r, a), r.apps[a].node;
    assert Midway(r, a) && AppOk(r, a);
    TailSound(r, a);
    assert s.ring == Finished(r.ring, n) by {
      assert r.ring.prev[n := r.ring.prev[HEAD]] == r.ring.prev;
      assert r.ring.next[n := HEAD] == r.ring.next;
    }
    forall b ensures !Writing(s, b) {
      if Writing(s, b) {
        WriterAlone(r, a, b);
      }
    }
    forall b | HasLoaded(s, b) ensures TailOk(s, b) {
      assert TailOk(r, b);
    }
    forall b | HasLoaded(r, b) ensures Stale(s, b) {
      assert TailOk(r, b);
    }
  }

  lemma TakeLink(g: Ring, k: nat, i: nat)
    requires LinkedRing.Inv(g) && k < |g.list| && i < |g.list|
    ensures var (t, c) := (Remove(g, k), g.list[k]); LinkAt(Ring(t.prev - {c}, t.next - {c}, t.list), i)
  {
    RemoveLink(g, k, i);
    NotTaken(g.list, k, i);
    NotTaken(g.list, k, i + 1);
  }

  lemma TakeRing(g: Ring, k: nat)
    requires LinkedRing.Inv(g) && k < |g.list|
    ensures var (t, c) := (Remove(g, k), g.list[k]); LinkedRing.Inv(Ring(t.prev - {c}, t.next - {c}, t.list))
  {
    var t, c := Remove(g, k), g.list[k];
    var u := Ring(t.prev - {c}, t.next - {c}, t.list);
    RemoveKeeps(g, k);
    forall i: nat | i <= |u.list| ensures LinkAt(u, i) {
      TakeLink(g, k, i);
    }
  }

  lemma TakeExact(g: Ring, k: nat)
    requires Exact(g) && NoDup(g.list) && k < |g.list|
    ensures var (t, c) := (Remove(g, k), g.list[k]); Exact(Ring(t.prev - {c}, t.next - {c}, t.list))
  {
    var t, c := Remove(g, k), g.list[k];
    WithoutAt(g.list, k);
    WithoutList(g.list, c);
    AtListed(g.list, k);
    AtListed(g.list, k + 2);
  }

  lemma TakeIsRemove(r: Race, k: nat)
    requires LinkedRing.Inv(r.ring) && k < |r.ring.list|
    ensures var (t, c) := (Remove(r.ring, k), r.ring.list[k]);
            && c in r.ring.prev && c in r.ring.next && c != HEAD && TakeOut(r, c).ring == Ring(t.prev - {c}, t.next - {c}, t.list)
  {
    assert LinkAt(r.ring, k) && LinkAt(r.ring, k + 1) && r.ring.list[k] in r.ring.list;
    WithoutAt(r.ring.list, k);
  }

  lemma TakeGood(r: Race, k: nat)
    requires Good(r) && r.apps == map[] && k < |r.ring.list|
    ensures var c := r.ring.list[k]; c in r.ring.prev && c in r.ring.next && c != HEAD && Good(TakeOut(r, c))
  {
    forall a ensures !Writing(r, a) {
    }
    TakeIsRemove(r, k);
    TakeSound(r, r.ring.list[k]);
    TakeRing(r.ring, k);
    TakeExact(r.ring, k);
  }

  lemma AtListed(l: seq<nat>, i: nat)
    requires i <= |l| + 1
    ensures At(l, i) == HEAD || At(l, i) in l
  {
  }

  lemma NotTaken(l: seq<nat>, k: nat, i: nat)
    requires NoDup(l) && HEAD !in l && k < |l| && i <= |l|
    ensures At(l[..k] + l[k + 1..], i) != l[k]
  {
    assert l[k] in l;
  }

  // --- What the pointers stand for ---

  /** The forward pointers lead through the whole list. */
  lemma GoodForward(r: Race, i: nat)
    requires Good(r) && i < |r.ring.list|
    ensures At(r.ring.list, i) in r.ring.next && r.ring.next[At(r.ring.list, i)] == r.ring.list[i]
  {
    var g := r.ring;
    if a :| Writing(r, a) {
      assert Midway(r, a);
      var n := r.apps[a].node;
      assert LinkAt(Finished(g, n), i);
      AtDistinct(g.list, i, |g.list|);
    } else {
      assert LinkAt(g, i);
    }
  }

  lemma {:induction false} GoodNth(r: Race, k: nat)
    requires Good(r) && k <= |r.ring.list|
    ensures Nth(r.ring.next, k) == At(r.ring.list, k)
  {
    if k > 0 {
      GoodNth(r, k - 1);
      GoodForward(r, k - 1);
    }
  }

  /** And from its end nowhere else. */
  lemma GoodEnd(r: Race)
    requires Good(r)
    ensures var e := At(r.ring.list, |r.ring.list|); e in r.ring.next ==> r.ring.next[e] == HEAD
  {
    var g := r.ring;
    if a :| Writing(r, a) {
      assert Midway(r, a);
    } else {
      assert LinkAt(g, |g.list|);
    }
  }

  lemma {:induction false} GoodCloses(r: Race, k: nat)
    requires Good(r)
    ensures Nth(r.ring.next, k) == HEAD || Nth(r.ring.next, k) in r.ring.list
  {
    if k > 0 {
      GoodCloses(r, k - 1);
      var x, l := Nth(r.ring.next, k - 1), r.ring.list;
      if x in r.ring.next {
        var i := if x == HEAD then 0 else 1 + Index(l, x);
        if i < |l| {
          GoodForward(r, i);
        } else {
          GoodEnd(r);
        }
      }
    }
  }

  ghost function Index(l: seq<nat>, x: nat): (i: nat)
    requires x in l
    ensures i < |l| && l[i] == x
  {
    if l[0] == x then 0 else 1 + Index(l[1..], x)
  }

  /** A walk meets exactly the nodes of the list. */
  lemma GoodListed(r: Race, c: nat)
    requires Good(r)
    ensures OnList(r.ring.next, c) <==> c in r.ring.list
  {
    var l := r.ring.list;
    if c in l {
      var i := Index(l, c);
      GoodNth(r, i + 1);
    }
    if OnList(r.ring.next, c) {
      var k: nat :| Nth(r.ring.next, k) == c;
      GoodCloses(r, k);
    }
  }

  // --- A store to a tail that is none any more ---

  /** The node that follows the tail which a has read. */
  ghost function Cut(r: Race, a: nat): nat
    requires HasLoaded(r, a)
  {
    var t := r.apps[a].at.tail; if t in r.ring.next then r.ring.next[t] else HEAD
  }

  /** The tail was left behind by an append that has been written since. */
  lemma StaleTail(r: Race, a: nat)
    requires Good(r) && Stale(r, a)
    ensures var t := r.apps[a].at.tail;
            && t in r.ring.next && Cut(r, a) != HEAD && Cut(r, a) in r.ring.list
            && forall z | z in r.ring.next && z != t :: r.ring.next[z] != Cut(r, a)
    ensures r.apps[a].at.tail == r.ring.prev[HEAD] ==> exists b :: b != a && Writing(r, b) && Cut(r, a) == r.apps[b].node
  {
    var t, l := r.apps[a].at.tail, r.ring.list;
    assert TailOk(r, a);
    var i := if t == HEAD then 0 else 1 + Index(l, t);
    assert At(l, i) == t;
    NotLast(r, a, i);
    GoodForward(r, i);
    forall z | z in r.ring.next && r.ring.next[z] == l[i] ensures z == t {
      OnePointer(r, i, z);
    }
    if t == r.ring.prev[HEAD] {
      var b :| b != a && Writing(r, b);
      assert Midway(r, b);
      SameAt(l, i, |l| - 1);
    }
  }

  lemma SameAt(l: seq<nat>, i: nat, k: nat)
    requires NoDup(l) && HEAD !in l && i <= |l| && k <= |l| && At(l, i) == At(l, k)
    ensures i == k
  {
    if i < k {
      AtDistinct(l, i, k);
    } else if k < i {
      AtDistinct(l, k, i);
    }
  }

  lemma NotLast(r: Race, a: nat, i: nat)
    requires Good(r) && Stale(r, a) && i <= |r.ring.list| && At(r.ring.list, i) == r.apps[a].at.tail
    ensures i < |r.ring.list|
  {
    var l := r.ring.list;
    assert TailOk(r, a);
    if b :| Writing(r, b) {
      assert Midway(r, b);
    } else {
      assert LinkAt(r.ring, |l|);
    }
  }

  lemma OnePointer(r: Race, i: nat, z: nat)
    requires Good(r) && i < |r.ring.list| && z in r.ring.next && r.ring.next[z] == r.ring.list[i]
    ensures z == At(r.ring.list, i)
  {
    var l := r.ring.list;
    var k := if z == HEAD then 0 else 1 + Index(l, z);
    assert At(l, k) == z && l[i] in l;
    if k < |l| {
      GoodForward(r, k);
    } else {
      GoodEnd(r);
    }
  }

  /** Such a store leaves no pointer to the node that was there. */
  lemma StaleStore(r: Race, a: nat)
    requires Good(r) && Stale(r, a)
    ensures var (s, c) := (Store(r, a), Cut(r, a)); c in s.ring.list && Orphaned(s.ring.next, c) && !OnList(s.ring.next, c) && !Good(s)
  {
    var s, c := Store(r, a), Cut(r, a);
    StaleTail(r, a);
    assert AppOk(r, a);
    assert Orphaned(s.ring.next, c);
    OrphanUnseen(s.ring.next, c);
    if Good(s) {
      GoodListed(s, c);
    }
  }

  // --- What a store of this kind leads to ---

  /** A node without a pointer to it never gets one again. */
  lemma OrphanStore(r: Race, a: nat, c: nat)
    requires Orphaned(r.ring.next, c) && HasLoaded(r, a) && r.apps[a].node != c
    ensures Orphaned(Store(r, a).ring.next, c)
  {
  }

  lemma OrphanTake(r: Race, d: nat, c: nat)
    requires Orphaned(r.ring.next, c) && d in r.ring.prev && d in r.ring.next
    ensures Orphaned(TakeOut(r, d).ring.next, c)
  {
  }

  /** Behind a tail that a walk does not meet, it does not meet a new node either. */
  lemma {:induction false} BehindLost(next: map<nat, nat>, t: nat, n: nat, k: nat)
    requires t != HEAD && !OnList(next, t) && Orphaned(next, n)
    ensures Nth(next[t := n], k) == Nth(next, k) && Nth(next, k) != n
  {
    assert forall i: nat :: Nth(next, i) != t;
    if k > 0 {
      BehindLost(next, t, n, k - 1);
    }
  }

  /** If the tail is on no walk, the next append puts its node on none, whatever comes between. */
  lemma LateLost(r: Race, a: nat)
    requires HasLoaded(r, a) && r.apps[a].at.tail != HEAD && !OnList(r.ring.next, r.apps[a].at.tail)
    requires Orphaned(r.ring.next, r.apps[a].node)
    ensures !OnList(Store(r, a).ring.next, r.apps[a].node)
  {
    forall k: nat ensures Nth(Store(r, a).ring.next, k) != r.apps[a].node {
      BehindLost(r.ring.next, r.apps[a].at.tail, r.apps[a].node, k);
    }
  }

  /** If a node's `prev` is not where the walk comes from, a walk still meets it after it was taken out and freed. */
  lemma Dangling(r: Race, c: nat, k: nat)
    requires c in r.ring.prev && c in r.ring.next && c != HEAD && Nth(r.ring.next, k + 1) == c
    requires forall i: nat | i <= k :: Nth(r.ring.next, i) != r.ring.prev[c] && Nth(r.ring.next, i) != c
    ensures OnList(TakeOut(r, c).ring.next, c)
  {
    DanglingNth(r, c, k, k);
    assert Nth(TakeOut(r, c).ring.next, k + 1) == c;
  }

  lemma {:induction false} DanglingNth(r: Race, c: nat, k: nat, i: nat)
    requires c in r.ring.prev && c in r.ring.next && i <= k
    requires forall i: nat | i <= k :: Nth(r.ring.next, i) != r.ring.prev[c] && Nth(r.ring.next, i) != c
    ensures Nth(TakeOut(r, c).ring.next, i) == Nth(r.ring.next, i)
  {
    if i > 0 {
      DanglingNth(r, c, k, i - 1);
    }
  }

  /** Once no append is under way every node has both pointers, however the appends went. */
  lemma AllPlaced(r: Race, c: nat)
    requires Sound(r) && r.apps == map[] && c in r.ring.list
    ensures c in r.ring.prev && c in r.ring.next
  {
    assert Placed(r, c);
  }
}
