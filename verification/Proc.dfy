/** `proc_fork`, `proc_wait` and `proc_exit` on the process table, step by step. */
module Proc {
  import opened Basics
  import opened NatLists
  import LinkedRing
  import opened ListRace
  import opened ProcState
  import opened ProcRuns

  const ANY_CHILD := -1

  /** The child that `wait` picks: the one with that pid, or the last of the list. */
  ghost predicate Picked(l: seq<nat>, pid: int, c: nat)
  {
    |l| > 0 && c in l && (if pid == -1 then c == l[|l| - 1] else c == pid)
  }

  class Table {
    var procs: map<nat, Proc>
    var pc: map<nat, Pc>
    var table: seq<nat>
    var next: nat
    var locker: Option<nat>
    // The pointers of init's children list, and the appends to it under way.
    var kidPrev: map<nat, nat>
    var kidNext: map<nat, nat>
    var apps: map<nat, App>
    ghost var kidList: seq<nat>
    ghost var running: set<nat>
    ghost var parent: map<nat, nat>
    ghost var exits: map<nat, int>
    ghost var freed: seq<nat>

    ghost function Kids(): Race
      reads this
    {
      Race(LinkedRing.Ring(kidPrev, kidNext, kidList), apps)
    }

    ghost function State(): Sys
      reads this
    {
      Sys(procs, running, pc, table, next, locker, Kids(), parent, exits, freed)
    }

    ghost predicate Valid()
      reads this
    {
      Inv(State())
    }

    constructor ()
      ensures Valid() && State() == InitSys() && Good(Kids())
    {
      procs, pc, table, next, locker := map[INIT := Proc([], STATUS_ALIVE)], map[INIT := Idle], [INIT], 1, None;
      kidPrev, kidNext, apps, kidList := map[INIT := INIT], map[INIT := INIT], map[], [];
      running, parent, exits, freed := {INIT}, map[], map[], [];
      new;
      InitInv();
    }

    // --- The append to init's list, write by write ---

    method LoadTail(a: nat)
      requires Valid() && Enabled(State(), AppLoad(a))
      modifies `apps
      ensures Valid() && State() == Apply(old(State()), AppLoad(a))
    {
      StepKeeps(State(), AppLoad(a));
      apps := apps[a := App(apps[a].node, Loaded(kidPrev[INIT]))];
    }

    method StoreNext(a: nat)
      requires Valid() && Enabled(State(), AppStore(a))
      modifies `apps, `kidNext, `kidList
      ensures Valid() && State() == Apply(old(State()), AppStore(a))
    {
      StepKeeps(State(), AppStore(a));
      var n, t := apps[a].node, apps[a].at.tail;
      kidNext, kidList, apps := kidNext[t := n], kidList + [n], apps[a := App(n, Stored)];
    }

    method WritePrev(a: nat)
      requires Valid() && Enabled(State(), AppPrev(a))
      modifies `apps, `kidPrev
      ensures Valid() && State() == Apply(old(State()), AppPrev(a))
    {
      StepKeeps(State(), AppPrev(a));
      var n := apps[a].node;
      kidPrev, apps := kidPrev[n := kidPrev[INIT]], apps[a := App(n, PrevSet)];
    }

    method WriteNext(a: nat)
      requires Valid() && Enabled(State(), AppNext(a))
      modifies `apps, `kidNext
      ensures Valid() && State() == Apply(old(State()), AppNext(a))
    {
      StepKeeps(State(), AppNext(a));
      var n := apps[a].node;
      kidNext, apps := kidNext[n := INIT], apps[a := App(n, NextSet)];
    }

    method WriteTail(a: nat)
      requires Valid() && Enabled(State(), AppTail(a))
      modifies `apps, `kidPrev, `pc
      ensures Valid() && State() == Apply(old(State()), AppTail(a))
    {
      StepKeeps(State(), AppTail(a));
      var n := apps[a].node;
      kidPrev, apps := kidPrev[INIT := n], apps - {a};
      if a == INIT {
        pc := pc[a := Linked(n)];
      }
    }

    /** `list_append` with nothing in between: the node is last in a list that stays right. */
    method ListAppend(a: nat)
      requires Valid() && Good(Kids()) && IsAt(Kids(), a, Start) && !OtherWriting(Kids(), a)
      modifies `apps, `kidPrev, `kidNext, `kidList, `pc
      ensures Valid() && Good(Kids()) && kidList == old(kidList) + [old(apps)[a].node] && apps == old(apps) - {a}
      ensures pc == if a == INIT then old(pc)[a := Linked(old(apps)[a].node)] else old(pc)
    {
      ghost var c := apps[a].node;
      FirstWrite(a);
      MiddleWrites(a);
      assert apps[a].node == c && apps - {a} == old(apps) - {a};
      LastWrite(a);
    }

    method LastWrite(a: nat)
      requires Valid() && Good(Kids()) && IsAt(Kids(), a, NextSet)
      modifies `apps, `kidPrev, `pc
      ensures Valid() && Good(Kids()) && apps == old(apps) - {a}
      ensures pc == if a == INIT then old(pc)[a := Linked(old(apps)[a].node)] else old(pc)
    {
      SetTailGood(Kids(), a);
      WriteTail(a);
    }

    method FirstWrite(a: nat)
      requires Valid() && Good(Kids()) && IsAt(Kids(), a, Start) && !OtherWriting(Kids(), a)
      modifies `apps, `kidNext, `kidList
      ensures Valid() && Good(Kids()) && kidList == old(kidList) + [old(apps)[a].node]
      ensures apps == old(apps)[a := App(old(apps)[a].node, Stored)]
    {
      LoadGood(Kids(), a);
      LoadTail(a);
      StoreGood(Kids(), a);
      StoreNext(a);
    }

    method MiddleWrites(a: nat)
      requires Valid() && Good(Kids()) && IsAt(Kids(), a, Stored)
      modifies `apps, `kidPrev, `kidNext
      ensures Valid() && Good(Kids()) && apps == old(apps)[a := App(old(apps)[a].node, NextSet)]
    {
      SetPrevGood(Kids(), a);
      WritePrev(a);
      SetNextGood(Kids(), a);
      WriteNext(a);
    }

    // --- Fork ---

    /** `proc_fork` of a process other than init, up to its place in the caller's list. */
    method LinkOwn(p: nat) returns (child: nat)
      requires Valid() && Enabled(State(), ForkOwn(p))
      modifies `procs, `pc, `next, `parent
      ensures Valid() && State() == Apply(old(State()), ForkOwn(p)) && child == old(next)
    {
      OwnKeeps(State(), p);
      child := next;
      procs := procs[p := procs[p].(children := procs[p].children + [child])][child := Proc([], STATUS_ALIVE)];
      pc, next, parent := pc[p := Linked(child)], next + 1, parent[child := p];
      assert State() == OwnStep(old(State()), p);
    }

    /** A fork by init, up to the append. */
    method BeginInit() returns (child: nat)
      requires Valid() && Enabled(State(), ForkInit)
      modifies `procs, `pc, `next, `parent, `apps
      ensures Valid() && State() == Apply(old(State()), ForkInit) && child == old(next)
    {
      InitKeeps(State());
      child := NewChild();
    }

    method NewChild() returns (child: nat)
      modifies `procs, `pc, `next, `parent, `apps
      ensures State() == InitStep(old(State())) && child == old(next)
    {
      child := next;
      procs := procs[child := Proc([], STATUS_ALIVE)];
      pc, next, parent := pc[INIT := Forking(child)], next + 1, parent[child := INIT];
      apps := apps[INIT := App(child, Start)];
    }

    /** Under the lock the child joins the table; then it starts. */
    method StartChild(p: nat)
      requires Valid() && Enabled(State(), ForkDone(p))
      modifies `pc, `table, `running
      ensures Valid() && State() == Apply(old(State()), ForkDone(p))
    {
      StartKeeps(State(), p);
      var c := pc[p].child;
      pc, table, running := pc[p := Idle][c := Idle], table + [c], running + {c};
      assert State() == StartStep(old(State()), p);
    }

    /** A fork with nothing in between: the child runs and is last in the caller's list and in the table. */
    method Fork(p: nat) returns (child: nat)
      requires Valid() && Good(Kids()) && IsIdle(State(), p) && locker == None
      modifies this
      ensures Valid() && Good(Kids()) && p in old(procs) && p in procs && child == old(next)
      ensures Children(State(), p) == old(Children(State(), p)) + [child] && table == old(table) + [child]
      ensures running == old(running) + {child} && IsIdle(State(), p) && IsIdle(State(), child)
    {
      assert PcOk(State(), p) && PcOk(State(), INIT);
      NewNumber(State());
      if p == INIT {
        child := ForkByInit();
      } else {
        child := LinkOwn(p);
      }
      StartChild(p);
    }

    /** Init's fork up to its place in the list. */
    method ForkByInit() returns (child: nat)
      requires Valid() && Good(Kids()) && IsIdle(State(), INIT) && INIT in procs && locker == None
      modifies `procs, `pc, `next, `parent, `apps, `kidPrev, `kidNext, `kidList
      ensures Valid() && Good(Kids()) && child == old(next) && kidList == old(kidList) + [child] && INIT in procs
      ensures pc == old(pc)[INIT := Linked(child)]
    {
      NoApps(State());
      StepGood(State(), ForkInit);
      child := BeginInit();
      forall b ensures b != INIT ==> !Writing(Kids(), b) {
      }
      ListAppend(INIT);
    }

    // --- Wait ---

    /** The search of `proc_wait` through the caller's children. */
    method FindChild(p: nat, pid: int) returns (c: Option<nat>)
      requires Valid() && p in procs && (p == INIT ==> Good(Kids()) && apps == map[])
      ensures c.Some? ==> Picked(Children(State(), p), pid, c.value)
      ensures c.None? <==> if pid == ANY_CHILD then Children(State(), p) == [] else forall d | d in Children(State(), p) :: d != pid
    {
      if p == INIT {
        c := FindKid(pid);
        return;
      }
      var l := procs[p].children;
      for i := 0 to |l|
        invariant forall k | 0 <= k < i :: l[k] != pid
        invariant pid == ANY_CHILD && i == |l| ==> l == []
      {
        if l[i] == pid || (pid == ANY_CHILD && i + 1 == |l|) {
          return Some(l[i]);
        }
      }
      return None;
    }

    /** Through init's list it follows the pointers. */
    method FindKid(pid: int) returns (c: Option<nat>)
      requires Valid() && INIT in procs && Good(Kids()) && apps == map[]
      ensures c.Some? ==> Picked(kidList, pid, c.value)
      ensures c.None? <==> if pid == ANY_CHILD then kidList == [] else forall d | d in kidList :: d != pid
    {
      ghost var r, k := Kids(), 0;
      assert forall a :: !Writing(r, a);
      assert LinkedRing.LinkAt(r.ring, 0);
      var n := kidNext[INIT];
      while n != INIT
        invariant 0 <= k <= |kidList| && n == LinkedRing.At(kidList, k + 1)
        invariant forall i | 0 <= i < k :: kidList[i] != pid
        invariant pid == ANY_CHILD && k == |kidList| ==> kidList == []
        decreases |kidList| - k
      {
        assert n == kidList[k] && LinkedRing.LinkAt(r.ring, k + 1);
        var after := kidNext[n];
        EndOfList(kidList, k + 2);
        if n == pid || (pid == ANY_CHILD && after == INIT) {
          return Some(n);
        }
        n, k := after, k + 1;
      }
      EndOfList(kidList, k + 1);
      return None;
    }

    /** `proc_wait` up to its first sleep; none is ERR_CHILD. */
    method WaitFor(p: nat, pid: int) returns (child: Option<nat>)
      requires Valid() && IsIdle(State(), p) && p in procs && locker == None && (p == INIT ==> Good(Kids()))
      modifies `pc
      ensures Valid()
      ensures child.None? ==> State() == old(State())
      ensures child.None? <==> if pid == -1 then Children(State(), p) == [] else forall d | d in Children(State(), p) :: d != pid
      ensures child.Some? ==> Picked(Children(State(), p), pid, child.value)
      ensures child.Some? ==> Enabled(old(State()), WaitStart(p, child.value)) && State() == Apply(old(State()), WaitStart(p, child.value))
    {
      if p == INIT {
        NoApps(State());
      }
      child := FindChild(p, pid);
      if child.Some? {
        if p == INIT {
          GoodListed(Kids(), child.value);
        }
        StepKeeps(State(), WaitStart(p, child.value));
        ghost var l := Children(State(), p);
        pc := pc[p := Waiting(child.value)];
        assert Children(State(), p) == l && child.value in l;
      }
    }

    /** `proc_wait` looks at its child: it sleeps on, or reaps it and has its status. */
    method Reap(p: nat) returns (status: Option<int>)
      requires Valid() && p in pc && pc[p].Waiting? && locker == None
      modifies this
      ensures Valid() && (status.None? ==> State() == old(State()))
      ensures status.Some? <==> Enabled(old(State()), WaitDone(p))
      ensures status.Some? ==> State() == Apply(old(State()), WaitDone(p)) && old(pc)[p].child in exits && status.value == exits[old(pc)[p].child]
    {
      var c := pc[p].child;
      assert PcOk(State(), p) && ChildOk(State(), p, c) && ProcOk(State(), c);
      if procs[c].status == STATUS_ALIVE {
        return None;
      }
      if p == INIT {
        NoApps(State());
        AllPlaced(Kids(), c);
      }
      WaitDoneKeeps(State(), p);
      status := Some(procs[c].status);
      DropReaped(p, c);
    }

    /** The child leaves the list and its record is freed. */
    method DropReaped(p: nat, c: nat)
      requires Enabled(State(), WaitDone(p)) && c == pc[p].child
      modifies this
      ensures State() == WaitDoneStep(old(State()), p)
    {
      pc := pc[p := Idle];
      if p == INIT {
        Unlink(c);
      } else {
        procs := procs[p := procs[p].(children := Without(procs[p].children, c))];
      }
      Release(c);
    }

    /** `proc_free`. */
    method Release(c: nat)
      modifies `procs, `parent, `freed
      ensures State() == Free(old(State()), c)
    {
      procs := procs - {c};
      parent, freed := parent - {c}, freed + [c];
    }

    /** `list_remove` on init's list. */
    method Unlink(c: nat)
      requires c in kidPrev && c in kidNext
      modifies `kidPrev, `kidNext, `kidList
      ensures Kids() == TakeOut(old(Kids()), c)
    {
      var before, after := kidPrev[c], kidNext[c];
      kidNext := kidNext[before := after];
      kidPrev := kidPrev[after := before];
      kidNext, kidPrev, kidList := kidNext - {c}, kidPrev - {c}, Without(kidList, c);
    }

    // --- Exit ---

    /** `proc_exit` takes the lock and leaves the table. */
    method LeaveTable(p: nat, status: int)
      requires Valid() && Enabled(State(), ExitStart(p, status))
      modifies `table, `pc, `locker
      ensures Valid() && State() == Apply(old(State()), ExitStart(p, status))
    {
      ExitStartKeeps(State(), p, status);
      table, pc, locker := Without(table, p), pc[p := Exiting(status)], Some(p);
    }

    /** One pass of the loop in `proc_exit`, up to the append. */
    method TakeFirst(p: nat)
      requires Valid() && Enabled(State(), HandTake(p))
      modifies `procs, `parent, `freed, `apps
      ensures Valid() && State() == Apply(old(State()), HandTake(p))
    {
      HandKeeps(State(), p);
      FirstChild(State(), p);
      UnlinkFirst(p, procs[p].children[0]);
    }

    method UnlinkFirst(p: nat, c: nat)
      requires CanHand(State(), p) && c == procs[p].children[0] && c != p
      modifies `procs, `parent, `freed, `apps
      ensures State() == HandStep(old(State()), p)
    {
      var alive := procs[c].status == STATUS_ALIVE;
      assert Without(procs[p].children, c) == procs[p].children[1..];
      procs := procs[p := procs[p].(children := procs[p].children[1..])];
      if alive {
        parent, apps := parent[c := INIT], apps[p := App(c, Start)];
      } else {
        Release(c);
      }
    }

    /** The status is set, the waiting parent may go on, and the lock is released. */
    method Finish(p: nat)
      requires Valid() && Enabled(State(), ExitDone(p))
      modifies `procs, `pc, `running, `exits, `locker
      ensures Valid() && State() == Apply(old(State()), ExitDone(p))
    {
      LeaveKeeps(State(), p);
      SetStatus(p, pc[p].status);
    }

    method SetStatus(p: nat, status: int)
      requires p in procs && p in pc && pc[p] == Exiting(status)
      modifies `procs, `pc, `running, `exits, `locker
      ensures State() == Leave(old(State()), p)
    {
      procs := procs[p := procs[p].(status := status)];
      pc, locker := pc - {p}, None;
      running, exits := running - {p}, exits[p := status];
    }

    /** An exit with no fork by init in between; init must not exit. */
    method Exit(p: nat, status: int) returns (panic: bool)
      requires Valid() && Good(Kids()) && IsIdle(State(), p) && locker == None && apps == map[]
      modifies this
      ensures panic <==> p == INIT
      ensures !panic ==> Valid() && Good(Kids()) && p !in running && p in exits && exits[p] == status && locker == None
      ensures !panic ==> p in procs && procs[p] == Proc([], status)
      ensures !panic ==> p in old(procs) && forall c | c in old(procs)[p].children :: c in old(procs) && HandedOver(old(State()), State(), c)
    {
      if p == INIT {
        return true;
      }
      ghost var s := State();
      OwnChildren(s, p);
      LeaveTable(p, status);
      HandOverAll(p, s);
      ghost var b := State();
      Finish(p);
      forall c | c in s.procs[p].children ensures HandedOver(s, State(), c) {
        assert HandedOver(s, b, c);
      }
      panic := false;
    }

    /** The loop in `proc_exit` over the children. */
    method HandOverAll(p: nat, ghost s: Sys)
      requires Valid() && Good(Kids()) && Leaving(State(), p) && s.procs == procs && forall c | c in procs[p].children :: c in procs && c != p
      modifies `procs, `parent, `freed, `apps, `kidPrev, `kidNext, `kidList, `pc
      ensures Valid() && Good(Kids()) && Leaving(State(), p) && procs[p].children == [] && pc == old(pc)
      ensures forall c | c in old(procs)[p].children :: HandedOver(s, State(), c)
    {
      while procs[p].children != []
        invariant Valid() && Good(Kids()) && Leaving(State(), p) && pc == old(pc)
        invariant forall c | c in s.procs[p].children :: c in s.procs && c != p && Handing(s, State(), p, c)
        decreases |procs[p].children|
      {
        HandNext(p, s);
      }
    }

    method HandNext(p: nat, ghost s: Sys)
      requires Valid() && Good(Kids()) && Leaving(State(), p) && procs[p].children != [] && p in s.procs
      requires forall c | c in s.procs[p].children :: c in s.procs && c != p && Handing(s, State(), p, c)
      modifies `procs, `parent, `freed, `apps, `kidPrev, `kidNext, `kidList, `pc
      ensures Valid() && Good(Kids()) && Leaving(State(), p) && |procs[p].children| < |old(procs)[p].children| && pc == old(pc)
      ensures forall c | c in s.procs[p].children :: Handing(s, State(), p, c)
    {
      ghost var b := State();
      HandReady(b, p);
      TakeFirst(p);
      AppendTaken(p);
      forall c | c in s.procs[p].children ensures Handing(s, State(), p, c) {
        assert Handing(s, b, p, c);
        HandOne(s, b, p, c);
      }
    }

    /** A child that was taken alive is appended to init's list. */
    method AppendTaken(p: nat)
      requires Valid() && Good(Kids()) && p != INIT && (p in apps ==> apps == map[p := App(apps[p].node, Start)]) && (p !in apps ==> apps == map[])
      modifies `apps, `kidPrev, `kidNext, `kidList, `pc
      ensures Valid() && Good(Kids()) && apps == map[] && pc == old(pc)
      ensures kidList == old(kidList) + if p in old(apps) then [old(apps)[p].node] else []
    {
      if p in apps {
        forall a ensures a != p ==> !Writing(Kids(), a) {
        }
        ListAppend(p);
      }
    }
  }

  /** p is in its exit, and nobody appends to init's list. */
  ghost predicate Leaving(s: Sys, p: nat)
  {
    p in s.pc && p in s.procs && p != INIT && s.pc[p].Exiting? && s.kids.apps == map[]
  }

  /** A child that was alive is on init's list; one that had ended is freed. */
  ghost predicate HandedOver(s: Sys, r: Sys, c: nat)
    requires c in s.procs
  {
    if s.procs[c].status == STATUS_ALIVE then c in r.procs && c in r.kids.ring.list else c !in r.procs && c in r.freed
  }

  /** Or it is still on the list of p. */
  ghost predicate Handing(s: Sys, r: Sys, p: nat, c: nat)
    requires c in s.procs
  {
    || HandedOver(s, r, c)
    || (p in r.procs && c in r.procs[p].children && c in r.procs && r.procs[c].status == s.procs[c].status)
  }

  lemma HandReady(s: Sys, p: nat)
    requires Inv(s) && Good(s.kids) && Leaving(s, p) && s.procs[p].children != []
    ensures CanHand(s, p) && Good(HandStep(s, p).kids) && HandStep(s, p).pc == s.pc && p in HandStep(s, p).procs
    ensures HandStep(s, p).procs[p].children == s.procs[p].children[1..]
    ensures var k := HandStep(s, p).kids; k.apps == if p in k.apps then map[p := App(k.apps[p].node, Start)] else map[]
  {
    assert ChildOk(s, p, s.procs[p].children[0]);
    HandKeeps(s, p);
    StepGood(s, HandTake(p));
  }

  lemma OwnChildren(s: Sys, p: nat)
    requires Inv(s) && IsIdle(s, p) && p != INIT
    ensures p in s.procs && forall c | c in s.procs[p].children :: c in s.procs && c != p
  {
    assert PcOk(s, p);
    forall c | c in s.procs[p].children ensures c in s.procs && c != p {
      assert ChildOk(s, p, c) && ProcOk(s, c);
    }
  }

  /** What taking the first child does to each child, before the append. */
  lemma HandOne(s: Sys, b: Sys, p: nat, c: nat)
    requires Inv(b) && CanHand(b, p) && c in s.procs && c != p && Handing(s, b, p, c)
    ensures var r := HandStep(b, p);
            || Handing(s, r, p, c)
            || (s.procs[c].status == STATUS_ALIVE && c in r.procs && p in r.kids.apps && r.kids.apps[p].node == c)
  {
    FirstChild(b, p);
    HandKeeps(b, p);
    assert ChildOk(b, INIT, b.procs[p].children[0]);
  }

  lemma EndOfList(l: seq<nat>, k: nat)
    requires INIT !in l && 0 < k <= |l| + 1
    ensures LinkedRing.At(l, k) == INIT <==> k == |l| + 1
  {
  }
}
