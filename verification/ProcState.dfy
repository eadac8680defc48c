/**
 * Process records, children lists and exit statuses as a state machine. The
 * process-table lock guards `wait`, `exit` and the table. A process appends to
 * its own children without the lock, and only init's list has another writer:
 * an exit hands children over to it under the lock. So every append to init's
 * list is taken write by write, by init's thread and by the holder of the lock.
 * Process 0 is init.
 */
module ProcState {
  import opened Basics
  import opened NatLists
  import opened LinkedRing
  import opened ListRace

  /** Init's number also stands for the head of its list. */
  const INIT := HEAD
  const STATUS_ALIVE := 0xbeefeeb

  /** `children` is not used for init, whose list is `kids`. */
  datatype Proc = Proc(children: seq<nat>, status: int)

  datatype Pc = Idle | Waiting(child: nat) | Forking(child: nat) | Linked(child: nat) | Exiting(status: int)

  /**
   * `locker` is the process in the critical section of its exit. `parent` and
   * `exits` record to whom a process was given and what it passed to exit.
   */
  datatype Sys = Sys(procs: map<nat, Proc>, running: set<nat>, pc: map<nat, Pc>, table: seq<nat>, next: nat,
                     locker: Option<nat>, kids: Race, parent: map<nat, nat>, exits: map<nat, int>, freed: seq<nat>)

  /** The processes that were put on p's list and not reaped since. */
  ghost function Children(s: Sys, p: nat): seq<nat>
    requires p in s.procs
  {
    if p == INIT then s.kids.ring.list else s.procs[p].children
  }

  // --- Invariant ---

  /** The process is made but not started. */
  ghost predicate Fresh(s: Sys, p: nat)
  {
    p in s.parent && s.parent[p] in s.pc && (s.pc[s.parent[p]] == Linked(p) || s.pc[s.parent[p]] == Forking(p))
  }

  ghost predicate ProcOk(s: Sys, p: nat)
    requires p in s.procs
  {
    && p < s.next && p !in s.freed && NoDup(s.procs[p].children) && (p == INIT ==> s.procs[p].children == [])
    && (p != INIT ==> && p in s.parent && s.parent[p] < p && s.parent[p] in s.running && s.parent[p] in s.procs
                      && (p in Children(s, s.parent[p]) || (s.parent[p] == INIT && InHand(s.kids, p))))
    && (p in s.running ==> s.procs[p].status == STATUS_ALIVE && p !in s.exits)
    && (p !in s.running ==>
          && s.procs[p].children == []
          && if Fresh(s, p) then s.procs[p].status == STATUS_ALIVE && p !in s.exits
             else p in s.exits && s.procs[p].status == s.exits[p])
  }

  /** A child is held by this process and no other. */
  ghost predicate ChildOk(s: Sys, p: nat, c: nat)
    requires p in s.procs
  {
    c in Children(s, p) ==> c in s.procs && c != INIT && c in s.parent && s.parent[c] == p
  }

  ghost predicate PcOk(s: Sys, p: nat)
    requires p in s.pc
  {
    && p in s.procs && (p == INIT && INIT in s.kids.apps ==> s.pc[p].Forking?)
    && match s.pc[p]
       case Idle => true
       case Waiting(c) => c in Children(s, p)
       case Forking(c) => p == INIT && INIT in s.kids.apps && s.kids.apps[INIT].node == c && c !in s.running
       case Linked(c) => c in Children(s, p) && c !in s.running
       case Exiting(_) => p != INIT && s.locker == Some(p)
  }

  /** An append to init's list is part of init's fork or of the exit that has the lock. */
  ghost predicate HandOk(s: Sys, a: nat)
    requires a in s.kids.apps
  {
    var c := s.kids.apps[a].node;
    && a in s.pc && c in s.procs && c in s.parent && s.parent[c] == INIT
    && (a == INIT ==> s.pc[a] == Forking(c)) && (a != INIT ==> s.pc[a].Exiting? && !Fresh(s, c))
  }

  ghost predicate Basic(s: Sys)
  {
    && INIT in s.running && s.pc.Keys == s.running && s.running <= s.procs.Keys && Sound(s.kids)
    && NoDup(s.table) && (forall p {:trigger TableOk(s, p)} :: TableOk(s, p))
    && (s.locker.Some? ==> s.locker.value in s.pc && s.pc[s.locker.value].Exiting?)
    && NoDup(s.freed) && (forall p | p in s.freed :: p < s.next)
    && (forall p | p in s.exits :: p < s.next && p !in s.running)
  }

  /** The table has the processes that run and are not leaving. */
  ghost predicate TableOk(s: Sys, p: nat)
  {
    p in s.table <==> p in s.running && p in s.pc && !s.pc[p].Exiting?
  }

  ghost predicate Inv(s: Sys)
  {
    && Basic(s)
    && (forall p {:trigger ProcOk(s, p)} | p in s.procs :: ProcOk(s, p))
    && (forall p, c {:trigger ChildOk(s, p, c)} | p in s.procs :: ChildOk(s, p, c))
    && (forall p {:trigger PcOk(s, p)} | p in s.pc :: PcOk(s, p))
    && (forall a {:trigger HandOk(s, a)} | a in s.kids.apps :: HandOk(s, a))
  }

  predicate IsIdle(s: Sys, p: nat)
  {
    p in s.pc && s.pc[p].Idle?
  }

  // --- Steps ---

  datatype Step =
    | ForkOwn(p: nat)
    | ForkInit
    | AppLoad(a: nat)
    | AppStore(a: nat)
    | AppPrev(a: nat)
    | AppNext(a: nat)
    | AppTail(a: nat)
    | ForkDone(p: nat)
    | WaitStart(p: nat, c: nat)
    | WaitDone(p: nat)
    | ExitStart(p: nat, status: int)
    | HandTake(p: nat)
    | ExitDone(p: nat)

  /** A wait by init finds only what a walk through its list meets. */
  ghost predicate Enabled(s: Sys, step: Step)
  {
    match step
    case ForkOwn(p) => IsIdle(s, p) && p in s.procs && p != INIT
    case ForkInit => IsIdle(s, INIT) && INIT in s.procs
    case AppLoad(a) => IsAt(s.kids, a, Start) && HEAD in s.kids.ring.prev
    case AppStore(a) => HasLoaded(s.kids, a)
    case AppPrev(a) => IsAt(s.kids, a, Stored) && HEAD in s.kids.ring.prev
    case AppNext(a) => IsAt(s.kids, a, PrevSet)
    case AppTail(a) => IsAt(s.kids, a, NextSet)
    case ForkDone(p) => p in s.pc && s.pc[p].Linked? && s.locker == None
    case WaitStart(p, c) =>
      IsIdle(s, p) && s.locker == None && p in s.procs && c in Children(s, p) && (p == INIT ==> OnList(s.kids.ring.next, c))
    case WaitDone(p) =>
      && p in s.pc && p in s.procs && s.pc[p].Waiting? && s.locker == None
      && s.pc[p].child in s.procs && s.procs[s.pc[p].child].status != STATUS_ALIVE && CanDrop(s, p, s.pc[p].child)
    case ExitStart(p, _) => IsIdle(s, p) && s.locker == None && p != INIT
    case HandTake(p) => CanHand(s, p)
    case ExitDone(p) => p in s.pc && p in s.procs && s.pc[p].Exiting? && s.procs[p].children == [] && p !in s.kids.apps
  }

  ghost predicate CanDrop(s: Sys, p: nat, c: nat)
  {
    p == INIT ==> c in s.kids.ring.prev && c in s.kids.ring.next
  }

  ghost predicate CanHand(s: Sys, p: nat)
  {
    && p in s.pc && p in s.procs && p != INIT && s.pc[p].Exiting? && p !in s.kids.apps
    && s.procs[p].children != [] && s.procs[p].children[0] in s.procs
  }

  ghost function SetPc(s: Sys, p: nat, at: Pc): Sys
  {
    s.(pc := s.pc[p := at])
  }

  ghost function SetChildren(s: Sys, p: nat, l: seq<nat>): Sys
    requires p in s.procs
  {
    s.(procs := s.procs[p := s.procs[p].(children := l)])
  }

  /** A new record, for a child of p. */
  ghost function NewProc(s: Sys, p: nat, at: Pc): Sys
  {
    s.(procs := s.procs[s.next := Proc([], STATUS_ALIVE)], pc := s.pc[p := at], next := s.next + 1, parent := s.parent[s.next := p])
  }

  /** The append to a list that nobody else touches. */
  ghost function OwnStep(s: Sys, p: nat): Sys
    requires p in s.procs
  {
    NewProc(SetChildren(s, p, s.procs[p].children + [s.next]), p, Linked(s.next))
  }

  ghost function InitStep(s: Sys): Sys
  {
    NewProc(s, INIT, Forking(s.next)).(kids := Begin(s.kids, INIT, s.next))
  }

  /** The last write of an append; init's fork goes on. */
  ghost function TailStep(s: Sys, a: nat): Sys
    requires IsAt(s.kids, a, NextSet)
  {
    s.(kids := SetTail(s.kids, a), pc := if a == INIT then s.pc[a := Linked(s.kids.apps[a].node)] else s.pc)
  }

  /** The child joins the process table and starts. */
  ghost function StartStep(s: Sys, p: nat): Sys
    requires p in s.pc && s.pc[p].Linked?
  {
    var c := s.pc[p].child;
    s.(running := s.running + {c}, pc := s.pc[p := Idle][c := Idle], table := s.table + [c])
  }

  /** A record is given back. */
  ghost function Free(s: Sys, c: nat): Sys
  {
    s.(procs := s.procs - {c}, parent := s.parent - {c}, freed := s.freed + [c])
  }

  /** A child that has ended leaves its parent's list and its record is freed. */
  ghost function DropChild(s: Sys, p: nat, c: nat): Sys
    requires p in s.procs && CanDrop(s, p, c)
  {
    Free(if p == INIT then s.(kids := TakeOut(s.kids, c)) else SetChildren(s, p, Without(s.procs[p].children, c)), c)
  }

  ghost function WaitDoneStep(s: Sys, p: nat): Sys
    requires Enabled(s, WaitDone(p))
  {
    DropChild(SetPc(s, p, Idle), p, s.pc[p].child)
  }

  /** The exiting process is off the process table. */
  ghost function ExitStartStep(s: Sys, p: nat, status: int): Sys
  {
    s.(table := Without(s.table, p), pc := s.pc[p := Exiting(status)], locker := Some(p))
  }

  /** The first child of p is to be init's. */
  ghost function Adopt(s: Sys, p: nat): Sys
    requires CanHand(s, p)
  {
    var c := s.procs[p].children[0];
    SetChildren(s, p, s.procs[p].children[1..]).(parent := s.parent[c := INIT], kids := Begin(s.kids, p, c))
  }

  /** The first child of p is taken off its list: for init if it is alive, to be freed if not. */
  ghost function HandStep(s: Sys, p: nat): Sys
    requires CanHand(s, p)
  {
    var c := s.procs[p].children[0];
    if s.procs[c].status == STATUS_ALIVE then Adopt(s, p) else DropChild(s, p, c)
  }

  /** The exit of p is complete: all its children are gone and its status is set. */
  ghost function Leave(s: Sys, p: nat): Sys
    requires p in s.procs && p in s.pc && s.pc[p].Exiting?
  {
    var status := s.pc[p].status;
    s.(procs := s.procs[p := Proc(s.procs[p].children, status)], running := s.running - {p}, pc := s.pc - {p},
       exits := s.exits[p := status], locker := None)
  }

  ghost function Apply(s: Sys, step: Step): Sys
    requires Enabled(s, step)
  {
    match step
    case ForkOwn(p) => OwnStep(s, p)
    case ForkInit => InitStep(s)
    case AppLoad(a) => s.(kids := Load(s.kids, a))
    case AppStore(a) => s.(kids := Store(s.kids, a))
    case AppPrev(a) => s.(kids := SetPrev(s.kids, a))
    case AppNext(a) => s.(kids := SetNext(s.kids, a))
    case AppTail(a) => TailStep(s, a)
    case ForkDone(p) => StartStep(s, p)
    case WaitStart(p, c) => SetPc(s, p, Waiting(c))
    case WaitDone(p) => WaitDoneStep(s, p)
    case ExitStart(p, status) => ExitStartStep(s, p, status)
    case HandTake(p) => HandStep(s, p)
    case ExitDone(p) => Leave(s, p)
  }

  // --- Every step keeps the invariant ---

  /** The program counter of p moves, and not into or out of a fork or an exit. */
  ghost predicate CanMove(s: Sys, p: nat, at: Pc)
  {
    p in s.pc && (s.pc[p].Idle? || s.pc[p].Waiting?) && (at.Idle? || at.Waiting?) && PcOk(SetPc(s, p, at), p)
  }

  lemma MoveProc(s: Sys, p: nat, at: Pc, q: nat)
    requires Inv(s) && CanMove(s, p, at)
    ensures q in s.procs ==> ProcOk(SetPc(s, p, at), q)
    ensures q in s.kids.apps ==> HandOk(SetPc(s, p, at), q)
  {
    assert q in s.procs ==> ProcOk(s, q);
    assert q in s.kids.apps ==> HandOk(s, q);
  }

  lemma MovePcs(s: Sys, p: nat, at: Pc, q: nat)
    requires Inv(s) && CanMove(s, p, at)
    ensures TableOk(SetPc(s, p, at), q) && (q in s.pc ==> PcOk(SetPc(s, p, at), q))
  {
    assert TableOk(s, q) && (q in s.pc ==> PcOk(s, q));
  }

  lemma MoveKeeps(s: Sys, p: nat, at: Pc)
    requires Inv(s) && CanMove(s, p, at)
    ensures Inv(SetPc(s, p, at))
  {
    var r := SetPc(s, p, at);
    forall q ensures TableOk(r, q) && (q in r.pc ==> PcOk(r, q)) {
      MovePcs(s, p, at, q);
    }
    forall q ensures (q in r.procs ==> ProcOk(r, q)) && (q in r.kids.apps ==> HandOk(r, q)) {
      MoveProc(s, p, at, q);
    }
    forall q, d | q in r.procs ensures ChildOk(r, q, d) {
      assert ChildOk(s, q, d);
    }
  }

  /** A write of an append other than the first. */
  lemma KidsKeeps(s: Sys, k: Race)
    requires Inv(s) && Sound(k) && k.ring.list == s.kids.ring.list && k.apps.Keys == s.kids.apps.Keys
    requires forall a | a in k.apps :: k.apps[a].node == s.kids.apps[a].node && (Writing(k, a) <==> Writing(s.kids, a))
    ensures Inv(s.(kids := k))
  {
    var r := s.(kids := k);
    forall q ensures TableOk(r, q) {
      assert TableOk(s, q);
    }
    forall q | q in r.procs ensures ProcOk(r, q) {
      assert ProcOk(s, q);
      assert InHand(s.kids, q) ==> InHand(k, q);
    }
    forall q, d | q in r.procs ensures ChildOk(r, q, d) {
      assert ChildOk(s, q, d);
    }
    forall q | q in r.pc ensures PcOk(r, q) {
      assert PcOk(s, q);
    }
    forall a | a in r.kids.apps ensures HandOk(r, a) {
      assert HandOk(s, a);
    }
  }

  lemma StoreProc(s: Sys, a: nat, q: nat)
    requires Inv(s) && HasLoaded(s.kids, a) && q in s.procs
    ensures ProcOk(s.(kids := Store(s.kids, a)), q)
  {
    var k, n := Store(s.kids, a), s.kids.apps[a].node;
    assert ProcOk(s, q);
    if InHand(s.kids, q) && q != n {
      var b :| b in s.kids.apps && s.kids.apps[b].node == q && !Writing(s.kids, b);
      assert b in k.apps && k.apps[b].node == q && !Writing(k, b);
    }
  }

  lemma StoreKeeps(s: Sys, a: nat)
    requires Inv(s) && Enabled(s, AppStore(a))
    ensures Inv(Apply(s, AppStore(a)))
  {
    var r, n := Apply(s, AppStore(a)), s.kids.apps[a].node;
    StoreSound(s.kids, a);
    assert HandOk(s, a) && AppOk(s.kids, a);
    forall q ensures TableOk(r, q) {
      assert TableOk(s, q);
    }
    forall q | q in r.procs ensures ProcOk(r, q) {
      StoreProc(s, a, q);
    }
    forall q, d | q in r.procs ensures ChildOk(r, q, d) {
      assert ChildOk(s, q, d);
    }
    forall q | q in r.pc ensures PcOk(r, q) {
      assert PcOk(s, q);
    }
    forall b | b in r.kids.apps ensures HandOk(r, b) {
      assert HandOk(s, b);
    }
  }

  lemma TailProc(s: Sys, a: nat, q: nat)
    requires Inv(s) && IsAt(s.kids, a, NextSet) && q in s.procs
    ensures ProcOk(TailStep(s, a), q)
  {
    var k := SetTail(s.kids, a);
    assert ProcOk(s, q) && HandOk(s, a);
    if InHand(s.kids, q) {
      var b :| b in s.kids.apps && s.kids.apps[b].node == q && !Writing(s.kids, b);
      assert b in k.apps && k.apps[b].node == q && !Writing(k, b);
    }
  }

  lemma TailKeeps(s: Sys, a: nat)
    requires Inv(s) && Enabled(s, AppTail(a))
    ensures Inv(TailStep(s, a))
  {
    var r := TailStep(s, a);
    TailSound(s.kids, a);
    assert HandOk(s, a) && AppOk(s.kids, a) && PcOk(s, a);
    forall q ensures TableOk(r, q) {
      assert TableOk(s, q);
    }
    forall q | q in r.procs ensures ProcOk(r, q) {
      TailProc(s, a, q);
    }
    forall q, d | q in r.procs ensures ChildOk(r, q, d) {
      assert ChildOk(s, q, d);
    }
    forall q | q in r.pc ensures PcOk(r, q) {
      assert PcOk(s, q);
    }
    forall b | b in r.kids.apps ensures HandOk(r, b) {
      assert HandOk(s, b);
    }
  }

  /** The number of a new process is new everywhere. */
  lemma NewNumber(s: Sys)
    requires Inv(s)
    ensures s.next !in s.procs && s.next !in s.freed && s.next !in s.exits && s.next != INIT && s.next !in s.kids.ring.list
    ensures forall p | p in s.procs :: s.next !in Children(s, p)
    ensures forall b | b in s.kids.apps :: s.kids.apps[b].node != s.next
    ensures !InHand(s.kids, s.next)
  {
    assert ProcOk(s, INIT) && (s.next in s.procs ==> ProcOk(s, s.next));
    forall p | p in s.procs ensures s.next !in Children(s, p) {
      assert ChildOk(s, p, s.next);
    }
    forall b | b in s.kids.apps ensures s.kids.apps[b].node != s.next {
      assert HandOk(s, b);
    }
  }

  lemma OwnProc(s: Sys, p: nat, q: nat)
    requires Inv(s) && Enabled(s, ForkOwn(p)) && (q in s.procs || q == s.next)
    ensures ProcOk(OwnStep(s, p), q)
  {
    NewNumber(s);
    assert ProcOk(s, p) && (q in s.procs ==> ProcOk(s, q));
  }

  lemma OwnLists(s: Sys, p: nat, q: nat, d: nat)
    requires Inv(s) && Enabled(s, ForkOwn(p)) && (q in s.procs || q == s.next)
    ensures ChildOk(OwnStep(s, p), q, d)
  {
    NewNumber(s);
    assert q in s.procs ==> ChildOk(s, q, d);
  }

  lemma OwnPcs(s: Sys, p: nat, q: nat)
    requires Inv(s) && Enabled(s, ForkOwn(p)) && q in s.pc
    ensures PcOk(OwnStep(s, p), q)
  {
    NewNumber(s);
    assert PcOk(s, q);
  }

  lemma OwnHands(s: Sys, p: nat, a: nat)
    requires Inv(s) && Enabled(s, ForkOwn(p)) && a in s.kids.apps
    ensures HandOk(OwnStep(s, p), a)
  {
    NewNumber(s);
    assert HandOk(s, a);
  }

  lemma OwnKeeps(s: Sys, p: nat)
    requires Inv(s) && Enabled(s, ForkOwn(p))
    ensures Inv(OwnStep(s, p))
  {
    var r := OwnStep(s, p);
    forall q ensures TableOk(r, q) {
      assert TableOk(s, q);
    }
    forall q | q in r.procs ensures ProcOk(r, q) {
      OwnProc(s, p, q);
    }
    forall q, d | q in r.procs ensures ChildOk(r, q, d) {
      OwnLists(s, p, q, d);
    }
    forall q | q in r.pc ensures PcOk(r, q) {
      OwnPcs(s, p, q);
    }
    forall a | a in r.kids.apps ensures HandOk(r, a) {
      OwnHands(s, p, a);
    }
  }

  lemma InitProc(s: Sys, q: nat)
    requires Inv(s) && Enabled(s, ForkInit) && (q in s.procs || q == s.next)
    ensures ProcOk(InitStep(s), q)
  {
    var k := InitStep(s).kids;
    NewNumber(s);
    assert PcOk(s, INIT) && (q in s.procs ==> ProcOk(s, q));
    if q == s.next {
      assert INIT in k.apps && k.apps[INIT].node == q && !Writing(k, INIT);
    } else if InHand(s.kids, q) {
      var b :| b in s.kids.apps && s.kids.apps[b].node == q && !Writing(s.kids, b);
      assert b in k.apps && k.apps[b].node == q && !Writing(k, b);
    }
  }

  lemma InitRest(s: Sys, q: nat)
    requires Inv(s) && Enabled(s, ForkInit)
    ensures q in InitStep(s).procs ==> forall d :: ChildOk(InitStep(s), q, d)
    ensures q in s.pc ==> PcOk(InitStep(s), q)
    ensures q in InitStep(s).kids.apps ==> HandOk(InitStep(s), q)
  {
    var r := InitStep(s);
    NewNumber(s);
    if q in r.procs {
      forall d ensures ChildOk(r, q, d) {
        assert q in s.procs ==> ChildOk(s, q, d);
      }
    }
    assert PcOk(s, INIT) && (q in s.pc ==> PcOk(s, q)) && (q in s.kids.apps ==> HandOk(s, q));
  }

  lemma InitBasic(s: Sys)
    requires Inv(s) && Enabled(s, ForkInit)
    ensures Basic(InitStep(s))
  {
    NewNumber(s);
    assert PcOk(s, INIT);
    BeginSound(s.kids, INIT, s.next);
    forall q ensures TableOk(InitStep(s), q) {
      assert TableOk(s, q);
    }
  }

  lemma InitKeeps(s: Sys)
    requires Inv(s) && Enabled(s, ForkInit)
    ensures Inv(InitStep(s))
  {
    var r := InitStep(s);
    InitBasic(s);
    forall q | q in r.procs ensures ProcOk(r, q) {
      InitProc(s, q);
    }
    forall q, d | q in r.procs ensures ChildOk(r, q, d) {
      InitRest(s, q);
    }
    forall q | q in r.pc ensures PcOk(r, q) {
      InitRest(s, q);
    }
    forall a | a in r.kids.apps ensures HandOk(r, a) {
      InitRest(s, a);
    }
  }

  /** The child that a fork has linked. */
  lemma LinkedChild(s: Sys, p: nat)
    requires Inv(s) && p in s.pc && s.pc[p].Linked?
    ensures var c := s.pc[p].child; c in s.procs && c != INIT && c in s.parent && s.parent[c] == p && c !in s.running && Fresh(s, c)
  {
    assert PcOk(s, p) && ChildOk(s, p, s.pc[p].child);
  }

  lemma StartPcs(s: Sys, p: nat, q: nat)
    requires Inv(s) && Enabled(s, ForkDone(p)) && q in StartStep(s, p).pc
    ensures PcOk(StartStep(s, p), q)
  {
    LinkedChild(s, p);
    assert PcOk(s, p) && (q in s.pc ==> PcOk(s, q));
    if q in s.pc && s.pc[q].Linked? {
      LinkedChild(s, q);
    }
    if q in s.pc && s.pc[q].Forking? {
      assert HandOk(s, INIT);
    }
  }

  lemma StartProc(s: Sys, p: nat, q: nat)
    requires Inv(s) && Enabled(s, ForkDone(p)) && q in s.procs
    ensures ProcOk(StartStep(s, p), q)
  {
    LinkedChild(s, p);
    assert ProcOk(s, s.pc[p].child) && ProcOk(s, q);
  }

  lemma StartHands(s: Sys, p: nat, a: nat)
    requires Inv(s) && Enabled(s, ForkDone(p)) && a in s.kids.apps
    ensures HandOk(StartStep(s, p), a)
  {
    LinkedChild(s, p);
    assert HandOk(s, a) && PcOk(s, a);
  }

  lemma StartBasic(s: Sys, p: nat)
    requires Inv(s) && Enabled(s, ForkDone(p))
    ensures Basic(StartStep(s, p))
  {
    var r, c := StartStep(s, p), s.pc[p].child;
    LinkedChild(s, p);
    assert ProcOk(s, c) && TableOk(s, c) && PcOk(s, p);
    forall q ensures TableOk(r, q) {
      assert TableOk(s, q);
    }
  }

  lemma StartKeeps(s: Sys, p: nat)
    requires Inv(s) && Enabled(s, ForkDone(p))
    ensures Inv(StartStep(s, p))
  {
    var r := StartStep(s, p);
    StartBasic(s, p);
    forall q | q in r.procs ensures ProcOk(r, q) {
      StartProc(s, p, q);
    }
    forall q, d | q in r.procs ensures ChildOk(r, q, d) {
      assert ChildOk(s, q, d);
    }
    forall q | q in r.pc ensures PcOk(r, q) {
      StartPcs(s, p, q);
    }
    forall a | a in r.kids.apps ensures HandOk(r, a) {
      StartHands(s, p, a);
    }
  }

  // --- Ended children ---

  /** A process whose status does not mean alive has ended. */
  lemma Ended(s: Sys, c: nat)
    requires Inv(s) && c in s.procs && s.procs[c].status != STATUS_ALIVE
    ensures c !in s.running && c in s.exits && s.exits[c] == s.procs[c].status
  {
    assert ProcOk(s, c);
  }

  /** An ended child of p, which may be dropped: for init's list no append is under way. */
  ghost predicate Droppable(s: Sys, p: nat, c: nat)
  {
    && p in s.running && p in s.procs && CanDrop(s, p, c) && c in Children(s, p) && c in s.procs && s.procs[c].status != STATUS_ALIVE
    && p in s.pc && (s.pc[p].Idle? || s.pc[p].Exiting?) && (p == INIT ==> s.kids.apps == map[])
  }

  lemma DropList(s: Sys, p: nat, c: nat, q: nat)
    requires Inv(s) && Droppable(s, p, c) && q in s.procs && q != c
    ensures q in DropChild(s, p, c).procs
    ensures forall d :: d in Children(DropChild(s, p, c), q) <==> d in Children(s, q) && d != c
  {
    assert ProcOk(s, p) && ProcOk(s, q) && ChildOk(s, q, c) && ChildOk(s, p, c);
    WithoutList(Children(s, p), c);
  }

  lemma DropProc(s: Sys, p: nat, c: nat, q: nat)
    requires Inv(s) && Droppable(s, p, c) && q in s.procs && q != c
    ensures ProcOk(DropChild(s, p, c), q)
  {
    Ended(s, c);
    assert ProcOk(s, p) && ProcOk(s, q) && ChildOk(s, p, c);
    DropList(s, p, c, q);
    WithoutList(s.procs[p].children, c);
    if q != INIT {
      DropList(s, p, c, s.parent[q]);
    }
  }

  lemma DropLists(s: Sys, p: nat, c: nat, q: nat, d: nat)
    requires Inv(s) && Droppable(s, p, c) && q in s.procs && q != c
    ensures ChildOk(DropChild(s, p, c), q, d)
  {
    DropList(s, p, c, q);
    assert ChildOk(s, q, d);
  }

  lemma DropPcs(s: Sys, p: nat, c: nat, q: nat)
    requires Inv(s) && Droppable(s, p, c) && q in s.pc
    ensures PcOk(DropChild(s, p, c), q)
  {
    Ended(s, c);
    assert PcOk(s, q) && ChildOk(s, q, c) && ChildOk(s, p, c);
    DropList(s, p, c, q);
  }

  lemma DropHands(s: Sys, p: nat, c: nat, a: nat)
    requires Inv(s) && Droppable(s, p, c) && a in DropChild(s, p, c).kids.apps
    ensures HandOk(DropChild(s, p, c), a)
  {
    assert HandOk(s, a) && ChildOk(s, p, c);
  }

  lemma DropBasic(s: Sys, p: nat, c: nat)
    requires Inv(s) && Droppable(s, p, c)
    ensures Basic(DropChild(s, p, c)) && c != INIT
  {
    var r := DropChild(s, p, c);
    Ended(s, c);
    assert ChildOk(s, p, c) && ProcOk(s, c);
    if p == INIT {
      TakeSound(s.kids, c);
    }
    forall q ensures TableOk(r, q) {
      assert TableOk(s, q);
    }
  }

  lemma DropKeeps(s: Sys, p: nat, c: nat)
    requires Inv(s) && Droppable(s, p, c)
    ensures Inv(DropChild(s, p, c))
  {
    var r := DropChild(s, p, c);
    DropBasic(s, p, c);
    forall q | q in r.procs ensures ProcOk(r, q) {
      DropProc(s, p, c, q);
    }
    forall q, d | q in r.procs ensures ChildOk(r, q, d) {
      DropLists(s, p, c, q, d);
    }
    forall q | q in r.pc ensures PcOk(r, q) {
      DropPcs(s, p, c, q);
    }
    forall a | a in r.kids.apps ensures HandOk(r, a) {
      DropHands(s, p, c, a);
    }
  }

  /** When init is not in a fork and nobody has the lock, no append to its list is under way. */
  lemma NoApps(s: Sys)
    requires Inv(s) && !s.pc[INIT].Forking? && s.locker == None
    ensures s.kids.apps == map[]
  {
    forall a | a in s.kids.apps ensures false {
      AppOwner(s, a);
    }
  }

  lemma AppOwner(s: Sys, a: nat)
    requires Inv(s) && a in s.kids.apps
    ensures if a == INIT then s.pc[INIT].Forking? else s.locker == Some(a)
  {
    assert HandOk(s, a) && PcOk(s, a);
  }

  lemma WaitDrops(s: Sys, p: nat)
    requires Inv(s) && Enabled(s, WaitDone(p))
    ensures Inv(SetPc(s, p, Idle)) && Droppable(SetPc(s, p, Idle), p, s.pc[p].child)
  {
    assert PcOk(s, p);
    MoveKeeps(s, p, Idle);
    if p == INIT {
      NoApps(s);
    }
  }

  lemma WaitDoneKeeps(s: Sys, p: nat)
    requires Inv(s) && Enabled(s, WaitDone(p))
    ensures Inv(WaitDoneStep(s, p))
  {
    WaitDrops(s, p);
    DropKeeps(SetPc(s, p, Idle), p, s.pc[p].child);
  }

  // --- Exit ---

  lemma ExitStartKeeps(s: Sys, p: nat, status: int)
    requires Inv(s) && Enabled(s, ExitStart(p, status))
    ensures Inv(ExitStartStep(s, p, status))
  {
    var r := ExitStartStep(s, p, status);
    WithoutList(s.table, p);
    forall q ensures TableOk(r, q) {
      assert TableOk(s, q);
    }
    forall q | q in r.procs ensures ProcOk(r, q) {
      assert ProcOk(s, q);
    }
    forall q, d | q in r.procs ensures ChildOk(r, q, d) {
      assert ChildOk(s, q, d);
    }
    forall q | q in r.pc ensures PcOk(r, q) {
      assert PcOk(s, q);
    }
    forall a | a in r.kids.apps ensures HandOk(r, a) {
      assert HandOk(s, a) && PcOk(s, a);
    }
  }

  /** The first child of an exiting process is nobody else's, and in nobody's hands. */
  lemma FirstChild(s: Sys, p: nat)
    requires Inv(s) && CanHand(s, p)
    ensures var c := s.procs[p].children[0];
            && c != INIT && c != p && c in s.parent && s.parent[c] == p && !Fresh(s, c) && !InHand(s.kids, c)
            && (forall q | q in s.procs && q != p :: c !in Children(s, q)) && (forall b | b in s.kids.apps :: s.kids.apps[b].node != c)
            && c !in s.procs[p].children[1..]
            && forall d :: d in s.procs[p].children <==> d == c || d in s.procs[p].children[1..]
  {
    var l := s.procs[p].children;
    var c := l[0];
    assert l == [c] + l[1..];
    assert ProcOk(s, p) && ChildOk(s, p, c) && ProcOk(s, c) && PcOk(s, p);
    forall q | q in s.procs && q != p ensures c !in Children(s, q) {
      assert ChildOk(s, q, c);
    }
    forall b | b in s.kids.apps ensures s.kids.apps[b].node != c {
      assert HandOk(s, b);
    }
  }

  lemma AdoptProc(s: Sys, p: nat, q: nat)
    requires Inv(s) && CanHand(s, p) && q in s.procs
    ensures ProcOk(Adopt(s, p), q)
  {
    var k, c := Adopt(s, p).kids, s.procs[p].children[0];
    FirstChild(s, p);
    assert ProcOk(s, q) && ProcOk(s, p) && PcOk(s, INIT);
    if q == c {
      assert p in k.apps && k.apps[p].node == q && !Writing(k, p);
    } else if InHand(s.kids, q) {
      var b :| b in s.kids.apps && s.kids.apps[b].node == q && !Writing(s.kids, b);
      assert b in k.apps && k.apps[b].node == q && !Writing(k, b);
    }
  }

  lemma AdoptRest(s: Sys, p: nat, q: nat)
    requires Inv(s) && CanHand(s, p)
    ensures q in s.procs ==> forall d :: ChildOk(Adopt(s, p), q, d)
    ensures q in s.pc ==> PcOk(Adopt(s, p), q)
    ensures q in Adopt(s, p).kids.apps ==> HandOk(Adopt(s, p), q)
  {
    var r := Adopt(s, p);
    FirstChild(s, p);
    if q in s.procs {
      forall d ensures ChildOk(r, q, d) {
        assert ChildOk(s, q, d);
      }
    }
    assert q in s.pc ==> PcOk(s, q);
    assert q in s.kids.apps ==> HandOk(s, q);
    assert PcOk(s, INIT);
  }

  lemma AdoptKeeps(s: Sys, p: nat)
    requires Inv(s) && CanHand(s, p)
    ensures Inv(Adopt(s, p))
  {
    var r := Adopt(s, p);
    FirstChild(s, p);
    assert PcOk(s, p);
    BeginSound(s.kids, p, s.procs[p].children[0]);
    forall q ensures TableOk(r, q) {
      assert TableOk(s, q);
    }
    forall q | q in r.procs ensures ProcOk(r, q) {
      AdoptProc(s, p, q);
    }
    forall q, d | q in r.procs ensures ChildOk(r, q, d) {
      AdoptRest(s, p, q);
    }
    forall q | q in r.pc ensures PcOk(r, q) {
      AdoptRest(s, p, q);
    }
    forall a | a in r.kids.apps ensures HandOk(r, a) {
      AdoptRest(s, p, a);
    }
  }

  lemma HandKeeps(s: Sys, p: nat)
    requires Inv(s) && Enabled(s, HandTake(p))
    ensures Inv(HandStep(s, p)) && p in HandStep(s, p).procs && HandStep(s, p).pc == s.pc
    ensures HandStep(s, p).procs[p].children == s.procs[p].children[1..]
  {
    var c := s.procs[p].children[0];
    FirstChild(s, p);
    if s.procs[c].status == STATUS_ALIVE {
      AdoptKeeps(s, p);
    } else {
      Ended(s, c);
      DropKeeps(s, p, c);
    }
  }

  lemma LeaveProc(s: Sys, p: nat, q: nat)
    requires Inv(s) && Enabled(s, ExitDone(p)) && q in s.procs
    ensures ProcOk(Leave(s, p), q)
  {
    assert ProcOk(s, p) && ProcOk(s, q) && PcOk(s, p);
    assert q != INIT ==> PcOk(s, s.parent[q]);
    if q == p {
      NotFresh(s, p);
    }
  }

  lemma NotFresh(s: Sys, p: nat)
    requires Inv(s) && p in s.running
    ensures !Fresh(s, p)
  {
    if p in s.parent && s.parent[p] in s.pc {
      assert PcOk(s, s.parent[p]);
    }
  }

  lemma LeaveKeeps(s: Sys, p: nat)
    requires Inv(s) && Enabled(s, ExitDone(p))
    ensures Inv(Leave(s, p))
  {
    var r := Leave(s, p);
    assert ProcOk(s, p) && PcOk(s, p);
    forall q ensures TableOk(r, q) {
      assert TableOk(s, q);
    }
    forall q | q in r.procs ensures ProcOk(r, q) {
      LeaveProc(s, p, q);
    }
    forall q, d | q in r.procs ensures ChildOk(r, q, d) {
      assert ChildOk(s, q, d);
    }
    forall q | q in r.pc ensures PcOk(r, q) {
      assert PcOk(s, q);
    }
    forall a | a in r.kids.apps ensures HandOk(r, a) {
      assert HandOk(s, a) && PcOk(s, a);
    }
  }

  lemma AppKeeps(s: Sys, step: Step)
    requires Inv(s) && Enabled(s, step) && (step.AppLoad? || step.AppPrev? || step.AppNext?)
    ensures Inv(Apply(s, step))
  {
    var k := Apply(s, step).kids;
    assert AppOk(s.kids, step.a);
    MoveSound(s.kids, k, step.a);
    KidsKeeps(s, k);
  }

  lemma StepKeeps(s: Sys, step: Step)
    requires Inv(s) && Enabled(s, step)
    ensures Inv(Apply(s, step))
  {
    match step
    case ForkOwn(p) => OwnKeeps(s, p);
    case ForkInit => InitKeeps(s);
    case AppLoad(a) => AppKeeps(s, step);
    case AppStore(a) => StoreKeeps(s, a);
    case AppPrev(a) => AppKeeps(s, step);
    case AppNext(a) => AppKeeps(s, step);
    case AppTail(a) => TailKeeps(s, a);
    case ForkDone(p) => StartKeeps(s, p);
    case WaitStart(p, c) => assert PcOk(s, p); MoveKeeps(s, p, Waiting(c));
    case WaitDone(p) => WaitDoneKeeps(s, p);
    case ExitStart(p, status) => ExitStartKeeps(s, p, status);
    case HandTake(p) => HandKeeps(s, p);
    case ExitDone(p) => LeaveKeeps(s, p);
  }
}
