/**
 * What holds over every run of forks, waits and exits: whose child each process
 * is, what `wait` returns, and exactly when the unlocked append of init's fork
 * and the locked one of an exit lose a process between them.
 */
module ProcRuns {
  import opened Basics
  import opened NatLists
  import LinkedRing
  import opened ListRace
  import opened ProcState

  ghost function InitSys(): Sys
  {
    Sys(map[INIT := Proc([], STATUS_ALIVE)], {INIT}, map[INIT := Idle], [INIT], 1, None,
        Race(LinkedRing.Ring(map[INIT := INIT], map[INIT := INIT], []), map[]), map[], map[], [])
  }

  ghost predicate StepAt(states: seq<Sys>, steps: seq<Step>, i: nat)
    requires |states| == |steps| + 1 && i < |steps|
  {
    Enabled(states[i], steps[i]) && states[i + 1] == Apply(states[i], steps[i])
  }

  /** A run from the state with only init. */
  ghost predicate Trace(states: seq<Sys>, steps: seq<Step>)
  {
    && |states| == |steps| + 1 && states[0] == InitSys()
    && forall i: nat {:trigger StepAt(states, steps, i)} | i < |steps| :: StepAt(states, steps, i)
  }

  lemma InitInv()
    ensures Inv(InitSys()) && Good(InitSys().kids)
  {
    var s := InitSys();
    assert ProcOk(s, INIT) && PcOk(s, INIT);
    forall p ensures TableOk(s, p) {
    }
    assert LinkedRing.LinkAt(s.kids.ring, 0);
  }

  lemma {:induction false} TraceInv(states: seq<Sys>, steps: seq<Step>, i: nat)
    requires Trace(states, steps) && i < |states|
    ensures Inv(states[i])
  {
    if i == 0 {
      InitInv();
    } else {
      TraceInv(states, steps, i - 1);
      assert StepAt(states, steps, i - 1);
      StepKeeps(states[i - 1], steps[i - 1]);
    }
  }

  // --- Whose child a process is ---

  /** A walk through p's children meets c. */
  ghost predicate Holds(s: Sys, p: nat, c: nat)
    requires p in s.procs
  {
    if p == INIT then OnList(s.kids.ring.next, c) else c in s.procs[p].children
  }

  /** c is on the list of its parent, which is alive, and on no other. */
  ghost predicate Listed(s: Sys, c: nat)
  {
    && c in s.parent && s.parent[c] in s.running && s.parent[c] in s.procs && Holds(s, s.parent[c], c)
    && forall q | q in s.procs && Holds(s, q, c) :: q == s.parent[c]
  }

  /** Every process that is not just being appended is on one list. */
  ghost predicate AllListed(s: Sys)
  {
    forall c | c in s.procs && c != INIT && !InHand(s.kids, c) :: Listed(s, c)
  }

  lemma GoodHolds(s: Sys, p: nat, c: nat)
    requires Inv(s) && Good(s.kids) && p in s.procs
    ensures Holds(s, p, c) <==> c in Children(s, p)
  {
    GoodListed(s.kids, c);
  }

  lemma GoodIsListed(s: Sys, c: nat)
    requires Inv(s) && Good(s.kids) && c in s.procs && c != INIT && !InHand(s.kids, c)
    ensures Listed(s, c)
  {
    assert ProcOk(s, c);
    GoodHolds(s, s.parent[c], c);
    forall q | q in s.procs && Holds(s, q, c) ensures q == s.parent[c] {
      GoodHolds(s, q, c);
      assert ChildOk(s, q, c);
    }
  }

  // --- What keeps init's list right ---

  /** The store goes through a tail that another append has left behind. */
  ghost predicate BadStore(s: Sys, step: Step)
  {
    step.AppStore? && Stale(s.kids, step.a)
  }

  lemma BeginKeeps(s: Sys, step: Step)
    requires Inv(s) && Good(s.kids) && Enabled(s, step) && (step.ForkInit? || step.HandTake?)
    ensures Good(Apply(s, step).kids)
  {
    if step.ForkInit? {
      NewNumber(s);
      assert PcOk(s, INIT);
      BeginGood(s.kids, INIT, s.next);
    } else {
      FirstChild(s, step.p);
      var c := s.procs[step.p].children[0];
      assert c !in Children(s, INIT) && ProcOk(s, INIT);
      if s.procs[c].status == STATUS_ALIVE {
        BeginGood(s.kids, step.p, c);
      }
    }
  }

  lemma TakeKeeps(s: Sys, p: nat)
    requires Inv(s) && Good(s.kids) && Enabled(s, WaitDone(p))
    ensures Good(Apply(s, WaitDone(p)).kids)
  {
    if p == INIT {
      WaitDrops(s, p);
      assert PcOk(s, p);
      TakeGood(s.kids, Index(s.kids.ring.list, s.pc[p].child));
    }
  }

  /** Init's list stays what it should be under every step but a store to a stale tail, and that one breaks it. */
  lemma StepGood(s: Sys, step: Step)
    requires Inv(s) && Good(s.kids) && Enabled(s, step)
    ensures Good(Apply(s, step).kids) <==> !BadStore(s, step)
  {
    match step
    case ForkInit => BeginKeeps(s, step);
    case HandTake(p) => BeginKeeps(s, step);
    case AppLoad(a) => LoadGood(s.kids, a);
    case AppStore(a) =>
      if Stale(s.kids, a) {
        StaleStore(s.kids, a);
      } else {
        StoreGood(s.kids, a);
      }
    case AppPrev(a) => SetPrevGood(s.kids, a);
    case AppNext(a) => SetNextGood(s.kids, a);
    case AppTail(a) => SetTailGood(s.kids, a);
    case WaitDone(p) => TakeKeeps(s, p);
    case _ =>
  }

  // --- Overlapping appends ---

  ghost predicate LoadedFrom(states: seq<Sys>, a: nat, m: nat, k: nat)
    requires k < |states|
  {
    forall n: nat | m <= n <= k :: HasLoaded(states[n].kids, a)
  }

  ghost predicate WriterAt(states: seq<Sys>, a: nat, m: nat)
    requires m < |states|
  {
    OtherWriting(states[m].kids, a)
  }

  /** Since a has read the tail, another append was between its first and its last write. */
  ghost predicate SeenWriter(states: seq<Sys>, a: nat, k: nat)
    requires k < |states|
  {
    exists m: nat :: m <= k && LoadedFrom(states, a, m, k) && WriterAt(states, a, m)
  }

  /** At step k an append makes its first write although another one was writing since it read the tail. */
  ghost predicate Overlap(states: seq<Sys>, steps: seq<Step>, k: nat)
    requires |states| == |steps| + 1 && k < |steps|
  {
    steps[k].AppStore? && SeenWriter(states, steps[k].a, k)
  }

  ghost predicate NoOverlap(states: seq<Sys>, steps: seq<Step>, i: nat)
    requires |states| == |steps| + 1 && i <= |steps|
  {
    forall k: nat | k < i :: !Overlap(states, steps, k)
  }

  lemma SeenNext(states: seq<Sys>, a: nat, k: nat)
    requires k + 1 < |states| && HasLoaded(states[k + 1].kids, a)
    ensures SeenWriter(states, a, k + 1) <==>
      (HasLoaded(states[k].kids, a) && SeenWriter(states, a, k)) || OtherWriting(states[k + 1].kids, a)
  {
    if SeenWriter(states, a, k + 1) {
      var m: nat :| m <= k + 1 && LoadedFrom(states, a, m, k + 1) && WriterAt(states, a, m);
      if m <= k {
        assert LoadedFrom(states, a, m, k);
      }
    }
    if HasLoaded(states[k].kids, a) && SeenWriter(states, a, k) {
      var m: nat :| m <= k && LoadedFrom(states, a, m, k) && WriterAt(states, a, m);
      assert LoadedFrom(states, a, m, k + 1);
    }
    if OtherWriting(states[k + 1].kids, a) {
      assert LoadedFrom(states, a, k + 1, k + 1) && WriterAt(states, a, k + 1);
    }
  }

  /** The steps that move the appends of others than a. */
  lemma OthersWriting(r: Race, q: Race, a: nat)
    requires forall b | b != a :: Writing(q, b) <==> Writing(r, b)
    ensures OtherWriting(q, a) <==> OtherWriting(r, a)
  {
  }

  lemma AppStale(s: Sys, step: Step, a: nat)
    requires Inv(s) && Good(s.kids) && Enabled(s, step) && HasLoaded(s.kids, a) && HasLoaded(Apply(s, step).kids, a)
    requires step.AppLoad? || step.AppStore? || step.AppPrev? || step.AppNext? || step.AppTail?
    ensures Stale(Apply(s, step).kids, a) <==> Stale(s.kids, a) || OtherWriting(Apply(s, step).kids, a)
  {
    var k := Apply(s, step).kids;
    assert AppOk(s.kids, step.a);
    match step
    case AppLoad(b) => OthersWriting(s.kids, k, a);
    case AppStore(b) => assert Writing(k, b);
    case AppPrev(b) => OthersWriting(s.kids, k, a);
    case AppNext(b) => OthersWriting(s.kids, k, a);
    case AppTail(b) => SetTailGood(s.kids, b); assert Writing(s.kids, b);
  }

  lemma StepStale(s: Sys, step: Step, a: nat)
    requires Inv(s) && Good(s.kids) && Enabled(s, step) && HasLoaded(s.kids, a) && HasLoaded(Apply(s, step).kids, a)
    ensures Stale(Apply(s, step).kids, a) <==> Stale(s.kids, a) || OtherWriting(Apply(s, step).kids, a)
  {
    var k := Apply(s, step).kids;
    if step.AppLoad? || step.AppStore? || step.AppPrev? || step.AppNext? || step.AppTail? {
      AppStale(s, step, a);
    } else if step.WaitDone? && step.p == INIT {
      WaitDrops(s, INIT);
    } else {
      assert PcOk(s, INIT);
      OthersWriting(s.kids, k, a);
    }
  }

  lemma Loads(s: Sys, step: Step, a: nat)
    requires Enabled(s, step) && !HasLoaded(s.kids, a) && HasLoaded(Apply(s, step).kids, a)
    ensures step == AppLoad(a)
  {
  }

  /** While the list is right, a tail is stale exactly if another append was writing since it was read. */
  lemma {:induction false} StaleIff(states: seq<Sys>, steps: seq<Step>, k: nat, a: nat)
    requires Trace(states, steps) && k <= |steps| && (forall i: nat | i <= k :: Good(states[i].kids)) && HasLoaded(states[k].kids, a)
    ensures Stale(states[k].kids, a) <==> SeenWriter(states, a, k)
  {
    if k > 0 {
      TraceInv(states, steps, k - 1);
      assert StepAt(states, steps, k - 1);
      if HasLoaded(states[k - 1].kids, a) {
        StaleIff(states, steps, k - 1, a);
      }
      SeenNext(states, a, k - 1);
      StaleNext(states[k - 1], steps[k - 1], a);
    }
  }

  lemma StaleNext(s: Sys, step: Step, a: nat)
    requires Inv(s) && Good(s.kids) && Enabled(s, step) && HasLoaded(Apply(s, step).kids, a)
    ensures Stale(Apply(s, step).kids, a) <==>
      (HasLoaded(s.kids, a) && Stale(s.kids, a)) || OtherWriting(Apply(s, step).kids, a)
  {
    if HasLoaded(s.kids, a) {
      StepStale(s, step, a);
    } else {
      Loads(s, step, a);
      LoadGood(s.kids, a);
      OthersWriting(s.kids, Apply(s, step).kids, a);
    }
  }

  /** Without an overlap init's list is right throughout. */
  lemma {:induction false} GoodRun(states: seq<Sys>, steps: seq<Step>, i: nat)
    requires Trace(states, steps) && i <= |steps| && NoOverlap(states, steps, i)
    ensures forall j: nat | j <= i :: Good(states[j].kids)
  {
    if i == 0 {
      InitInv();
    } else {
      GoodRun(states, steps, i - 1);
      TraceInv(states, steps, i - 1);
      assert StepAt(states, steps, i - 1) && !Overlap(states, steps, i - 1);
      if steps[i - 1].AppStore? {
        StaleIff(states, steps, i - 1, steps[i - 1].a);
      }
      StepGood(states[i - 1], steps[i - 1]);
    }
  }

  /**
   * Without an overlap so far, every process that is not just being appended is
   * on the list of exactly one process, which is alive; no record is freed
   * twice, and no list leads to a freed one.
   */
  lemma OneParent(states: seq<Sys>, steps: seq<Step>, i: nat)
    requires Trace(states, steps) && i <= |steps| && NoOverlap(states, steps, i)
    ensures AllListed(states[i]) && NoDup(states[i].freed)
    ensures forall q, d | q in states[i].procs && d in states[i].freed :: d !in states[i].procs && !Holds(states[i], q, d)
  {
    var s := states[i];
    TraceInv(states, steps, i);
    GoodRun(states, steps, i);
    forall c | c in s.procs && c != INIT && !InHand(s.kids, c) ensures Listed(s, c) {
      GoodIsListed(s, c);
    }
    forall q, d | q in s.procs && d in s.freed ensures d !in s.procs && !Holds(s, q, d) {
      assert d in s.procs ==> ProcOk(s, d);
      GoodHolds(s, q, d);
      assert ChildOk(s, q, d);
    }
  }

  lemma {:induction false} FirstOverlap(states: seq<Sys>, steps: seq<Step>, n: nat) returns (k: nat)
    requires |states| == |steps| + 1 && n <= |steps| && !NoOverlap(states, steps, n)
    ensures k < n && Overlap(states, steps, k) && NoOverlap(states, steps, k)
  {
    if NoOverlap(states, steps, n - 1) {
      k := n - 1;
    } else {
      k := FirstOverlap(states, steps, n - 1);
    }
  }

  /** The first overlap takes the process that followed the stale tail off every list. */
  lemma OverlapLoses(states: seq<Sys>, steps: seq<Step>, k: nat) returns (c: nat)
    requires Trace(states, steps) && k < |steps| && Overlap(states, steps, k) && NoOverlap(states, steps, k)
    ensures c in states[k + 1].procs && c in states[k + 1].kids.ring.list && Orphaned(states[k + 1].kids.ring.next, c)
    ensures c != INIT && !InHand(states[k + 1].kids, c) && !Listed(states[k + 1], c)
  {
    var a := steps[k].a;
    TraceInv(states, steps, k);
    TraceInv(states, steps, k + 1);
    GoodRun(states, steps, k);
    assert StepAt(states, steps, k);
    StaleIff(states, steps, k, a);
    StaleStore(states[k].kids, a);
    c := Cut(states[k].kids, a);
    Unlisted(states[k + 1], c);
  }

  lemma Unlisted(s: Sys, c: nat)
    requires Inv(s) && c in s.kids.ring.list && Orphaned(s.kids.ring.next, c)
    ensures c in s.procs && c != INIT && !InHand(s.kids, c) && !Listed(s, c)
  {
    assert ChildOk(s, INIT, c);
    OrphanUnseen(s.kids.ring.next, c);
    forall a | a in s.kids.apps && s.kids.apps[a].node == c ensures Writing(s.kids, a) {
      assert AppOk(s.kids, a);
    }
  }

  /** Over a run every process is always on one list if and only if no two appends to init's list overlap. */
  lemma AllListedIff(states: seq<Sys>, steps: seq<Step>)
    requires Trace(states, steps)
    ensures (forall i: nat | i <= |steps| :: AllListed(states[i])) <==> NoOverlap(states, steps, |steps|)
  {
    if NoOverlap(states, steps, |steps|) {
      forall i: nat | i <= |steps| ensures AllListed(states[i]) {
        OneParent(states, steps, i);
      }
    } else {
      var k := FirstOverlap(states, steps, |steps|);
      var c := OverlapLoses(states, steps, k);
      assert !AllListed(states[k + 1]);
    }
  }

  // --- What becomes of a lost process ---

  /** c was put on init's list, no pointer leads to it, and init does not wait for it. */
  ghost predicate Gone(s: Sys, c: nat)
  {
    && c in s.procs && c in s.kids.ring.list && Orphaned(s.kids.ring.next, c)
    && INIT in s.pc && s.pc[INIT] != Waiting(c)
  }

  lemma AppGone(s: Sys, step: Step, c: nat)
    requires Inv(s) && Enabled(s, step) && Gone(s, c)
    requires step.AppLoad? || step.AppStore? || step.AppPrev? || step.AppNext? || step.AppTail?
    ensures Gone(Apply(s, step), c)
  {
    assert AppOk(s.kids, step.a);
  }

  lemma DropGone(s: Sys, p: nat, d: nat, c: nat)
    requires Inv(s) && Droppable(s, p, d) && Gone(s, c) && d != c
    ensures Gone(DropChild(s, p, d), c)
  {
    if p == INIT {
      WithoutList(s.kids.ring.list, d);
      OrphanTake(s.kids, d, c);
    }
  }

  lemma StepGone(s: Sys, step: Step, c: nat)
    requires Inv(s) && Enabled(s, step) && Gone(s, c)
    ensures Gone(Apply(s, step), c)
  {
    assert ChildOk(s, INIT, c) && PcOk(s, INIT);
    if step.AppLoad? || step.AppStore? || step.AppPrev? || step.AppNext? || step.AppTail? {
      AppGone(s, step, c);
    } else if step.WaitStart? {
      OrphanUnseen(s.kids.ring.next, c);
    } else if step.WaitDone? {
      WaitDrops(s, step.p);
      assert PcOk(s, step.p) && ChildOk(s, step.p, s.pc[step.p].child);
      DropGone(SetPc(s, step.p, Idle), step.p, s.pc[step.p].child, c);
    } else if step.HandTake? {
      FirstChild(s, step.p);
      HandKeeps(s, step.p);
    } else {
      NewNumber(s);
    }
  }

  /** A process that has got lost in this way is on no list ever after, and its record is never freed. */
  lemma {:induction false} LostForever(states: seq<Sys>, steps: seq<Step>, i: nat, k: nat, c: nat)
    requires Trace(states, steps) && i <= k <= |steps| && Gone(states[i], c)
    ensures Gone(states[k], c) && !Listed(states[k], c) && c !in states[k].freed
  {
    TraceInv(states, steps, k);
    if k > i {
      LostForever(states, steps, i, k - 1, c);
      TraceInv(states, steps, k - 1);
      assert StepAt(states, steps, k - 1);
      StepGone(states[k - 1], steps[k - 1], c);
    }
    Unlisted(states[k], c);
    assert ProcOk(states[k], c);
  }

  /** Init is in a fork and cannot finish it without the lock. */
  ghost predicate Busy(s: Sys)
  {
    INIT in s.pc && (s.pc[INIT].Forking? || s.pc[INIT].Linked?)
  }

  lemma BusyStays(s: Sys, step: Step)
    requires Inv(s) && Enabled(s, step) && Busy(s) && s.locker.Some?
    ensures Busy(Apply(s, step))
  {
    assert PcOk(s, INIT);
  }

  lemma {:induction false} BusyRun(states: seq<Sys>, steps: seq<Step>, a: nat, m: nat, k: nat)
    requires Trace(states, steps) && m <= k <= |steps| && a != INIT && LoadedFrom(states, a, m, k) && Busy(states[m])
    ensures Busy(states[k])
  {
    if m < k {
      BusyRun(states, steps, a, m, k - 1);
      TraceInv(states, steps, k - 1);
      assert StepAt(states, steps, k - 1) && HasLoaded(states[k - 1].kids, a);
      AppOwner(states[k - 1], a);
      BusyStays(states[k - 1], steps[k - 1]);
    }
  }

  /** At an overlap init is one of the two. */
  lemma OverlapBusy(states: seq<Sys>, steps: seq<Step>, k: nat)
    requires Trace(states, steps) && k < |steps| && Overlap(states, steps, k)
    ensures Busy(states[k])
  {
    var a := steps[k].a;
    var m: nat :| m <= k && LoadedFrom(states, a, m, k) && WriterAt(states, a, m);
    var b :| b != a && Writing(states[m].kids, b);
    TraceInv(states, steps, m);
    assert HasLoaded(states[m].kids, a) && HasLoaded(states[k].kids, a);
    AppOwner(states[m], a);
    AppOwner(states[m], b);
    if a == INIT {
      TraceInv(states, steps, k);
      AppOwner(states[k], a);
    } else {
      BusyRun(states, steps, a, m, k);
    }
  }

  /** So from the first overlap on some process is lost for good. */
  lemma LostFromOverlap(states: seq<Sys>, steps: seq<Step>, k: nat) returns (c: nat)
    requires Trace(states, steps) && k < |steps| && Overlap(states, steps, k) && NoOverlap(states, steps, k)
    ensures forall i: nat | k < i <= |steps| :: Gone(states[i], c) && !Listed(states[i], c) && c !in states[i].freed
  {
    c := OverlapLoses(states, steps, k);
    OverlapBusy(states, steps, k);
    assert StepAt(states, steps, k);
    forall i: nat | k < i <= |steps| ensures Gone(states[i], c) && !Listed(states[i], c) && c !in states[i].freed {
      LostForever(states, steps, k + 1, i, c);
    }
  }

  // --- Wait and exit ---

  /** A sleeping waiter's child is still its own, so it wakes up to a record that is there. */
  lemma WaiterSafe(states: seq<Sys>, steps: seq<Step>, i: nat, p: nat)
    requires Trace(states, steps) && i < |states| && p in states[i].pc && states[i].pc[p].Waiting?
    ensures var s := states[i]; p in s.procs && s.pc[p].child in Children(s, p) && s.pc[p].child in s.procs
  {
    TraceInv(states, steps, i);
    assert PcOk(states[i], p) && ChildOk(states[i], p, states[i].pc[p].child);
  }

  /** A wait returns what the child passed to exit, and the child is nobody's any more. */
  lemma WaitReturns(states: seq<Sys>, steps: seq<Step>, i: nat)
    requires Trace(states, steps) && i < |steps| && steps[i].WaitDone? && StepAt(states, steps, i)
    ensures var (s, r, c) := (states[i], states[i + 1], states[i].pc[steps[i].p].child);
            && c in s.exits && s.procs[c].status == s.exits[c] && s.exits[c] != STATUS_ALIVE
            && c !in r.procs && c in r.freed && forall q | q in r.procs :: c !in Children(r, q)
  {
    TraceInv(states, steps, i);
    TraceInv(states, steps, i + 1);
    var s, r, p := states[i], states[i + 1], steps[i].p;
    var c := s.pc[p].child;
    Ended(s, c);
    forall q | q in r.procs ensures c !in Children(r, q) {
      assert ChildOk(r, q, c);
    }
  }

  /** A child can be reaped, once the lock is free, iff it has passed exit a status other than the one that means alive. */
  lemma Reapable(states: seq<Sys>, steps: seq<Step>, i: nat, p: nat)
    requires Trace(states, steps) && i < |states| && p in states[i].pc && states[i].pc[p].Waiting?
    ensures var (s, c) := (states[i], states[i].pc[p].child);
            Enabled(s, WaitDone(p)) <==> s.locker == None && c in s.exits && s.exits[c] != 0xbeefeeb
  {
    WaiterSafe(states, steps, i, p);
    TraceInv(states, steps, i);
    var s, c := states[i], states[i].pc[p].child;
    assert ProcOk(s, c) && ChildOk(s, p, c) && PcOk(s, p);
    if p == INIT && s.locker == None {
      NoApps(s);
      AllPlaced(s.kids, c);
    }
  }

  /** The first child of an exiting process is taken for init if it is alive, and freed if it has ended. */
  lemma Orphan(states: seq<Sys>, steps: seq<Step>, i: nat)
    requires Trace(states, steps) && i < |steps| && steps[i].HandTake? && StepAt(states, steps, i)
    ensures var (s, r, p) := (states[i], states[i + 1], steps[i].p);
            var c := s.procs[p].children[0];
            && p in r.procs && r.procs[p].children == s.procs[p].children[1..]
            && if s.procs[c].status == STATUS_ALIVE then c in r.procs && c in r.parent && r.parent[c] == INIT && Joining(r, p, c)
               else c !in r.procs && c in r.freed && c in s.exits
  {
    TraceInv(states, steps, i);
    var s, p := states[i], steps[i].p;
    var c := s.procs[p].children[0];
    FirstChild(s, p);
    HandKeeps(s, p);
    if s.procs[c].status != STATUS_ALIVE {
      Ended(s, c);
    }
  }

  /** c is being put on init's list by the exit of p, or is on it. */
  ghost predicate Joining(s: Sys, p: nat, c: nat)
  {
    (p in s.kids.apps && s.kids.apps[p].node == c) || c in s.kids.ring.list
  }

  /** In an exit, until it is done, only its own steps touch the list of the exiting process. */
  lemma ExitList(s: Sys, step: Step, p: nat)
    requires Inv(s) && Enabled(s, step) && p in s.pc && s.pc[p].Exiting? && step != ExitDone(p)
    ensures var r := Apply(s, step);
            && p in r.pc && r.pc[p] == s.pc[p] && p in r.procs
            && r.procs[p].children == if step == HandTake(p) then s.procs[p].children[1..] else s.procs[p].children
  {
    assert PcOk(s, p) && ProcOk(s, p);
    NewNumber(s);
    match step
    case ForkOwn(q) => assert PcOk(s, q);
    case ForkInit => assert PcOk(s, INIT);
    case HandTake(q) => assert PcOk(s, q); HandKeeps(s, q);
    case _ =>
  }

  /** And what it hands over does get on init's list. */
  lemma ExitJoins(s: Sys, step: Step, p: nat, c: nat)
    requires Inv(s) && Enabled(s, step) && p in s.pc && s.pc[p].Exiting? && step != ExitDone(p) && Joining(s, p, c)
    ensures Joining(Apply(s, step), p, c)
  {
    assert PcOk(s, p);
    match step
    case ForkInit => assert PcOk(s, INIT);
    case HandTake(q) => assert PcOk(s, q);
    case AppTail(a) => assert AppOk(s.kids, a);
    case _ =>
  }

  lemma {:induction false} JoinsRun(states: seq<Sys>, steps: seq<Step>, i: nat, k: nat, p: nat, c: nat)
    requires Trace(states, steps) && i <= k <= |steps| && p in states[i].pc && states[i].pc[p].Exiting? && Joining(states[i], p, c)
    requires forall m: nat | i <= m < k :: steps[m] != ExitDone(p)
    ensures p in states[k].pc && states[k].pc[p].Exiting? && Joining(states[k], p, c)
  {
    if i < k {
      JoinsRun(states, steps, i, k - 1, p, c);
      TraceInv(states, steps, k - 1);
      assert StepAt(states, steps, k - 1);
      ExitList(states[k - 1], steps[k - 1], p);
      ExitJoins(states[k - 1], steps[k - 1], p, c);
    }
  }

  /** By the end of an exit every child was taken at a step of that exit, and is init's if it was alive. */
  lemma {:induction false} Orphans(states: seq<Sys>, steps: seq<Step>, i: nat, k: nat, p: nat, c: nat) returns (j: nat)
    requires Trace(states, steps) && i <= k < |steps| && steps[k] == ExitDone(p) && (forall m: nat | i <= m < k :: steps[m] != ExitDone(p))
    requires p in states[i].pc && states[i].pc[p].Exiting? && p in states[i].procs && c in states[i].procs[p].children
    ensures i <= j < k && steps[j] == HandTake(p) && p in states[j].procs && c in states[j].procs
    ensures states[j].procs[p].children != [] && states[j].procs[p].children[0] == c
    ensures states[j].procs[c].status == STATUS_ALIVE ==> c in states[k].kids.ring.list
    decreases k - i
  {
    assert StepAt(states, steps, i);
    TraceInv(states, steps, i);
    if steps[i] == HandTake(p) && states[i].procs[p].children[0] == c {
      j := i;
      Orphan(states, steps, i);
      if states[j].procs[c].status == STATUS_ALIVE {
        ExitList(states[i], steps[i], p);
        JoinsRun(states, steps, i + 1, k, p, c);
        assert StepAt(states, steps, k);
      }
    } else {
      var l := states[i].procs[p].children;
      assert l == [l[0]] + l[1..];
      ExitList(states[i], steps[i], p);
      j := Orphans(states, steps, i + 1, k, p, c);
    }
  }

  lemma {:induction false} ExitKept(states: seq<Sys>, steps: seq<Step>, i: nat, k: nat, p: nat)
    requires Trace(states, steps) && i <= k <= |steps| && p in states[i].pc && states[i].pc[p].Exiting?
    requires forall m: nat | i <= m < k :: steps[m] != ExitDone(p)
    ensures p in states[k].pc && states[k].pc[p] == states[i].pc[p]
  {
    if i < k {
      ExitKept(states, steps, i, k - 1, p);
      TraceInv(states, steps, k - 1);
      assert StepAt(states, steps, k - 1);
      ExitList(states[k - 1], steps[k - 1], p);
    }
  }

  /** What a process passes to exit is its status from the end of the exit on, and it runs no more. */
  lemma ExitPasses(states: seq<Sys>, steps: seq<Step>, i: nat, k: nat, p: nat, status: int)
    requires Trace(states, steps) && i < k < |steps| && steps[i] == ExitStart(p, status) && steps[k] == ExitDone(p)
    requires forall m: nat | i < m < k :: steps[m] != ExitDone(p)
    ensures var r := states[k + 1];
            p in r.procs && r.procs[p] == Proc([], status) && p in r.exits && r.exits[p] == status && p !in r.running && r.locker == None
    ensures p in states[i].table && forall m: nat | i < m <= k :: p !in states[m].table && states[m].locker == Some(p)
  {
    assert StepAt(states, steps, i) && StepAt(states, steps, k);
    TraceInv(states, steps, i);
    assert TableOk(states[i], p);
    ExitKept(states, steps, i + 1, k, p);
    forall m: nat | i < m <= k ensures p !in states[m].table && states[m].locker == Some(p) {
      ExitKept(states, steps, i + 1, m, p);
      TraceInv(states, steps, m);
      assert TableOk(states[m], p) && PcOk(states[m], p);
    }
  }

  // --- The status that means alive ---

  lemma StepAlive(s: Sys, step: Step, c: nat)
    requires Inv(s) && Enabled(s, step) && c in s.procs && c in s.exits && s.exits[c] == STATUS_ALIVE
    ensures var r := Apply(s, step); c in r.procs && c in r.exits && r.exits[c] == STATUS_ALIVE
  {
    assert ProcOk(s, c);
    assert step.ExitDone? ==> PcOk(s, step.p) && ProcOk(s, step.p);
  }

  /** A process that exits with the status that means alive is never reaped, and its record is never freed. */
  lemma {:induction false} NeverReaped(states: seq<Sys>, steps: seq<Step>, i: nat, k: nat, c: nat)
    requires Trace(states, steps) && i <= k <= |steps| && c in states[i].exits && states[i].exits[c] == 0xbeefeeb && c in states[i].procs
    ensures c in states[k].procs && c !in states[k].freed && c in states[k].exits && states[k].exits[c] == 0xbeefeeb
    ensures forall p | p in states[k].pc && states[k].pc[p] == Waiting(c) :: !Enabled(states[k], WaitDone(p))
  {
    TraceInv(states, steps, k);
    if k > i {
      NeverReaped(states, steps, i, k - 1, c);
      TraceInv(states, steps, k - 1);
      assert StepAt(states, steps, k - 1);
      StepAlive(states[k - 1], steps[k - 1], c);
    }
    assert ProcOk(states[k], c);
  }
}
