/** Runs of the process machine that show what an overlap of two appends to init's list leads to. */
module ProcRaces {
  import opened Basics
  import opened NatLists
  import LinkedRing
  import opened ListRace
  import opened ProcState
  import opened ProcRuns

  lemma TraceGrows(states: seq<Sys>, steps: seq<Step>, step: Step)
    requires Trace(states, steps) && Enabled(states[|steps|], step)
    ensures Trace(states + [Apply(states[|steps|], step)], steps + [step])
  {
    var all, path := states + [Apply(states[|steps|], step)], steps + [step];
    forall i: nat | i < |path| ensures StepAt(all, path, i) {
      assert i < |steps| ==> StepAt(states, steps, i);
    }
  }

  /** The run is extended by one step. */
  lemma Go(states: seq<Sys>, steps: seq<Step>, step: Step) returns (states': seq<Sys>, steps': seq<Step>, s: Sys)
    requires Trace(states, steps) && Enabled(states[|steps|], step)
    ensures Trace(states', steps') && |steps'| == |steps| + 1 && steps' == steps + [step] && states' == states + [s]
    ensures s == Apply(states[|steps|], step)
  {
    TraceGrows(states, steps, step);
    s := Apply(states[|steps|], step);
    states', steps' := states + [s], steps + [step];
  }

  /** The run goes on until init's list has got the node of a. */
  lemma GoStore(states: seq<Sys>, steps: seq<Step>, a: nat) returns (states': seq<Sys>, steps': seq<Step>, s: Sys)
    requires Trace(states, steps) && Enabled(states[|steps|], AppLoad(a))
    ensures Trace(states', steps') && |steps'| == |steps| + 2 && states'[|steps'|] == s
    ensures s == states[|steps|].(kids := Store(Load(states[|steps|].kids, a), a))
  {
    states', steps', s := Go(states, steps, AppLoad(a));
    states', steps', s := Go(states', steps', AppStore(a));
  }

  /** The race when the append of a has made its remaining writes with nothing in between. */
  ghost function Rest(r: Race, a: nat): Race
    requires a in r.apps && 0 in r.ring.prev
  {
    var (g, n) := (r.ring, r.apps[a].node);
    Race(LinkedRing.Ring(g.prev[n := g.prev[0]][0 := n], g.next[n := 0], g.list), r.apps - {a})
  }

  lemma GoRest(states: seq<Sys>, steps: seq<Step>, a: nat) returns (states': seq<Sys>, steps': seq<Step>, s: Sys)
    requires Trace(states, steps) && Enabled(states[|steps|], AppPrev(a)) && states[|steps|].kids.apps[a].node != 0
    ensures Trace(states', steps') && |steps'| == |steps| + 3 && states'[|steps'|] == s
    ensures var b := states[|steps|];
            s == b.(kids := Rest(b.kids, a), pc := if a == INIT then b.pc[a := Linked(b.kids.apps[a].node)] else b.pc)
  {
    var b := states[|steps|];
    states', steps', s := Go(states, steps, AppPrev(a));
    states', steps', s := Go(states', steps', AppNext(a));
    states', steps', s := Go(states', steps', AppTail(a));
    assert s.kids.apps == b.kids.apps - {a};
  }

  lemma SameSys(a: Sys, b: Sys)
    requires a.procs == b.procs && a.running == b.running && a.pc == b.pc && a.table == b.table && a.parent == b.parent
    requires a.next == b.next && a.locker == b.locker && a.exits == b.exits && a.freed == b.freed
    requires a.kids.apps == b.kids.apps && a.kids.ring.list == b.kids.ring.list
    requires a.kids.ring.prev == b.kids.ring.prev && a.kids.ring.next == b.kids.ring.next
    ensures a == b
  {
  }

  ghost function Kids(prev: map<nat, nat>, next: map<nat, nat>, list: seq<nat>, apps: map<nat, App>): Race
  {
    Race(LinkedRing.Ring(prev, next, list), apps)
  }

  // --- Init has child 1, which has child 2 ---

  ghost function Forking1(): Sys
  {
    Sys(map[0 := Proc([], STATUS_ALIVE), 1 := Proc([], STATUS_ALIVE)], {0}, map[0 := Forking(1)], [0], 2, None,
        Kids(map[0 := 0], map[0 := 1], [1], map[0 := App(1, Stored)]), map[1 := 0], map[], [])
  }

  ghost function Linked1(): Sys
  {
    Forking1().(pc := map[0 := Linked(1)], kids := Kids(map[0 := 1, 1 := 0], map[0 := 1, 1 := 0], [1], map[]))
  }

  ghost function OneForked(): Sys
  {
    Linked1().(running := {0, 1}, pc := map[0 := Idle, 1 := Idle], table := [0, 1])
  }

  ghost function TwoForked(): Sys
  {
    OneForked().(procs := map[0 := Proc([], STATUS_ALIVE), 1 := Proc([2], STATUS_ALIVE), 2 := Proc([], STATUS_ALIVE)],
                 running := {0, 1, 2}, pc := map[0 := Idle, 1 := Idle, 2 := Idle], table := [0, 1, 2], next := 3,
                 parent := map[1 := 0, 2 := 1])
  }

  lemma Store1() returns (states: seq<Sys>, steps: seq<Step>)
    ensures Trace(states, steps) && |steps| == 3 && states[3] == Forking1()
  {
    var s := InitSys();
    states, steps := [s], [];
    states, steps, s := Go(states, steps, ForkInit);
    states, steps, s := GoStore(states, steps, 0);
    SameSys(s, Forking1());
  }

  lemma Link1() returns (states: seq<Sys>, steps: seq<Step>)
    ensures Trace(states, steps) && |steps| == 6 && states[6] == Linked1()
  {
    var s;
    states, steps := Store1();
    states, steps, s := GoRest(states, steps, 0);
    SameSys(s, Linked1());
  }

  lemma OneFork() returns (states: seq<Sys>, steps: seq<Step>)
    ensures Trace(states, steps) && |steps| == 7 && states[7] == OneForked()
  {
    var s;
    states, steps := Link1();
    states, steps, s := Go(states, steps, ForkDone(0));
    SameSys(s, OneForked());
  }

  lemma TwoForks() returns (states: seq<Sys>, steps: seq<Step>)
    ensures Trace(states, steps) && |steps| == 9 && states[9] == TwoForked()
  {
    var s;
    states, steps := OneFork();
    states, steps, s := Go(states, steps, ForkOwn(1));
    states, steps, s := Go(states, steps, ForkDone(1));
    assert OneForked().procs[1].children + [2] == [2];
    SameSys(s, TwoForked());
  }

  /** A child exits with the status that means alive, and init waits for it for ever. */
  lemma ExitAliveExample() returns (states: seq<Sys>, steps: seq<Step>)
    ensures Trace(states, steps) && |steps| == 10
    ensures states[10].pc == map[0 := Waiting(1)] && states[10].exits == map[1 := STATUS_ALIVE] && 1 in states[10].procs
  {
    var s;
    states, steps := OneFork();
    assert Nth(OneForked().kids.ring.next, 1) == 1;
    states, steps, s := Go(states, steps, WaitStart(0, 1));
    states, steps, s := Go(states, steps, ExitStart(1, STATUS_ALIVE));
    states, steps, s := Go(states, steps, ExitDone(1));
  }

  // --- The hand-over falls after the first write of init's append ---

  /** Init's append of 3 has made its first write. */
  ghost function Forking3(): Sys
  {
    NewProc(TwoForked(), 0, Forking(3)).(kids := Kids(map[0 := 1, 1 := 0], map[0 := 1, 1 := 3], [1, 3], map[0 := App(3, Stored)]))
  }

  /** 1 has begun to exit when init has read the tail for 3. */
  ghost function Leaving1(): Sys
  {
    Sys(map[0 := Proc([], STATUS_ALIVE), 1 := Proc([2], STATUS_ALIVE), 2 := Proc([], STATUS_ALIVE), 3 := Proc([], STATUS_ALIVE)],
        {0, 1, 2}, map[0 := Forking(3), 1 := Exiting(0), 2 := Idle], [0, 2], 4, Some(1),
        Kids(map[0 := 1, 1 := 0], map[0 := 1, 1 := 0], [1], map[0 := App(3, Loaded(1))]),
        map[1 := 0, 2 := 1, 3 := 0], map[], [])
  }

  /** 1 exits and takes its child 2 for init. */
  ghost function Taking2(): Sys
  {
    Sys(map[0 := Proc([], STATUS_ALIVE), 1 := Proc([], STATUS_ALIVE), 2 := Proc([], STATUS_ALIVE), 3 := Proc([], STATUS_ALIVE)],
        {0, 1, 2}, map[0 := Forking(3), 1 := Exiting(0), 2 := Idle], [0, 2], 4, Some(1),
        Kids(map[0 := 1, 1 := 0], map[0 := 1, 1 := 3], [1, 3], map[0 := App(3, Stored), 1 := App(2, Start)]),
        map[1 := 0, 2 := 0, 3 := 0], map[], [])
  }

  /** Its first write goes over that of 3. */
  ghost function Over3(): Sys
  {
    Taking2().(kids := Kids(map[0 := 1, 1 := 0], map[0 := 1, 1 := 2], [1, 3, 2], map[0 := App(3, Stored), 1 := App(2, Stored)]))
  }

  /** That append and the exit are over. */
  ghost function Over3Done(): Sys
  {
    Sys(map[0 := Proc([], STATUS_ALIVE), 1 := Proc([], 0), 2 := Proc([], STATUS_ALIVE), 3 := Proc([], STATUS_ALIVE)],
        {0, 2}, map[0 := Forking(3), 2 := Idle], [0, 2], 4, None,
        Kids(map[0 := 2, 1 := 0, 2 := 1], map[0 := 1, 1 := 2, 2 := 0], [1, 3, 2], map[0 := App(3, Stored)]),
        map[1 := 0, 2 := 0, 3 := 0], map[1 := 0], [])
  }

  /** And so is init's: its last write makes 3 the tail. */
  ghost function Lost3(): Sys
  {
    Sys(map[0 := Proc([], STATUS_ALIVE), 1 := Proc([], 0), 2 := Proc([], STATUS_ALIVE), 3 := Proc([], STATUS_ALIVE)],
        {0, 2}, map[0 := Linked(3), 2 := Idle], [0, 2], 4, None,
        Kids(map[0 := 3, 1 := 0, 2 := 1, 3 := 2], map[0 := 1, 1 := 2, 2 := 0, 3 := 0], [1, 3, 2], map[]),
        map[1 := 0, 2 := 0, 3 := 0], map[1 := 0], [])
  }

  ghost function Started3(): Sys
  {
    Lost3().(running := {0, 2, 3}, pc := map[0 := Idle, 2 := Idle, 3 := Idle], table := [0, 2, 3])
  }

  /** Init forks again. */
  ghost function Forking4(): Sys
  {
    Sys(map[0 := Proc([], STATUS_ALIVE), 1 := Proc([], 0), 2 := Proc([], STATUS_ALIVE), 3 := Proc([], STATUS_ALIVE), 4 := Proc([], STATUS_ALIVE)],
        {0, 2, 3}, map[0 := Forking(4), 2 := Idle, 3 := Idle], [0, 2, 3], 5, None,
        Kids(map[0 := 3, 1 := 0, 2 := 1, 3 := 2], map[0 := 1, 1 := 2, 2 := 0, 3 := 0], [1, 3, 2], map[0 := App(4, Start)]),
        map[1 := 0, 2 := 0, 3 := 0, 4 := 0], map[1 := 0], [])
  }

  lemma Store3() returns (states: seq<Sys>, steps: seq<Step>)
    ensures Trace(states, steps) && |steps| == 12 && states[12] == Forking3()
  {
    var s;
    states, steps := TwoForks();
    states, steps, s := Go(states, steps, ForkInit);
    states, steps, s := GoStore(states, steps, 0);
    SameSys(s, Forking3());
  }

  lemma ExitOver() returns (states: seq<Sys>, steps: seq<Step>)
    ensures Trace(states, steps) && |steps| == 13 && states[13] == Leaving1().(kids := Forking3().kids)
  {
    var s;
    states, steps := Store3();
    states, steps, s := Go(states, steps, ExitStart(1, 0));
    assert Without([0, 1, 2], 1) == [0, 2];
    SameSys(s, Leaving1().(kids := Forking3().kids));
  }

  lemma Take2() returns (states: seq<Sys>, steps: seq<Step>)
    ensures Trace(states, steps) && |steps| == 14 && states[14] == Taking2()
  {
    var s;
    states, steps := ExitOver();
    states, steps, s := Go(states, steps, HandTake(1));
    assert Leaving1().procs[1].children[1..] == [];
    SameSys(s, Taking2());
  }

  lemma StoreOver3() returns (states: seq<Sys>, steps: seq<Step>)
    ensures Trace(states, steps) && |steps| == 16 && states[16] == Over3()
  {
    var s;
    states, steps := Take2();
    states, steps, s := GoStore(states, steps, 1);
    SameSys(s, Over3());
  }

  lemma FinishOver3() returns (states: seq<Sys>, steps: seq<Step>)
    ensures Trace(states, steps) && |steps| == 20 && states[20] == Over3Done()
  {
    var s;
    states, steps := StoreOver3();
    states, steps, s := GoRest(states, steps, 1);
    states, steps, s := Go(states, steps, ExitDone(1));
    SameSys(s, Over3Done());
  }

  /** A walk stays within a set that the pointers do not leave. */
  lemma {:induction false} Within(next: map<nat, nat>, nodes: set<nat>, k: nat)
    requires 0 in nodes && forall x | x in nodes && x in next :: next[x] in nodes
    ensures Nth(next, k) in nodes
  {
    if k > 0 {
      Within(next, nodes, k - 1);
    }
  }

  lemma TwoSteps(next: map<nat, nat>, x: nat, y: nat)
    requires 0 in next && next[0] == x && x in next && next[x] == y
    ensures Nth(next, 1) == x && Nth(next, 2) == y
  {
    assert Nth(next, 0) == 0;
    assert Nth(next, 1) == x;
  }

  lemma Walk3(next: map<nat, nat>)
    requires next == map[0 := 1, 1 := 2, 2 := 0, 3 := 0] || next == map[0 := 1, 1 := 2, 2 := 0, 3 := 4]
    ensures OnList(next, 2) && !OnList(next, 3) && !OnList(next, 4)
  {
    TwoSteps(next, 1, 2);
    forall k: nat ensures Nth(next, k) != 3 && Nth(next, k) != 4 {
      Within(next, {0, 1, 2}, k);
    }
  }

  /** Init's forked child 3 is on no list, though init's append came first; the child handed over is. */
  lemma ForkedLost() returns (states: seq<Sys>, steps: seq<Step>)
    ensures Trace(states, steps) && |steps| == 23 && states[23] == Lost3()
    ensures var next := states[23].kids.ring.next; OnList(next, 2) && !OnList(next, 3)
  {
    var s;
    states, steps := FinishOver3();
    states, steps, s := GoRest(states, steps, 0);
    SameSys(s, Lost3());
    Walk3(s.kids.ring.next);
  }

  lemma Start3() returns (states: seq<Sys>, steps: seq<Step>)
    ensures Trace(states, steps) && |steps| == 24 && states[24] == Started3()
  {
    var s;
    states, steps := ForkedLost();
    states, steps, s := Go(states, steps, ForkDone(0));
    SameSys(s, Started3());
  }

  lemma Fork4() returns (states: seq<Sys>, steps: seq<Step>)
    ensures Trace(states, steps) && |steps| == 25 && states[25] == Forking4()
  {
    var s;
    states, steps := Start3();
    states, steps, s := Go(states, steps, ForkInit);
    SameSys(s, Forking4());
  }

  /** The next child, 4, is forked with nothing in between, and is lost behind 3. */
  lemma LaterLost() returns (states: seq<Sys>, steps: seq<Step>)
    ensures Trace(states, steps) && |steps| == 27 && 4 in states[27].kids.ring.list
    ensures var next := states[27].kids.ring.next; OnList(next, 2) && !OnList(next, 3) && !OnList(next, 4)
  {
    var s;
    states, steps := Fork4();
    states, steps, s := GoStore(states, steps, 0);
    Walk3(s.kids.ring.next);
  }

  // --- The hand-over falls between init's read of the tail and its first write ---

  /** Init has read the tail for 3, and 1 has begun to hand 2 over. */
  ghost function Reading3(): Sys
  {
    Sys(map[0 := Proc([], STATUS_ALIVE), 1 := Proc([], STATUS_ALIVE), 2 := Proc([], STATUS_ALIVE), 3 := Proc([], STATUS_ALIVE)],
        {0, 1, 2}, map[0 := Forking(3), 1 := Exiting(0), 2 := Idle], [0, 2], 4, Some(1),
        Kids(map[0 := 1, 1 := 0], map[0 := 1, 1 := 0], [1], map[0 := App(3, Loaded(1)), 1 := App(2, Start)]),
        map[1 := 0, 2 := 0, 3 := 0], map[], [])
  }

  /** Its append is done. */
  ghost function Handed2(): Sys
  {
    Reading3().(kids := Kids(map[0 := 2, 1 := 0, 2 := 1], map[0 := 1, 1 := 2, 2 := 0], [1, 2], map[0 := App(3, Loaded(1))]))
  }

  /** The exit is over, and init's first write cuts 2 off. */
  ghost function Cut2(): Sys
  {
    Sys(map[0 := Proc([], STATUS_ALIVE), 1 := Proc([], 0), 2 := Proc([], STATUS_ALIVE), 3 := Proc([], STATUS_ALIVE)],
        {0, 2}, map[0 := Forking(3), 2 := Idle], [0, 2], 4, None,
        Kids(map[0 := 2, 1 := 0, 2 := 1], map[0 := 1, 1 := 3, 2 := 0], [1, 2, 3], map[0 := App(3, Stored)]),
        map[1 := 0, 2 := 0, 3 := 0], map[1 := 0], [])
  }

  /** Init's append reads the tail again, so that 3 points back to 2. */
  ghost function Lost2(): Sys
  {
    Cut2().(running := {0, 2, 3}, pc := map[0 := Idle, 2 := Idle, 3 := Idle], table := [0, 2, 3],
            kids := Kids(map[0 := 3, 1 := 0, 2 := 1, 3 := 2], map[0 := 1, 1 := 3, 2 := 0, 3 := 0], [1, 2, 3], map[]))
  }

  /** 3 has ended. */
  ghost function Ended3(): Sys
  {
    Sys(map[0 := Proc([], STATUS_ALIVE), 1 := Proc([], 0), 2 := Proc([], STATUS_ALIVE), 3 := Proc([], 0)],
        {0, 2}, map[0 := Idle, 2 := Idle], [0, 2], 4, None,
        Kids(map[0 := 3, 1 := 0, 2 := 1, 3 := 2], map[0 := 1, 1 := 3, 2 := 0, 3 := 0], [1, 2, 3], map[]),
        map[1 := 0, 2 := 0, 3 := 0], map[1 := 0, 3 := 0], [])
  }

  lemma Read3() returns (states: seq<Sys>, steps: seq<Step>)
    ensures Trace(states, steps) && |steps| == 11
    ensures states[11] == NewProc(TwoForked(), 0, Forking(3)).(
      kids := Kids(map[0 := 1, 1 := 0], map[0 := 1, 1 := 0], [1], map[0 := App(3, Loaded(1))]))
  {
    var s;
    states, steps := TwoForks();
    states, steps, s := Go(states, steps, ForkInit);
    states, steps, s := Go(states, steps, AppLoad(0));
  }

  lemma ExitRead() returns (states: seq<Sys>, steps: seq<Step>)
    ensures Trace(states, steps) && |steps| == 12 && states[12] == Leaving1()
  {
    var s;
    states, steps := Read3();
    states, steps, s := Go(states, steps, ExitStart(1, 0));
    assert Without([0, 1, 2], 1) == [0, 2];
    SameSys(s, Leaving1());
  }

  lemma Exit1() returns (states: seq<Sys>, steps: seq<Step>)
    ensures Trace(states, steps) && |steps| == 13 && states[13] == Reading3()
  {
    var s;
    states, steps := ExitRead();
    states, steps, s := Go(states, steps, HandTake(1));
    assert Leaving1().procs[1].children[1..] == [];
    SameSys(s, Reading3());
  }

  lemma Hand2() returns (states: seq<Sys>, steps: seq<Step>)
    ensures Trace(states, steps) && |steps| == 18 && states[18] == Handed2()
  {
    var s;
    states, steps := Exit1();
    states, steps, s := GoStore(states, steps, 1);
    states, steps, s := GoRest(states, steps, 1);
    SameSys(s, Handed2());
  }

  lemma CutOff2() returns (states: seq<Sys>, steps: seq<Step>)
    ensures Trace(states, steps) && |steps| == 20 && states[20] == Cut2()
  {
    var s;
    states, steps := Hand2();
    states, steps, s := Go(states, steps, ExitDone(1));
    states, steps, s := Go(states, steps, AppStore(0));
    SameSys(s, Cut2());
  }

  lemma Walk2(next: map<nat, nat>)
    requires next == map[0 := 1, 1 := 3, 2 := 0, 3 := 0] || next == map[0 := 1, 1 := 3, 2 := 0]
    ensures !OnList(next, 2) && OnList(next, 3)
  {
    TwoSteps(next, 1, 3);
    assert Orphaned(next, 2);
    OrphanUnseen(next, 2);
  }

  /** The child handed over, 2, is on no list. */
  lemma HandedLost() returns (states: seq<Sys>, steps: seq<Step>)
    ensures Trace(states, steps) && |steps| == 24 && states[24] == Lost2()
    ensures var next := states[24].kids.ring.next; !OnList(next, 2) && OnList(next, 3)
  {
    var s;
    states, steps := CutOff2();
    states, steps, s := GoRest(states, steps, 0);
    states, steps, s := Go(states, steps, ForkDone(0));
    SameSys(s, Lost2());
    Walk2(s.kids.ring.next);
  }

  lemma End3() returns (states: seq<Sys>, steps: seq<Step>)
    ensures Trace(states, steps) && |steps| == 26 && states[26] == Ended3()
  {
    var s;
    states, steps := HandedLost();
    states, steps, s := Go(states, steps, ExitStart(3, 0));
    states, steps, s := Go(states, steps, ExitDone(3));
    assert Without([0, 2, 3], 3) == [0, 2];
    SameSys(s, Ended3());
  }

  /** When 3 ends and init reaps it, init's list still leads to its freed record. */
  lemma FreedLinked() returns (states: seq<Sys>, steps: seq<Step>)
    ensures Trace(states, steps) && |steps| == 28
    ensures 3 in states[28].freed && OnList(states[28].kids.ring.next, 3)
  {
    var s;
    states, steps := End3();
    Walk2(Ended3().kids.ring.next);
    states, steps, s := Go(states, steps, WaitStart(0, 3));
    states, steps, s := Go(states, steps, WaitDone(0));
    assert s.kids.ring.next == map[0 := 1, 1 := 3, 2 := 0];
    Walk2(s.kids.ring.next);
  }
}
