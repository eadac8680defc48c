/**
 * Scheduler and condition variables as steps of threads on any number of CPUs.
 * A step is what happens between two points where another CPU can interfere;
 * a spinlock that is taken makes other threads' steps wait for it.
 */
module Sched {
  import opened Basics
  import opened NatLists

  datatype ThreadState = RUNNING | READY | SLEEPING | ZOMBIE

  /** Where in the code a thread stands. */
  datatype Pc =
    | Normal
    // condvar_wait: on the waiter list, lock held
    | Queued(cv: nat)
    // sched_sched(SLEEPING): sched_lock taken, lock not released yet
    | Leaving(cv: nat)
    // sched_sched: about to pick and switch, sched_lock held
    | Picking
    // switched out; never run yet
    | Out
    | Fresh
    // switched in, sched_lock still held: after sched(), or in thread_start
    | Resumed(prev: nat)
    | Starting
    // about to clean up a thread that ended
    | Cleaning(dying: nat)
    // condvar_signal: a waiter is off the list and not ready yet
    | Signalling(cv: nat, waiter: nat)

  /** The one place a thread is in. A parked thread is an idle thread that is not running. */
  datatype Place =
    | Running
    | InReady
    | Waiting(cv: nat)
    | InHand(signaller: nat)
    | Dead(cleaner: Option<nat>)
    | Parked

  datatype Sys = Sys(
    cpus: map<nat, nat>, idle: map<nat, nat>, ready: seq<nat>, waiters: map<nat, seq<nat>>,
    locks: map<nat, nat>, sched: Option<nat>, state: map<nat, ThreadState>, pc: map<nat, Pc>,
    place: map<nat, Place>, ever: set<nat>, cleaned: seq<nat>)

  function Waiters(s: Sys, cv: nat): seq<nat>
  {
    if cv in s.waiters then s.waiters[cv] else []
  }

  predicate OffCpu(p: Pc)
  {
    p.Out? || p.Fresh?
  }

  predicate HoldsSched(p: Pc)
  {
    p.Leaving? || p.Picking? || p.Resumed? || p.Starting?
  }

  predicate Holds(s: Sys, t: nat, cv: nat)
  {
    cv in s.locks && s.locks[cv] == t
  }

  ghost predicate IsIdle(s: Sys, t: nat)
  {
    exists c :: c in s.idle && s.idle[c] == t
  }

  ghost predicate OnCpu(s: Sys, t: nat)
  {
    exists c :: c in s.cpus && s.cpus[c] == t
  }

  // --- Steps ---

  datatype Step =
    | Lock(t: nat, cv: nat)
    | Unlock(t: nat, cv: nat)
    | Enqueue(t: nat, cv: nat)
    | TakeSched(t: nat)
    | DropLock(t: nat)
    | Yield(t: nat)
    | Exit(t: nat)
    | Switch(c: nat)
    | ReleaseSched(t: nat)
    | CleanUp(t: nat)
    | SignalPop(t: nat, cv: nat)
    | SignalReady(t: nat)
    | Start(t: nat, u: nat)

  /** Thread t is on a CPU and stands here. */
  predicate AtPc(s: Sys, t: nat, p: Pc)
  {
    t in s.pc && s.pc[t] == p
  }

  /** The thread that CPU c picks: the head of the ready queue, or its idle thread. */
  function Chosen(s: Sys, c: nat): nat
    requires c in s.idle
  {
    if s.ready != [] then s.ready[0] else s.idle[c]
  }

  ghost predicate Enabled(s: Sys, step: Step)
  {
    match step
    case Lock(t, cv) => AtPc(s, t, Normal) && cv !in s.locks
    case Unlock(t, cv) => AtPc(s, t, Normal) && cv in s.locks && s.locks[cv] == t
    case Enqueue(t, cv) => AtPc(s, t, Normal) && cv in s.locks && s.locks[cv] == t && !IsIdle(s, t)
    case TakeSched(t) => t in s.pc && s.pc[t].Queued? && s.sched.None?
    case DropLock(t) => t in s.pc && s.pc[t].Leaving?
    case Yield(t) => AtPc(s, t, Normal) && s.sched.None?
    case Exit(t) => AtPc(s, t, Normal) && s.sched.None? && !IsIdle(s, t)
    case Switch(c) => c in s.cpus && c in s.idle && AtPc(s, s.cpus[c], Picking)
    case ReleaseSched(t) => t in s.pc && (s.pc[t].Resumed? || s.pc[t].Starting?)
    case CleanUp(t) => t in s.pc && s.pc[t].Cleaning?
    case SignalPop(t, cv) => AtPc(s, t, Normal) && cv in s.locks && s.locks[cv] == t && Waiters(s, cv) != []
    case SignalReady(t) => t in s.pc && s.pc[t].Signalling? && s.sched.None?
    case Start(t, u) => AtPc(s, t, Normal) && s.sched.None? && u !in s.ever
  }

  function SetPc(s: Sys, t: nat, p: Pc): Sys
  {
    s.(pc := s.pc[t := p])
  }

  ghost function Apply(s: Sys, step: Step): Sys
    requires Enabled(s, step)
  {
    match step
    case Lock(t, cv) => s.(locks := s.locks[cv := t])
    case Unlock(t, cv) => s.(locks := s.locks - {cv})
    case Enqueue(t, cv) =>
      SetPc(s, t, Queued(cv)).(waiters := s.waiters[cv := Waiters(s, cv) + [t]], place := s.place[t := Waiting(cv)])
    case TakeSched(t) => SetPc(s, t, Leaving(s.pc[t].cv)).(sched := Some(t))
    case DropLock(t) => SetPc(s, t, Picking).(locks := s.locks - {s.pc[t].cv}, state := s.state[t := SLEEPING])
    case Yield(t) => YieldStep(s, t)
    case Exit(t) => SetPc(s, t, Picking).(sched := Some(t), state := s.state[t := ZOMBIE], place := s.place[t := Dead(None)])
    case Switch(c) => if s.cpus[c] in s.place && Chosen(s, c) in s.pc then SwitchStep(s, c) else s
    case ReleaseSched(t) =>
      var dying := s.pc[t].Resumed? && s.pc[t].prev in s.state && s.state[s.pc[t].prev] == ZOMBIE;
      SetPc(s, t, if dying then Cleaning(s.pc[t].prev) else Normal).(sched := None)
    case CleanUp(t) => CleanStep(s, t)
    case SignalPop(t, cv) =>
      var w := Waiters(s, cv)[0];
      SetPc(s, t, Signalling(cv, w)).(waiters := s.waiters[cv := Waiters(s, cv)[1..]], place := s.place[w := InHand(t)])
    case SignalReady(t) =>
      var w := s.pc[t].waiter;
      SetPc(s, t, Normal).(ready := s.ready + [w], state := s.state[w := READY], place := s.place[w := InReady])
    case Start(t, u) =>
      s.(ready := s.ready + [u], state := s.state[u := READY], pc := s.pc[u := Fresh], place := s.place[u := InReady],
         ever := s.ever + {u})
  }

  /** With an empty ready queue a yield does nothing; an idle thread does not queue. */
  ghost function YieldStep(s: Sys, t: nat): Sys
  {
    if s.ready == [] then s
    else
      var r := SetPc(s, t, Picking).(sched := Some(t), state := s.state[t := READY]);
      if IsIdle(s, t) then r.(place := s.place[t := Parked]) else r.(ready := s.ready + [t], place := s.place[t := InReady])
  }

  /** `sched`: the CPU goes to the chosen thread, which now answers for sched_lock. */
  ghost function SwitchStep(s: Sys, c: nat): Sys
    requires c in s.cpus && c in s.idle && s.cpus[c] in s.place && Chosen(s, c) in s.pc
  {
    var (t, n) := (s.cpus[c], Chosen(s, c));
    var r := SetPc(SetPc(s, t, Out), n, if s.pc[n].Fresh? then Starting else Resumed(t));
    var dead := s.place[t].Dead? && !s.pc[n].Fresh?;
    r.(cpus := s.cpus[c := n], ready := if s.ready != [] then s.ready[1..] else [], sched := Some(n),
       state := s.state[n := RUNNING], place := s.place[n := Running][t := if dead then Dead(Some(n)) else s.place[t]])
  }

  /** `thread_cleanup`: the thread's memory is given back. */
  ghost function CleanStep(s: Sys, t: nat): Sys
    requires t in s.pc && s.pc[t].Cleaning?
  {
    var d := s.pc[t].dying;
    SetPc(s, t, Normal).(pc := s.pc[t := Normal] - {d}, state := s.state - {d}, place := s.place - {d}, cleaned := s.cleaned + [d])
  }

  // --- Invariant ---

  ghost predicate ThreadOk(s: Sys, t: nat)
  {
    && t in s.pc && t in s.state && t in s.place && t in s.ever && t !in s.cleaned
    && (HoldsSched(s.pc[t]) <==> s.sched == Some(t)) && (OffCpu(s.pc[t]) <==> !OnCpu(s, t))
    && PlaceOk(s, t) && LinkOk(s, t)
    && (IsIdle(s, t) ==> s.place[t].Running? || s.place[t].Parked?)
  }

  /** How the place, the state and the point in the code go together. */
  ghost predicate PlaceOk(s: Sys, t: nat)
    requires t in s.pc && t in s.state && t in s.place
  {
    match s.place[t]
    case Running => s.state[t] == RUNNING && !OffCpu(s.pc[t]) && !s.pc[t].Queued? && !s.pc[t].Leaving? && !s.pc[t].Picking?
    case InReady => s.state[t] == READY && (OffCpu(s.pc[t]) || (s.pc[t].Picking? && s.ready != [] && s.ready[0] != t))
    case Waiting(cv) =>
      if s.pc[t] == Queued(cv) || s.pc[t] == Leaving(cv) then s.state[t] == RUNNING && cv in s.locks && s.locks[cv] == t
      else s.state[t] == SLEEPING && (s.pc[t].Picking? || s.pc[t].Out?) && !Holds(s, t, cv)
    case InHand(u) => s.state[t] == SLEEPING && (s.pc[t].Picking? || s.pc[t].Out?) && u in s.pc && s.pc[u].Signalling? && s.pc[u].waiter == t
    case Dead(cleaner) => s.state[t] == ZOMBIE && ((s.pc[t].Picking? && cleaner.None?) || s.pc[t].Out?)
    case Parked => s.state[t] == READY && IsIdle(s, t) && (s.pc[t].Out? || (s.pc[t].Picking? && s.ready != []))
  }

  /** What a thread's point in the code says about another thread. */
  ghost predicate LinkOk(s: Sys, t: nat)
    requires t in s.pc
  {
    match s.pc[t]
    case Resumed(p) => p != t && p in s.pc && p in s.place && s.pc[p].Out? && (s.place[p].Dead? ==> s.place[p] == Dead(Some(t)))
    case Cleaning(p) => p != t && p in s.pc && p in s.place && s.pc[p].Out? && s.place[p] == Dead(Some(t))
    case Signalling(cv, w) => w != t && w in s.place && s.place[w] == InHand(t) && cv in s.locks && s.locks[cv] == t
    case _ => true
  }

  ghost predicate ReadyOk(s: Sys, t: nat)
  {
    t in s.ready <==> t in s.place && s.place[t].InReady?
  }

  ghost predicate WaitOk(s: Sys, cv: nat, t: nat)
  {
    t in Waiters(s, cv) <==> t in s.place && s.place[t] == Waiting(cv)
  }

  ghost predicate CpuOk(s: Sys, c: nat)
    requires c in s.cpus
  {
    && s.cpus[c] in s.pc && c in s.idle && s.idle[c] in s.pc
    && (forall d | d in s.idle && s.idle[d] == s.cpus[c] :: d == c)
  }

  ghost predicate Threads(s: Sys)
  {
    && s.state.Keys == s.pc.Keys == s.place.Keys && (s.sched.Some? ==> s.sched.value in s.pc)
    && (forall t {:trigger ThreadOk(s, t)} | t in s.pc :: ThreadOk(s, t))
    && (forall t | t in s.cleaned :: t in s.ever)
  }

  ghost predicate Lists(s: Sys)
  {
    && NoDup(s.ready) && (forall t {:trigger ReadyOk(s, t)} :: ReadyOk(s, t))
    && (forall cv | cv in s.waiters :: NoDup(s.waiters[cv]))
    && (forall cv, t {:trigger WaitOk(s, cv, t)} :: WaitOk(s, cv, t))
  }

  ghost predicate Cpus(s: Sys)
  {
    && (forall c {:trigger CpuOk(s, c)} | c in s.cpus :: CpuOk(s, c))
    && s.cpus.Keys == s.idle.Keys
    && (forall c, d | c in s.cpus && d in s.cpus && c != d :: s.cpus[c] != s.cpus[d])
    && (forall c, d | c in s.idle && d in s.idle && c != d :: s.idle[c] != s.idle[d])
  }

  ghost predicate Inv(s: Sys)
  {
    Threads(s) && Lists(s) && Cpus(s) && NoDup(s.cleaned)
  }

  // --- Every step keeps the invariant ---

  lemma SameLists(s: Sys, r: Sys)
    requires Lists(s) && r.ready == s.ready && r.waiters == s.waiters && r.place == s.place
    ensures Lists(r)
  {
    forall t ensures ReadyOk(r, t) {
      assert ReadyOk(s, t);
    }
    forall cv, t ensures WaitOk(r, cv, t) {
      assert WaitOk(s, cv, t);
    }
  }

  lemma SameCpus(s: Sys, r: Sys)
    requires Cpus(s) && r.cpus == s.cpus && r.idle == s.idle && s.pc.Keys <= r.pc.Keys
    ensures Cpus(r)
  {
    forall c | c in r.cpus ensures CpuOk(r, c) {
      assert CpuOk(s, c);
    }
  }

  lemma LockThread(s: Sys, t: nat, cv: nat, u: nat)
    requires Inv(s) && Enabled(s, Lock(t, cv)) && u in Apply(s, Lock(t, cv)).pc
    ensures ThreadOk(Apply(s, Lock(t, cv)), u)
  {
    assert ThreadOk(s, t) && (u in s.pc ==> ThreadOk(s, u));
  }

  lemma LockThreads(s: Sys, t: nat, cv: nat)
    requires Inv(s) && Enabled(s, Lock(t, cv))
    ensures Threads(Apply(s, Lock(t, cv)))
  {
    var r := Apply(s, Lock(t, cv));
    forall u | u in r.pc ensures ThreadOk(r, u) {
      LockThread(s, t, cv, u);
    }
  }

  lemma LockKeeps(s: Sys, t: nat, cv: nat)
    requires Inv(s) && Enabled(s, Lock(t, cv))
    ensures Inv(Apply(s, Lock(t, cv)))
  {
    var r := Apply(s, Lock(t, cv));
    LockThreads(s, t, cv);
    SameLists(s, r);
    SameCpus(s, r);
  }

  lemma UnlockThread(s: Sys, t: nat, cv: nat, u: nat)
    requires Inv(s) && Enabled(s, Unlock(t, cv)) && u in Apply(s, Unlock(t, cv)).pc
    ensures ThreadOk(Apply(s, Unlock(t, cv)), u)
  {
    assert ThreadOk(s, t) && (u in s.pc ==> ThreadOk(s, u));
  }

  lemma UnlockThreads(s: Sys, t: nat, cv: nat)
    requires Inv(s) && Enabled(s, Unlock(t, cv))
    ensures Threads(Apply(s, Unlock(t, cv)))
  {
    var r := Apply(s, Unlock(t, cv));
    forall u | u in r.pc ensures ThreadOk(r, u) {
      UnlockThread(s, t, cv, u);
    }
  }

  lemma UnlockKeeps(s: Sys, t: nat, cv: nat)
    requires Inv(s) && Enabled(s, Unlock(t, cv))
    ensures Inv(Apply(s, Unlock(t, cv)))
  {
    var r := Apply(s, Unlock(t, cv));
    UnlockThreads(s, t, cv);
    SameLists(s, r);
    SameCpus(s, r);
  }

  lemma EnqueueThread(s: Sys, t: nat, cv: nat, u: nat)
    requires Inv(s) && Enabled(s, Enqueue(t, cv)) && u in Apply(s, Enqueue(t, cv)).pc
    ensures ThreadOk(Apply(s, Enqueue(t, cv)), u)
  {
    assert ThreadOk(s, t) && (u in s.pc ==> ThreadOk(s, u));
  }

  lemma EnqueueThreads(s: Sys, t: nat, cv: nat)
    requires Inv(s) && Enabled(s, Enqueue(t, cv))
    ensures Threads(Apply(s, Enqueue(t, cv)))
  {
    var r := Apply(s, Enqueue(t, cv));
    forall u | u in r.pc ensures ThreadOk(r, u) {
      EnqueueThread(s, t, cv, u);
    }
  }

  lemma EnqueueKeeps(s: Sys, t: nat, cv: nat)
    requires Inv(s) && Enabled(s, Enqueue(t, cv))
    ensures Inv(Apply(s, Enqueue(t, cv)))
  {
    var r := Apply(s, Enqueue(t, cv));
    EnqueueThreads(s, t, cv);
    EnqueueLists(s, t, cv);
    SameCpus(s, r);
  }

  lemma EnqueueLists(s: Sys, t: nat, cv: nat)
    requires Inv(s) && Enabled(s, Enqueue(t, cv))
    ensures Lists(Apply(s, Enqueue(t, cv)))
  {
    var r := Apply(s, Enqueue(t, cv));
    assert ThreadOk(s, t) && WaitOk(s, cv, t);
    forall u ensures ReadyOk(r, u) {
      assert ReadyOk(s, u);
    }
    forall d, u ensures WaitOk(r, d, u) {
      assert WaitOk(s, d, u);
    }
  }

  lemma TakeSchedThread(s: Sys, t: nat, u: nat)
    requires Inv(s) && Enabled(s, TakeSched(t)) && u in Apply(s, TakeSched(t)).pc
    ensures ThreadOk(Apply(s, TakeSched(t)), u)
  {
    assert ThreadOk(s, t) && (u in s.pc ==> ThreadOk(s, u));
  }

  lemma TakeSchedThreads(s: Sys, t: nat)
    requires Inv(s) && Enabled(s, TakeSched(t))
    ensures Threads(Apply(s, TakeSched(t)))
  {
    var r := Apply(s, TakeSched(t));
    forall u | u in r.pc ensures ThreadOk(r, u) {
      TakeSchedThread(s, t, u);
    }
  }

  lemma TakeSchedKeeps(s: Sys, t: nat)
    requires Inv(s) && Enabled(s, TakeSched(t))
    ensures Inv(Apply(s, TakeSched(t)))
  {
    var r := Apply(s, TakeSched(t));
    TakeSchedThreads(s, t);
    SameLists(s, r);
    SameCpus(s, r);
  }

  lemma DropLockThread(s: Sys, t: nat, u: nat)
    requires Inv(s) && Enabled(s, DropLock(t)) && u in Apply(s, DropLock(t)).pc
    ensures ThreadOk(Apply(s, DropLock(t)), u)
  {
    assert ThreadOk(s, t) && (u in s.pc ==> ThreadOk(s, u));
  }

  lemma DropLockThreads(s: Sys, t: nat)
    requires Inv(s) && Enabled(s, DropLock(t))
    ensures Threads(Apply(s, DropLock(t)))
  {
    var r := Apply(s, DropLock(t));
    forall u | u in r.pc ensures ThreadOk(r, u) {
      DropLockThread(s, t, u);
    }
  }

  lemma DropLockKeeps(s: Sys, t: nat)
    requires Inv(s) && Enabled(s, DropLock(t))
    ensures Inv(Apply(s, DropLock(t)))
  {
    var r := Apply(s, DropLock(t));
    DropLockThreads(s, t);
    SameLists(s, r);
    SameCpus(s, r);
  }

  lemma YieldThread(s: Sys, t: nat, u: nat)
    requires Threads(s) && AtPc(s, t, Normal) && s.sched.None? && t !in s.ready && u in s.pc
    ensures ThreadOk(YieldStep(s, t), u)
  {
    assert ThreadOk(s, t) && ThreadOk(s, u);
    if s.ready != [] {
      assert s.ready[0] in s.ready;
    }
  }

  lemma YieldThreads(s: Sys, t: nat)
    requires Inv(s) && Enabled(s, Yield(t))
    ensures Threads(Apply(s, Yield(t)))
  {
    var r := Apply(s, Yield(t));
    assert ThreadOk(s, t) && ReadyOk(s, t);
    forall u | u in r.pc ensures ThreadOk(r, u) {
      YieldThread(s, t, u);
    }
  }

  lemma YieldKeeps(s: Sys, t: nat)
    requires Inv(s) && Enabled(s, Yield(t))
    ensures Inv(Apply(s, Yield(t)))
  {
    var r := Apply(s, Yield(t));
    YieldThreads(s, t);
    YieldLists(s, t);
    SameCpus(s, r);
  }

  lemma YieldLists(s: Sys, t: nat)
    requires Inv(s) && Enabled(s, Yield(t))
    ensures Lists(Apply(s, Yield(t)))
  {
    var r := Apply(s, Yield(t));
    assert ThreadOk(s, t) && ReadyOk(s, t);
    forall u ensures ReadyOk(r, u) {
      assert ReadyOk(s, u);
    }
    forall d, u ensures WaitOk(r, d, u) {
      assert WaitOk(s, d, u);
    }
  }

  lemma ExitThread(s: Sys, t: nat, u: nat)
    requires Inv(s) && Enabled(s, Exit(t)) && u in Apply(s, Exit(t)).pc
    ensures ThreadOk(Apply(s, Exit(t)), u)
  {
    assert ThreadOk(s, t) && (u in s.pc ==> ThreadOk(s, u));
  }

  lemma ExitThreads(s: Sys, t: nat)
    requires Inv(s) && Enabled(s, Exit(t))
    ensures Threads(Apply(s, Exit(t)))
  {
    var r := Apply(s, Exit(t));
    forall u | u in r.pc ensures ThreadOk(r, u) {
      ExitThread(s, t, u);
    }
  }

  lemma ExitKeeps(s: Sys, t: nat)
    requires Inv(s) && Enabled(s, Exit(t))
    ensures Inv(Apply(s, Exit(t)))
  {
    var r := Apply(s, Exit(t));
    ExitThreads(s, t);
    ExitLists(s, t);
    SameCpus(s, r);
  }

  lemma ExitLists(s: Sys, t: nat)
    requires Inv(s) && Enabled(s, Exit(t))
    ensures Lists(Apply(s, Exit(t)))
  {
    var r := Apply(s, Exit(t));
    assert ThreadOk(s, t);
    forall u ensures ReadyOk(r, u) {
      assert ReadyOk(s, u);
    }
    forall d, u ensures WaitOk(r, d, u) {
      assert WaitOk(s, d, u);
    }
  }

  lemma ReleaseSchedThread(s: Sys, t: nat, u: nat)
    requires Inv(s) && Enabled(s, ReleaseSched(t)) && u in Apply(s, ReleaseSched(t)).pc
    ensures ThreadOk(Apply(s, ReleaseSched(t)), u)
  {
    assert ThreadOk(s, t) && ThreadOk(s, u);
    assert s.pc[t].Resumed? ==> ThreadOk(s, s.pc[t].prev);
  }

  lemma ReleaseSchedThreads(s: Sys, t: nat)
    requires Inv(s) && Enabled(s, ReleaseSched(t))
    ensures Threads(Apply(s, ReleaseSched(t)))
  {
    var r := Apply(s, ReleaseSched(t));
    forall u | u in r.pc ensures ThreadOk(r, u) {
      ReleaseSchedThread(s, t, u);
    }
  }

  lemma ReleaseSchedKeeps(s: Sys, t: nat)
    requires Inv(s) && Enabled(s, ReleaseSched(t))
    ensures Inv(Apply(s, ReleaseSched(t)))
  {
    var r := Apply(s, ReleaseSched(t));
    ReleaseSchedThreads(s, t);
    SameLists(s, r);
    SameCpus(s, r);
  }

  lemma SignalPopThread(s: Sys, t: nat, cv: nat, u: nat)
    requires Inv(s) && Enabled(s, SignalPop(t, cv)) && u in Apply(s, SignalPop(t, cv)).pc
    ensures ThreadOk(Apply(s, SignalPop(t, cv)), u)
  {
    var w := Waiters(s, cv)[0];
    assert WaitOk(s, cv, w) && ThreadOk(s, t) && ThreadOk(s, w) && ThreadOk(s, u);
  }

  lemma SignalPopThreads(s: Sys, t: nat, cv: nat)
    requires Inv(s) && Enabled(s, SignalPop(t, cv))
    ensures Threads(Apply(s, SignalPop(t, cv)))
  {
    var r := Apply(s, SignalPop(t, cv));
    assert WaitOk(s, cv, Waiters(s, cv)[0]);
    forall u | u in r.pc ensures ThreadOk(r, u) {
      SignalPopThread(s, t, cv, u);
    }
  }

  lemma SignalPopKeeps(s: Sys, t: nat, cv: nat)
    requires Inv(s) && Enabled(s, SignalPop(t, cv))
    ensures Inv(Apply(s, SignalPop(t, cv)))
  {
    var r := Apply(s, SignalPop(t, cv));
    SignalPopThreads(s, t, cv);
    SignalPopLists(s, t, cv);
    SameCpus(s, r);
  }

  lemma SignalPopLists(s: Sys, t: nat, cv: nat)
    requires Inv(s) && Enabled(s, SignalPop(t, cv))
    ensures Lists(Apply(s, SignalPop(t, cv)))
  {
    var r, l := Apply(s, SignalPop(t, cv)), Waiters(s, cv);
    assert WaitOk(s, cv, l[0]) && ThreadOk(s, t) && l == [l[0]] + l[1..];
    forall u ensures ReadyOk(r, u) {
      assert ReadyOk(s, u);
    }
    forall d, u ensures WaitOk(r, d, u) {
      assert WaitOk(s, d, u);
    }
  }

  lemma SignalReadyThread(s: Sys, t: nat, u: nat)
    requires Inv(s) && Enabled(s, SignalReady(t)) && u in Apply(s, SignalReady(t)).pc
    ensures ThreadOk(Apply(s, SignalReady(t)), u)
  {
    assert ThreadOk(s, t) && ThreadOk(s, s.pc[t].waiter) && ThreadOk(s, u);
  }

  lemma SignalReadyThreads(s: Sys, t: nat)
    requires Inv(s) && Enabled(s, SignalReady(t))
    ensures Threads(Apply(s, SignalReady(t)))
  {
    var r := Apply(s, SignalReady(t));
    assert ThreadOk(s, t);
    forall u | u in r.pc ensures ThreadOk(r, u) {
      SignalReadyThread(s, t, u);
    }
  }

  lemma SignalReadyKeeps(s: Sys, t: nat)
    requires Inv(s) && Enabled(s, SignalReady(t))
    ensures Inv(Apply(s, SignalReady(t)))
  {
    var r := Apply(s, SignalReady(t));
    SignalReadyThreads(s, t);
    SignalReadyLists(s, t);
    SameCpus(s, r);
  }

  lemma SignalReadyLists(s: Sys, t: nat)
    requires Inv(s) && Enabled(s, SignalReady(t))
    ensures Lists(Apply(s, SignalReady(t)))
  {
    var r, w := Apply(s, SignalReady(t)), s.pc[t].waiter;
    assert ThreadOk(s, t) && ReadyOk(s, w);
    forall u ensures ReadyOk(r, u) {
      assert ReadyOk(s, u);
    }
    forall d, u ensures WaitOk(r, d, u) {
      assert WaitOk(s, d, u);
    }
  }

  // --- The context switch ---

  /** The chosen thread is another one, off every CPU, and ready or this CPU's idle thread. */
  lemma ChosenOk(s: Sys, c: nat)
    requires Inv(s) && Enabled(s, Switch(c))
    ensures var n := Chosen(s, c);
            && n in s.pc && n != s.cpus[c] && OffCpu(s.pc[n]) && s.state[n] == READY
            && (s.ready != [] ==> s.place[n].InReady?) && (s.ready == [] ==> s.place[n].Parked? && n == s.idle[c])
  {
    var t, n := s.cpus[c], Chosen(s, c);
    assert CpuOk(s, c) && ThreadOk(s, t) && ReadyOk(s, n);
    assert s.ready != [] ==> ThreadOk(s, n);
    if s.ready == [] {
      assert IsIdle(s, n) && ThreadOk(s, n);
      IdleAtHome(s, c, n);
    }
  }

  /** An idle thread runs only on its own CPU. */
  lemma IdleAtHome(s: Sys, c: nat, n: nat)
    requires Inv(s) && c in s.cpus && c in s.idle && s.idle[c] == n && n != s.cpus[c] && n in s.pc
    ensures OffCpu(s.pc[n])
  {
    assert ThreadOk(s, n) && forall d | d in s.cpus :: CpuOk(s, d);
  }

  lemma SwitchThread(s: Sys, c: nat, u: nat)
    requires Inv(s) && Enabled(s, Switch(c)) && u in s.pc
    requires Chosen(s, c) in s.pc && Chosen(s, c) != s.cpus[c] && OffCpu(s.pc[Chosen(s, c)])
    ensures s.cpus[c] in s.place && ThreadOk(SwitchStep(s, c), u)
  {
    var t, n := s.cpus[c], Chosen(s, c);
    assert ThreadOk(s, t) && ThreadOk(s, n) && ThreadOk(s, u);
    SwitchOnCpu(s, c, u);
    SwitchPlace(s, c, u);
    SwitchLink(s, c, u);
  }

  lemma SwitchOnCpu(s: Sys, c: nat, u: nat)
    requires Cpus(s) && c in s.cpus && c in s.idle && s.cpus[c] in s.place && Chosen(s, c) in s.pc && Chosen(s, c) != s.cpus[c]
    requires !OnCpu(s, Chosen(s, c))
    ensures OnCpu(SwitchStep(s, c), u) <==> (OnCpu(s, u) && u != s.cpus[c]) || u == Chosen(s, c)
  {
    var r := SwitchStep(s, c);
    if OnCpu(s, u) && u != s.cpus[c] {
      var d :| d in s.cpus && s.cpus[d] == u;
      assert r.cpus[d] == u;
    }
    if OnCpu(r, u) {
      var d :| d in r.cpus && r.cpus[d] == u;
      assert d != c ==> s.cpus[d] == u;
    }
    assert r.cpus[c] == Chosen(s, c);
  }

  lemma SwitchPlace(s: Sys, c: nat, u: nat)
    requires Inv(s) && Enabled(s, Switch(c)) && u in s.pc && s.cpus[c] in s.place && Chosen(s, c) in s.pc
    ensures var r := SwitchStep(s, c); PlaceOk(r, u) && (IsIdle(r, u) ==> r.place[u].Running? || r.place[u].Parked?)
  {
    ChosenOk(s, c);
    assert ThreadOk(s, s.cpus[c]) && ThreadOk(s, u);
  }

  lemma SwitchLink(s: Sys, c: nat, u: nat)
    requires Inv(s) && Enabled(s, Switch(c)) && u in s.pc && s.cpus[c] in s.place && Chosen(s, c) in s.pc
    ensures LinkOk(SwitchStep(s, c), u)
  {
    ChosenOk(s, c);
    assert ThreadOk(s, s.cpus[c]) && ThreadOk(s, u);
  }

  lemma SwitchThreads(s: Sys, c: nat)
    requires Inv(s) && Enabled(s, Switch(c))
    ensures Threads(Apply(s, Switch(c)))
  {
    var r, t, n := Apply(s, Switch(c)), s.cpus[c], Chosen(s, c);
    ChosenOk(s, c);
    assert ThreadOk(s, t);
    forall u | u in r.pc ensures ThreadOk(r, u) {
      SwitchThread(s, c, u);
    }
  }

  lemma SwitchLists(s: Sys, c: nat)
    requires Inv(s) && Enabled(s, Switch(c))
    ensures Lists(Apply(s, Switch(c)))
  {
    var r, t, n := Apply(s, Switch(c)), s.cpus[c], Chosen(s, c);
    ChosenOk(s, c);
    assert s.ready != [] ==> s.ready == [s.ready[0]] + s.ready[1..];
    forall u ensures ReadyOk(r, u) {
      assert ReadyOk(s, u);
    }
    forall d, u ensures WaitOk(r, d, u) {
      assert WaitOk(s, d, u);
    }
  }

  lemma SwitchCpus(s: Sys, c: nat)
    requires Inv(s) && Enabled(s, Switch(c))
    ensures Cpus(Apply(s, Switch(c)))
  {
    var r, n := Apply(s, Switch(c)), Chosen(s, c);
    ChosenOk(s, c);
    assert ThreadOk(s, n);
    forall d | d in r.cpus ensures CpuOk(r, d) {
      assert CpuOk(s, d);
      assert d == c && s.ready != [] ==> !IsIdle(s, n);
    }
  }

  lemma SwitchKeeps(s: Sys, c: nat)
    requires Inv(s) && Enabled(s, Switch(c))
    ensures Inv(Apply(s, Switch(c)))
  {
    SwitchThreads(s, c);
    SwitchLists(s, c);
    SwitchCpus(s, c);
  }

  // --- Threads come and go ---

  lemma CleanUpThread(s: Sys, t: nat, u: nat)
    requires Inv(s) && Enabled(s, CleanUp(t)) && u in Apply(s, CleanUp(t)).pc
    ensures ThreadOk(Apply(s, CleanUp(t)), u)
  {
    var d := s.pc[t].dying;
    assert ThreadOk(s, t) && ThreadOk(s, u) && ThreadOk(s, d);
  }

  lemma CleanUpKeeps(s: Sys, t: nat)
    requires Inv(s) && Enabled(s, CleanUp(t))
    ensures Inv(Apply(s, CleanUp(t)))
  {
    CleanUpThreads(s, t);
    CleanUpLists(s, t);
  }

  lemma CleanUpThreads(s: Sys, t: nat)
    requires Inv(s) && Enabled(s, CleanUp(t))
    ensures Threads(Apply(s, CleanUp(t))) && NoDup(Apply(s, CleanUp(t)).cleaned)
  {
    var r, d := Apply(s, CleanUp(t)), s.pc[t].dying;
    assert ThreadOk(s, t) && ThreadOk(s, d);
    forall u | u in r.pc ensures ThreadOk(r, u) {
      CleanUpThread(s, t, u);
    }
  }

  lemma CleanUpLists(s: Sys, t: nat)
    requires Inv(s) && Enabled(s, CleanUp(t))
    ensures Lists(Apply(s, CleanUp(t))) && Cpus(Apply(s, CleanUp(t)))
  {
    var r, d := Apply(s, CleanUp(t)), s.pc[t].dying;
    assert ThreadOk(s, t) && ThreadOk(s, d);
    forall u ensures ReadyOk(r, u) {
      assert ReadyOk(s, u);
    }
    forall cv, u ensures WaitOk(r, cv, u) {
      assert WaitOk(s, cv, u);
    }
    forall c | c in r.cpus ensures CpuOk(r, c) {
      assert CpuOk(s, c) && ThreadOk(s, s.cpus[c]) && ThreadOk(s, s.idle[c]);
      assert OnCpu(s, s.cpus[c]) && IsIdle(s, s.idle[c]);
    }
  }

  lemma StartThread(s: Sys, t: nat, n: nat, u: nat)
    requires Inv(s) && Enabled(s, Start(t, n)) && (u in s.pc || u == n)
    requires n !in s.pc && !OnCpu(s, n) && !IsIdle(s, n)
    ensures ThreadOk(Apply(s, Start(t, n)), u)
  {
    assert u in s.pc ==> ThreadOk(s, u);
  }

  lemma StartKeeps(s: Sys, t: nat, n: nat)
    requires Inv(s) && Enabled(s, Start(t, n))
    ensures Inv(Apply(s, Start(t, n)))
  {
    NewThread(s, n);
    StartThreads(s, t, n);
    StartLists(s, t, n);
    SameCpus(s, Apply(s, Start(t, n)));
  }

  lemma StartThreads(s: Sys, t: nat, n: nat)
    requires Inv(s) && Enabled(s, Start(t, n)) && n !in s.pc && !OnCpu(s, n) && !IsIdle(s, n)
    ensures Threads(Apply(s, Start(t, n)))
  {
    var r := Apply(s, Start(t, n));
    forall u | u in r.pc ensures ThreadOk(r, u) {
      StartThread(s, t, n, u);
    }
  }

  lemma NewThread(s: Sys, n: nat)
    requires Inv(s) && n !in s.ever
    ensures n !in s.pc && !OnCpu(s, n) && !IsIdle(s, n)
  {
    assert n in s.pc ==> ThreadOk(s, n);
    assert forall c | c in s.cpus :: CpuOk(s, c);
  }

  lemma StartLists(s: Sys, t: nat, n: nat)
    requires Inv(s) && Enabled(s, Start(t, n)) && n !in s.pc
    ensures Lists(Apply(s, Start(t, n)))
  {
    var r := Apply(s, Start(t, n));
    assert ReadyOk(s, n);
    forall u ensures ReadyOk(r, u) {
      assert ReadyOk(s, u);
    }
    forall cv, u ensures WaitOk(r, cv, u) {
      assert WaitOk(s, cv, u);
    }
  }

  // --- Runs ---

  lemma StepKeeps(s: Sys, step: Step)
    requires Inv(s) && Enabled(s, step)
    ensures Inv(Apply(s, step))
  {
    match step
    case Lock(t, cv) => LockKeeps(s, t, cv);
    case Unlock(t, cv) => UnlockKeeps(s, t, cv);
    case Enqueue(t, cv) => EnqueueKeeps(s, t, cv);
    case TakeSched(t) => TakeSchedKeeps(s, t);
    case DropLock(t) => DropLockKeeps(s, t);
    case Yield(t) => YieldKeeps(s, t);
    case Exit(t) => ExitKeeps(s, t);
    case Switch(c) => SwitchKeeps(s, c);
    case ReleaseSched(t) => ReleaseSchedKeeps(s, t);
    case CleanUp(t) => CleanUpKeeps(s, t);
    case SignalPop(t, cv) => SignalPopKeeps(s, t, cv);
    case SignalReady(t) => SignalReadyKeeps(s, t);
    case Start(t, u) => StartKeeps(s, t, u);
  }

  /** Every CPU runs its idle thread and there are no others. */
  ghost predicate Init(s: Sys)
  {
    && s.cpus == s.idle && (forall c, d | c in s.idle && d in s.idle && c != d :: s.idle[c] != s.idle[d])
    && s.ready == [] && s.waiters == map[] && s.locks == map[] && s.sched.None? && s.cleaned == []
    && s.ever == s.pc.Keys == s.state.Keys == s.place.Keys == s.idle.Values
    && forall t | t in s.pc :: s.pc[t] == Normal && s.state[t] == RUNNING && s.place[t] == Running
  }

  lemma InitInv(s: Sys)
    requires Init(s)
    ensures Inv(s)
  {
    forall t | t in s.pc ensures ThreadOk(s, t) {
      assert t in s.idle.Values;
    }
    forall c | c in s.cpus ensures CpuOk(s, c) {
      assert s.idle[c] in s.idle.Values;
    }
  }

  ghost predicate Trace(states: seq<Sys>, steps: seq<Step>)
  {
    && |states| == |steps| + 1 && Init(states[0])
    && forall i | 0 <= i < |steps| :: Enabled(states[i], steps[i]) && states[i + 1] == Apply(states[i], steps[i])
  }

  lemma {:induction false} TraceInv(states: seq<Sys>, steps: seq<Step>, i: nat)
    requires Trace(states, steps) && i < |states|
    ensures Inv(states[i])
  {
    if i == 0 {
      InitInv(states[0]);
    } else {
      TraceInv(states, steps, i - 1);
      assert states[i - 1 + 1] == Apply(states[i - 1], steps[i - 1]);
      StepKeeps(states[i - 1], steps[i - 1]);
    }
  }

  // --- What holds in every reachable state ---

  function One(b: bool): nat
  {
    if b then 1 else 0
  }

  /** On a CPU and not on the way to another place. */
  ghost predicate RunsNow(s: Sys, t: nat)
    requires t in s.pc
  {
    OnCpu(s, t) && !s.pc[t].Queued? && !s.pc[t].Leaving? && !s.pc[t].Picking?
  }

  ghost predicate IsWaiting(s: Sys, t: nat)
  {
    exists cv :: t in Waiters(s, cv)
  }

  ghost predicate IsSignalled(s: Sys, t: nat)
  {
    exists u :: u in s.pc && s.pc[u].Signalling? && s.pc[u].waiter == t
  }

  /** A thread that is not idle is in exactly one place, once. */
  lemma Placement(states: seq<Sys>, steps: seq<Step>, i: nat, t: nat)
    requires Trace(states, steps) && i < |states| && t in states[i].pc && !IsIdle(states[i], t)
    ensures var s := states[i];
            && t in s.state
            && One(RunsNow(s, t)) + One(t in s.ready) + One(IsWaiting(s, t)) + One(IsSignalled(s, t)) + One(s.state[t] == ZOMBIE) == 1
    ensures NoDup(states[i].ready) && forall cv :: NoDup(Waiters(states[i], cv))
    ensures forall cv, d | t in Waiters(states[i], cv) && t in Waiters(states[i], d) :: cv == d
    ensures forall c, d | c in states[i].cpus && d in states[i].cpus && states[i].cpus[c] == states[i].cpus[d] == t :: c == d
  {
    TraceInv(states, steps, i);
    PlacementIn(states[i], t);
  }

  lemma PlacementIn(s: Sys, t: nat)
    requires Inv(s) && t in s.pc && !IsIdle(s, t)
    ensures t in s.state
    ensures One(RunsNow(s, t)) + One(t in s.ready) + One(IsWaiting(s, t)) + One(IsSignalled(s, t)) + One(s.state[t] == ZOMBIE) == 1
    ensures forall cv, d | t in Waiters(s, cv) && t in Waiters(s, d) :: cv == d
  {
    assert ThreadOk(s, t) && ReadyOk(s, t);
    forall cv ensures t in Waiters(s, cv) <==> s.place[t] == Waiting(cv) {
      assert WaitOk(s, cv, t);
    }
    assert s.place[t].Waiting? ==> t in Waiters(s, s.place[t].cv);
    assert forall u | u in s.pc :: ThreadOk(s, u);
  }

  /**
   * A lock passes from nobody to one thread and back: whoever takes it has it,
   * a holder keeps it until it gives it up, at an unlock or on its way to sleep,
   * and then nobody has it.
   */
  lemma LockPasses(states: seq<Sys>, steps: seq<Step>, i: nat, cv: nat, t: nat)
    requires Trace(states, steps) && i < |steps|
    ensures var (s, r) := (states[i], states[i + 1]);
            && (steps[i] == Lock(t, cv) ==> cv !in s.locks && Holds(r, t, cv))
            && (GivesUp(s, steps[i], t, cv) ==> Holds(s, t, cv) && cv !in r.locks)
            && (Holds(s, t, cv) && !GivesUp(s, steps[i], t, cv) ==> Holds(r, t, cv))
            && (Holds(r, t, cv) && steps[i] != Lock(t, cv) ==> Holds(s, t, cv))
  {
    TraceInv(states, steps, i);
    assert Enabled(states[i], steps[i]) && states[i + 1] == Apply(states[i], steps[i]);
    assert t in states[i].pc ==> ThreadOk(states[i], t);
    assert steps[i].DropLock? ==> ThreadOk(states[i], steps[i].t);
  }

  /** The thread unlocks, or sleeps on the condition. */
  ghost predicate GivesUp(s: Sys, step: Step, t: nat, cv: nat)
  {
    step == Unlock(t, cv) || (step == DropLock(t) && t in s.pc && s.pc[t] == Leaving(cv))
  }

  /** A thread that sleeps on a condition does not have its lock, so that another thread can take it and signal. */
  lemma SleeperFreesLock(states: seq<Sys>, steps: seq<Step>, i: nat, t: nat, cv: nat)
    requires Trace(states, steps) && i < |states| && t in Waiters(states[i], cv)
    requires t in states[i].pc && states[i].pc[t] != Queued(cv) && states[i].pc[t] != Leaving(cv)
    ensures !Holds(states[i], t, cv)
    ensures forall u | AtPc(states[i], u, Normal) :: Enabled(states[i], Lock(u, cv)) || exists h :: h != t && Holds(states[i], h, cv)
  {
    TraceInv(states, steps, i);
    var s := states[i];
    assert ThreadOk(s, t) && WaitOk(s, cv, t);
    assert cv in s.locks ==> Holds(s, s.locks[cv], cv);
  }

  /** One step in a queue: it stays, its first leaves, or one joins at the end. */
  ghost predicate QueueStep(l: seq<nat>, m: seq<nat>)
  {
    m == l || (l != [] && m == l[1..]) || (|m| == |l| + 1 && m[..|l|] == l)
  }

  /** The ready queue and every waiter list are first in, first out. */
  lemma FirstInFirstOut(states: seq<Sys>, steps: seq<Step>, i: nat, cv: nat)
    requires Trace(states, steps) && i < |steps|
    ensures QueueStep(states[i].ready, states[i + 1].ready) && QueueStep(Waiters(states[i], cv), Waiters(states[i + 1], cv))
    ensures steps[i].Start? ==> states[i + 1].ready == states[i].ready + [steps[i].u]
    ensures steps[i].Enqueue? ==> Waiters(states[i + 1], steps[i].cv) == Waiters(states[i], steps[i].cv) + [steps[i].t]
  {
    assert Enabled(states[i], steps[i]) && states[i + 1] == Apply(states[i], steps[i]);
  }

  /** A signalled waiter is made ready only after it has been switched out, and then is ready once. */
  lemma ReadyAfterSwitch(states: seq<Sys>, steps: seq<Step>, i: nat)
    requires Trace(states, steps) && i < |steps| && steps[i].SignalReady?
    ensures var (s, r, w) := (states[i], states[i + 1], states[i].pc[steps[i].t].waiter);
            && w in s.pc && s.pc[w].Out? && !OnCpu(s, w) && w !in s.ready
            && r.ready == s.ready + [w] && w in r.state && r.state[w] == READY
  {
    TraceInv(states, steps, i);
    var s, t := states[i], steps[i].t;
    assert Enabled(s, steps[i]) && ThreadOk(s, t);
    assert ThreadOk(s, s.pc[t].waiter) && ReadyOk(s, s.pc[t].waiter);
  }

  /** The thread a CPU switches to is READY and on no CPU, so `sched`'s assertions hold. */
  lemma PickedReady(states: seq<Sys>, steps: seq<Step>, i: nat)
    requires Trace(states, steps) && i < |steps| && steps[i].Switch?
    ensures var (s, c) := (states[i], steps[i].c);
            && Chosen(s, c) in s.state && s.state[Chosen(s, c)] == READY && !OnCpu(s, Chosen(s, c))
            && Chosen(s, c) != s.cpus[c]
  {
    TraceInv(states, steps, i);
    assert Enabled(states[i], steps[i]);
    ChosenOk(states[i], steps[i].c);
    assert ThreadOk(states[i], Chosen(states[i], steps[i].c));
  }

  /** The only ways out of a place. No wakeup is lost: a waiter leaves its list only to be made ready. */
  ghost predicate Moves(s: Sys, step: Step, t: nat, p: Place, q: Place)
  {
    || p == q
    || match p
       case Running => q.InReady? || q.Dead? || q.Parked? || (q.Waiting? && step == Enqueue(t, q.cv))
       case Waiting(cv) => q.InHand? && step == SignalPop(q.signaller, cv)
       case InHand(u) => q.InReady? && step == SignalReady(u)
       case InReady => q.Running? && step.Switch? && s.ready != [] && s.ready[0] == t
       case Parked => q.Running? && step.Switch? && s.ready == []
       case Dead(cleaner) => cleaner.None? && q.Dead? && step.Switch?
  }

  lemma LifeCycle(states: seq<Sys>, steps: seq<Step>, i: nat, t: nat)
    requires Trace(states, steps) && i < |steps| && t in states[i].place
    ensures t in states[i + 1].place ==> Moves(states[i], steps[i], t, states[i].place[t], states[i + 1].place[t])
    ensures t !in states[i + 1].place ==> states[i].place[t].Dead? && steps[i].CleanUp?
  {
    TraceInv(states, steps, i);
    assert Enabled(states[i], steps[i]) && states[i + 1] == Apply(states[i], steps[i]);
    StepMoves(states[i], steps[i], t);
  }

  lemma StepMoves(s: Sys, step: Step, t: nat)
    requires Inv(s) && Enabled(s, step) && t in s.place
    ensures t in Apply(s, step).place ==> Moves(s, step, t, s.place[t], Apply(s, step).place[t])
    ensures t !in Apply(s, step).place ==> s.place[t].Dead? && step.CleanUp?
  {
    assert ThreadOk(s, t);
    match step
    case Switch(c) => SwitchMoves(s, c, t);
    case SignalPop(u, cv) => SignalMoves(s, step, t);
    case SignalReady(u) => SignalMoves(s, step, t);
    case CleanUp(u) => assert ThreadOk(s, u);
    case Start(u, n) => NewThread(s, n);
    case Yield(u) => YieldMoves(s, u, t);
    case Enqueue(u, cv) => assert ThreadOk(s, u);
    case Exit(u) => assert ThreadOk(s, u);
    case _ =>
  }

  lemma SignalMoves(s: Sys, step: Step, t: nat)
    requires Inv(s) && Enabled(s, step) && (step.SignalPop? || step.SignalReady?) && t in s.place
    ensures var r := Apply(s, step); t in r.place && Moves(s, step, t, s.place[t], r.place[t])
  {
    assert ThreadOk(s, step.t);
    assert step.SignalPop? ==> WaitOk(s, step.cv, Waiters(s, step.cv)[0]);
  }

  lemma YieldMoves(s: Sys, u: nat, t: nat)
    requires Inv(s) && Enabled(s, Yield(u)) && t in s.place
    ensures var r := Apply(s, Yield(u)); t in r.place && Moves(s, Yield(u), t, s.place[t], r.place[t])
  {
    assert ThreadOk(s, u);
  }

  lemma SwitchMoves(s: Sys, c: nat, t: nat)
    requires Inv(s) && Enabled(s, Switch(c)) && t in s.place
    ensures var r := Apply(s, Switch(c)); t in r.place && Moves(s, Switch(c), t, s.place[t], r.place[t])
  {
    ChosenOk(s, c);
    assert ThreadOk(s, t) && ThreadOk(s, s.cpus[c]);
  }

  /** No thread is cleaned up twice, and none that was cleaned up is known any more. */
  lemma CleanedOnce(states: seq<Sys>, steps: seq<Step>, i: nat)
    requires Trace(states, steps) && i < |states|
    ensures NoDup(states[i].cleaned) && forall t | t in states[i].cleaned :: t !in states[i].pc
    ensures i < |steps| && steps[i].CleanUp? ==>
      var (s, r, d) := (states[i], states[i + 1], states[i].pc[steps[i].t].dying);
      && d in s.state && s.state[d] == ZOMBIE && !OnCpu(s, d) && d !in s.cleaned
      && d in r.cleaned && d !in r.pc && d !in r.state && AtPc(r, steps[i].t, Normal)
  {
    TraceInv(states, steps, i);
    forall t | t in states[i].cleaned ensures t !in states[i].pc {
      assert t in states[i].pc ==> ThreadOk(states[i], t);
    }
    if i < |steps| && steps[i].CleanUp? {
      assert Enabled(states[i], steps[i]) && ThreadOk(states[i], steps[i].t);
      assert ThreadOk(states[i], states[i].pc[steps[i].t].dying);
    }
  }
}
