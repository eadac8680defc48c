/**
 * `sched_ready`, `sched_sched`, `sched`, `condvar_wait`, `condvar_signal` and
 * `condvar_broadcast` on the shared queues: each method is one step, or the
 * steps that one thread takes in a row while the others stand still.
 */
module Synch {
  import opened Basics
  import opened NatLists
  import opened Sched

  class Kernel {
    var cpus: map<nat, nat>
    var idle: map<nat, nat>
    var ready: seq<nat>
    var waiters: map<nat, seq<nat>>
    // Holders of the condition variables' locks and of sched_lock.
    var locks: map<nat, nat>
    var sched: Option<nat>
    var state: map<nat, ThreadState>
    var pc: map<nat, Pc>
    ghost var place: map<nat, Place>
    ghost var ever: set<nat>
    ghost var cleaned: seq<nat>

    ghost function State(): Sys
      reads this
    {
      Sys(cpus, idle, ready, waiters, locks, sched, state, pc, place, ever, cleaned)
    }

    ghost predicate Valid()
      reads this
    {
      Inv(State())
    }

    /** Every CPU starts with its idle thread. */
    constructor (idles: map<nat, nat>)
      requires forall c, d | c in idles && d in idles && c != d :: idles[c] != idles[d]
      ensures Valid() && Init(State()) && idle == idles
    {
      cpus, idle, ready, waiters, locks, sched := idles, idles, [], map[], map[], None;
      state := map t | t in idles.Values :: RUNNING;
      pc := map t | t in idles.Values :: Normal;
      place := map t | t in idles.Values :: Running;
      ever, cleaned := idles.Values, [];
      new;
      InitInv(State());
    }

    /** `condvar_wait` up to sched_lock: the thread joins the waiters while it holds the lock. */
    method CondvarWait(t: nat, cv: nat)
      requires Valid() && Enabled(State(), Enqueue(t, cv))
      modifies this
      ensures Valid() && State() == Apply(old(State()), Enqueue(t, cv))
    {
      EnqueueKeeps(State(), t, cv);
      JoinWaiters(t, cv);
    }

    method JoinWaiters(t: nat, cv: nat)
      modifies `waiters, `pc, `place
      ensures waiters == old(waiters)[cv := Waiters(old(State()), cv) + [t]]
      ensures pc == old(pc)[t := Queued(cv)] && place == old(place)[t := Waiting(cv)]
    {
      waiters := waiters[cv := (if cv in waiters then waiters[cv] else []) + [t]];
      pc := pc[t := Queued(cv)];
      place := place[t := Waiting(cv)];
    }

    /** `sched_sched(SLEEPING, lock)`: sched_lock is taken while the lock is still held. */
    method TakeSchedLock(t: nat)
      requires Valid() && Enabled(State(), TakeSched(t))
      modifies this
      ensures Valid() && State() == Apply(old(State()), TakeSched(t))
    {
      TakeSchedKeeps(State(), t);
      sched := Some(t);
      pc := pc[t := Leaving(pc[t].cv)];
    }

    /** Then the lock is released and the thread is asleep, but for the switch. */
    method ReleaseAndSleep(t: nat)
      requires Valid() && Enabled(State(), DropLock(t))
      modifies this
      ensures Valid() && State() == Apply(old(State()), DropLock(t))
      ensures old(pc)[t].cv !in locks && (forall d | d != old(pc)[t].cv :: d in locks <==> d in old(locks))
      ensures forall d | d in locks :: locks[d] == old(locks)[d]
    {
      DropLockKeeps(State(), t);
      locks := locks - {pc[t].cv};
      state := state[t := SLEEPING];
      pc := pc[t := Picking];
    }

    /** `sched_sched(READY, NULL)` up to the switch; with nothing ready the thread goes on. */
    method SchedYield(t: nat, c: nat)
      requires Valid() && Enabled(State(), Yield(t)) && c in cpus && cpus[c] == t && c in idle
      modifies this
      ensures Valid() && State() == Apply(old(State()), Yield(t))
    {
      YieldKeeps(State(), t);
      OwnIdle(State(), c);
      if ready != [] {
        QueueSelf(t, idle[c] == t);
      }
    }

    method QueueSelf(t: nat, isIdle: bool)
      requires isIdle == IsIdle(State(), t) && ready != []
      modifies `ready, `place, `sched, `state, `pc
      ensures State() == YieldStep(old(State()), t)
    {
      if !isIdle {
        ready := ready + [t];
        place := place[t := InReady];
      } else {
        place := place[t := Parked];
      }
      sched := Some(t);
      state := state[t := READY];
      pc := pc[t := Picking];
    }

    /** `thread_exit` up to the switch. */
    method SchedExit(t: nat)
      requires Valid() && Enabled(State(), Exit(t))
      modifies this
      ensures Valid() && State() == Apply(old(State()), Exit(t))
    {
      ExitKeeps(State(), t);
      MarkZombie(t);
    }

    method MarkZombie(t: nat)
      modifies `sched, `state, `pc, `place
      ensures State() == SetPc(old(State()), t, Picking).(sched := Some(t), state := old(state)[t := ZOMBIE], place := old(place)[t := Dead(None)])
    {
      sched := Some(t);
      state := state[t := ZOMBIE];
      pc := pc[t := Picking];
      place := place[t := Dead(None)];
    }

    /** `sched`: the head of the ready queue or the idle thread takes the CPU, and answers for sched_lock. */
    method Switch(c: nat) returns (next: nat)
      requires Valid() && Enabled(State(), Sched.Switch(c))
      modifies this
      ensures Valid() && State() == Apply(old(State()), Sched.Switch(c))
      ensures next == cpus[c] && next == Chosen(old(State()), c) && old(state)[next] == READY && next != old(cpus[c])
    {
      SwitchKeeps(State(), c);
      ChosenOk(State(), c);
      assert ThreadOk(State(), cpus[c]);
      next := TakeCpu(c);
    }

    method TakeCpu(c: nat) returns (next: nat)
      requires c in cpus && c in idle && cpus[c] in place && Chosen(State(), c) in pc
      modifies `ready, `place, `state, `cpus, `pc, `sched
      ensures State() == SwitchStep(old(State()), c) && next == Chosen(old(State()), c)
    {
      var t := cpus[c];
      if ready != [] {
        next := ready[0];
        ready := ready[1..];
      } else {
        next := idle[c];
      }
      var first := pc[next].Fresh?;
      place := place[next := Running][t := if place[t].Dead? && !first then Dead(Some(next)) else place[t]];
      state := state[next := RUNNING];
      cpus := cpus[c := next];
      pc := pc[t := Out][next := if first then Starting else Resumed(t)];
      sched := Some(next);
    }

    /** After the switch: sched_lock is released, and a thread that ended is left to clean up. */
    method AfterSwitch(t: nat) returns (dying: Option<nat>)
      requires Valid() && Enabled(State(), ReleaseSched(t))
      modifies this
      ensures Valid() && State() == Apply(old(State()), ReleaseSched(t))
      ensures dying.Some? <==> pc[t] == Cleaning(if dying.Some? then dying.value else 0)
    {
      ReleaseSchedKeeps(State(), t);
      assert ThreadOk(State(), t);
      dying := None;
      if pc[t].Resumed? && state[pc[t].prev] == ZOMBIE {
        dying := Some(pc[t].prev);
      }
      sched := None;
      pc := pc[t := if dying.Some? then Cleaning(dying.value) else Normal];
    }

    /** `thread_cleanup`. */
    method ThreadCleanup(t: nat)
      requires Valid() && Enabled(State(), CleanUp(t))
      modifies this
      ensures Valid() && State() == Apply(old(State()), CleanUp(t))
    {
      CleanUpKeeps(State(), t);
      var d := pc[t].dying;
      pc := pc[t := Normal] - {d};
      state := state - {d};
      place, cleaned := place - {d}, cleaned + [d];
    }

    /** `condvar_signal`, its two halves in a row: the first waiter, if any, becomes ready. */
    method CondvarSignal(t: nat, cv: nat)
      requires Valid() && CanSignal(State(), t, cv)
      modifies `waiters, `ready, `state, `place
      ensures Valid() && CanSignal(State(), t, cv)
      ensures State() == if Waiters(old(State()), cv) == [] then old(State()) else SignalOnce(old(State()), cv)
    {
      if cv in waiters && waiters[cv] != [] {
        SignalOnceKeeps(State(), t, cv);
        WakeFirst(cv);
      }
    }

    method WakeFirst(cv: nat)
      requires cv in waiters && waiters[cv] != []
      modifies `waiters, `ready, `state, `place
      ensures State() == SignalOnce(old(State()), cv)
    {
      var w := waiters[cv][0];
      waiters := waiters[cv := waiters[cv][1..]];
      SchedReady(w);
    }

    /** `condvar_broadcast`: every waiter becomes ready, in order. */
    method CondvarBroadcast(t: nat, cv: nat)
      requires Valid() && CanSignal(State(), t, cv)
      modifies `waiters, `ready, `state, `place
      ensures Valid() && Woken(old(State()), State(), cv, |Waiters(old(State()), cv)|)
    {
      ghost var s, k := State(), 0;
      while cv in waiters && waiters[cv] != []
        invariant Valid() && CanSignal(State(), t, cv) && k <= |Waiters(s, cv)| && Woken(s, State(), cv, k)
        decreases |Waiters(s, cv)| - k
      {
        WokenNext(s, State(), cv, k);
        CondvarSignal(t, cv);
        k := k + 1;
      }
    }

    /** `sched_ready` of a new thread. */
    method StartThread(t: nat, u: nat)
      requires Valid() && Enabled(State(), Start(t, u))
      modifies this
      ensures Valid() && State() == Apply(old(State()), Start(t, u))
    {
      StartKeeps(State(), t, u);
      SchedReady(u);
      pc := pc[u := Fresh];
      ever := ever + {u};
    }

    /** `sched_ready`. */
    method SchedReady(u: nat)
      modifies `state, `ready, `place
      ensures state == old(state)[u := READY] && ready == old(ready) + [u] && place == old(place)[u := InReady]
    {
      state := state[u := READY];
      ready := ready + [u];
      place := place[u := InReady];
    }
  }

  /** Thread t holds the lock of the condition variable and no thread is in the scheduler. */
  ghost predicate CanSignal(s: Sys, t: nat, cv: nat)
  {
    AtPc(s, t, Normal) && cv in s.locks && s.locks[cv] == t && s.sched.None?
  }

  /** The first waiter becomes ready. */
  ghost function SignalOnce(s: Sys, cv: nat): Sys
    requires Waiters(s, cv) != []
  {
    var w := Waiters(s, cv)[0];
    s.(waiters := s.waiters[cv := Waiters(s, cv)[1..]], ready := s.ready + [w], state := s.state[w := READY],
       place := s.place[w := InReady])
  }

  /** That is the two steps of a signal, one after the other. */
  lemma SignalOnceKeeps(s: Sys, t: nat, cv: nat)
    requires Inv(s) && CanSignal(s, t, cv) && Waiters(s, cv) != []
    ensures Enabled(s, SignalPop(t, cv)) && Enabled(Apply(s, SignalPop(t, cv)), SignalReady(t))
    ensures SignalOnce(s, cv) == Apply(Apply(s, SignalPop(t, cv)), SignalReady(t)) && Inv(SignalOnce(s, cv))
  {
    SignalPopKeeps(s, t, cv);
    SignalTwoSteps(s, t, cv);
    SignalReadyKeeps(Apply(s, SignalPop(t, cv)), t);
  }

  lemma SignalTwoSteps(s: Sys, t: nat, cv: nat)
    requires CanSignal(s, t, cv) && Waiters(s, cv) != []
    ensures Enabled(s, SignalPop(t, cv)) && Enabled(Apply(s, SignalPop(t, cv)), SignalReady(t))
    ensures SignalOnce(s, cv) == Apply(Apply(s, SignalPop(t, cv)), SignalReady(t))
  {
    assert s.pc[t := Signalling(cv, Waiters(s, cv)[0])][t := Normal] == s.pc;
  }

  /** The first k waiters have gone to the end of the ready queue, in order; no other list changed. */
  ghost predicate Woken(s: Sys, r: Sys, cv: nat, k: nat)
  {
    && k <= |Waiters(s, cv)| && Waiters(r, cv) == Waiters(s, cv)[k..] && r.ready == s.ready + Waiters(s, cv)[..k]
    && forall d | d != cv :: Waiters(r, d) == Waiters(s, d)
  }

  lemma WokenNext(s: Sys, r: Sys, cv: nat, k: nat)
    requires Woken(s, r, cv, k) && Waiters(r, cv) != []
    ensures k < |Waiters(s, cv)| && Woken(s, SignalOnce(r, cv), cv, k + 1)
  {
    var l, r' := Waiters(s, cv), SignalOnce(r, cv);
    assert l[..k + 1] == l[..k] + [l[k]] && l[k..][1..] == l[k + 1..];
    forall d | d != cv ensures Waiters(r', d) == Waiters(s, d) {
      assert Waiters(r, d) == Waiters(s, d);
    }
  }

  /** The thread on a CPU is idle exactly if it is that CPU's idle thread. */
  lemma OwnIdle(s: Sys, c: nat)
    requires Inv(s) && c in s.cpus && c in s.idle
    ensures IsIdle(s, s.cpus[c]) <==> s.idle[c] == s.cpus[c]
  {
    assert CpuOk(s, c);
  }
}
