/**
 * Shared-memory contexts as a state machine. A step is one critical section
 * under the table lock; an unmapping takes two, with the region unmapped
 * between them. Each process has one thread, which names its address space.
 */
module ShmState {
  import opened Basics
  import opened NatLists

  /** A reverse mapping: an address space and the range it maps. */
  datatype Entry = Entry(as_: nat, start: nat, end: nat)

  datatype Ctx = Ctx(name: string, persist: bool, refcnt: nat, owner: Option<nat>, rmap: seq<Entry>)

  datatype Pc = Idle | Unmapping(ctx: nat, force: bool) | Blocked(ctx: nat)

  datatype Sys = Sys(ctxs: map<nat, Ctx>, table: seq<nat>, pc: map<nat, Pc>, freed: seq<nat>, used: set<nat>)

  /** The threads that have taken their entry out and not given up their reference. */
  ghost function InFlight(s: Sys, c: nat): set<nat>
  {
    set t | t in s.pc && s.pc[t].Unmapping? && s.pc[t].ctx == c
  }

  predicate Maps(l: seq<Entry>, t: nat)
  {
    exists i :: 0 <= i < |l| && l[i].as_ == t
  }

  predicate IsIdle(s: Sys, t: nat)
  {
    t in s.pc && s.pc[t].Idle?
  }

  /** The thread of that space is not in a call: the space is the caller's own, or of a child that does not run. */
  predicate OutOfCall(s: Sys, who: nat)
  {
    who in s.pc ==> s.pc[who].Idle?
  }

  // --- Invariant ---

  ghost predicate CtxOk(s: Sys, c: nat)
    requires c in s.ctxs
  {
    c in s.table && c !in s.freed && c in s.used && s.ctxs[c].refcnt == |s.ctxs[c].rmap| + |InFlight(s, c)|
  }

  /** A context that a thread is inside of is there; a blocked thread still maps it. */
  ghost predicate ThreadOk(s: Sys, t: nat)
    requires t in s.pc
  {
    match s.pc[t]
    case Idle => true
    case Unmapping(c, _) => c in s.ctxs
    case Blocked(c) => c in s.ctxs && Maps(s.ctxs[c].rmap, t)
  }

  ghost predicate Inv(s: Sys)
  {
    && NoDup(s.table) && (forall c | c in s.table :: c in s.ctxs)
    && (forall c {:trigger CtxOk(s, c)} | c in s.ctxs :: CtxOk(s, c))
    && (forall t {:trigger ThreadOk(s, t)} | t in s.pc :: ThreadOk(s, t))
    && (forall c, d | c in s.ctxs && d in s.ctxs && s.ctxs[c].name == s.ctxs[d].name :: c == d)
    && NoDup(s.freed) && (forall c | c in s.freed :: c in s.used)
  }

  // --- Steps ---

  datatype Step =
    | Create(t: nat, name: string, persist: bool, c: nat)
    | Destroy(t: nat, c: nat)
    | Map(t: nat, who: nat, c: nat, start: nat, end: nat)
    | UnmapBegin(t: nat, who: nat, c: nat, i: nat, force: bool)
    | UnmapEnd(t: nat)
    | Lock(t: nat, c: nat)
    | LockRetry(t: nat)
    | Unlock(t: nat, c: nat)

  ghost predicate Enabled(s: Sys, step: Step)
  {
    match step
    case Create(t, name, _, c) => IsIdle(s, t) && c !in s.used && forall d | d in s.ctxs :: s.ctxs[d].name != name
    case Destroy(t, c) => IsIdle(s, t) && c in s.ctxs && s.ctxs[c].refcnt == 0
    case Map(t, _, c, _, _) => IsIdle(s, t) && c in s.ctxs
    case UnmapBegin(t, who, c, i, _) =>
      IsIdle(s, t) && c in s.ctxs && i < |s.ctxs[c].rmap| && s.ctxs[c].rmap[i].as_ == who && OutOfCall(s, who)
    case UnmapEnd(t) => t in s.pc && s.pc[t].Unmapping? && s.pc[t].ctx in s.ctxs && s.ctxs[s.pc[t].ctx].refcnt > 0
    case Lock(t, c) => IsIdle(s, t) && c in s.ctxs && Maps(s.ctxs[c].rmap, t)
    case LockRetry(t) => t in s.pc && s.pc[t].Blocked? && s.pc[t].ctx in s.ctxs
    case Unlock(t, c) => IsIdle(s, t) && c in s.ctxs && Maps(s.ctxs[c].rmap, t) && s.ctxs[c].owner == Some(t)
  }

  ghost function Remove(s: Sys, c: nat): Sys
  {
    s.(ctxs := s.ctxs - {c}, table := Without(s.table, c), freed := s.freed + [c])
  }

  /** The lock is taken if it is free or already ours; otherwise the thread waits. */
  ghost function TryLock(s: Sys, t: nat, c: nat): Sys
    requires c in s.ctxs
  {
    if s.ctxs[c].owner == None || s.ctxs[c].owner == Some(t) then
      s.(ctxs := s.ctxs[c := s.ctxs[c].(owner := Some(t))], pc := s.pc[t := Idle])
    else s.(pc := s.pc[t := Blocked(c)])
  }

  ghost function Apply(s: Sys, step: Step): Sys
    requires Enabled(s, step)
  {
    match step
    case Create(_, name, persist, c) =>
      s.(ctxs := s.ctxs[c := Ctx(name, persist, 0, None, [])], table := s.table + [c], used := s.used + {c})
    case Destroy(_, c) => Remove(s, c)
    case Map(_, who, c, start, end) =>
      var x := s.ctxs[c];
      s.(ctxs := s.ctxs[c := x.(rmap := x.rmap + [Entry(who, start, end)], refcnt := x.refcnt + 1)])
    case UnmapBegin(t, _, c, i, force) =>
      var x := s.ctxs[c];
      s.(ctxs := s.ctxs[c := x.(rmap := x.rmap[..i] + x.rmap[i + 1..])], pc := s.pc[t := Unmapping(c, force)])
    case UnmapEnd(t) => UnmapEndStep(s, t)
    case Lock(t, c) => TryLock(s, t, c)
    case LockRetry(t) => TryLock(s, t, s.pc[t].ctx)
    case Unlock(_, c) => s.(ctxs := s.ctxs[c := s.ctxs[c].(owner := None)])
  }

  /** The reference goes, and the context with it if it was the last and the owner is exiting. */
  ghost function UnmapEndStep(s: Sys, t: nat): Sys
    requires Enabled(s, UnmapEnd(t))
  {
    var (c, r) := (s.pc[t].ctx, DropRef(s, t));
    if r.ctxs[c].refcnt == 0 && !r.ctxs[c].persist && s.pc[t].force then Remove(r, c) else r
  }

  ghost function DropRef(s: Sys, t: nat): Sys
    requires Enabled(s, UnmapEnd(t))
  {
    var c := s.pc[t].ctx;
    s.(ctxs := s.ctxs[c := s.ctxs[c].(refcnt := s.ctxs[c].refcnt - 1)], pc := s.pc[t := Idle])
  }

  // --- Every step keeps the invariant ---

  /** An unmapping in flight holds a reference. */
  lemma FlightCounts(s: Sys, t: nat)
    requires Inv(s) && t in s.pc && s.pc[t].Unmapping?
    ensures s.pc[t].ctx in s.ctxs && s.ctxs[s.pc[t].ctx].refcnt > 0
  {
    assert ThreadOk(s, t) && CtxOk(s, s.pc[t].ctx);
    assert t in InFlight(s, s.pc[t].ctx);
  }

  lemma RemoveKeeps(s: Sys, c: nat)
    requires Inv(s) && c in s.ctxs && s.ctxs[c].refcnt == 0
    ensures Inv(Remove(s, c))
  {
    var r := Remove(s, c);
    assert CtxOk(s, c);
    WithoutList(s.table, c);
    forall d | d in r.ctxs ensures CtxOk(r, d) {
      assert CtxOk(s, d) && InFlight(r, d) == InFlight(s, d);
    }
    forall t | t in r.pc ensures ThreadOk(r, t) {
      assert ThreadOk(s, t);
      assert s.pc[t].Unmapping? && s.pc[t].ctx == c ==> t in InFlight(s, c);
    }
  }

  /** One context changes, its name and its count of references and entries in step. */
  lemma ChangeKeeps(s: Sys, c: nat, x: Ctx)
    requires Inv(s) && c in s.ctxs && x.name == s.ctxs[c].name
    requires x.refcnt - |x.rmap| == s.ctxs[c].refcnt - |s.ctxs[c].rmap|
    requires forall t | Maps(s.ctxs[c].rmap, t) :: Maps(x.rmap, t)
    ensures Inv(s.(ctxs := s.ctxs[c := x]))
  {
    var r := s.(ctxs := s.ctxs[c := x]);
    forall d | d in r.ctxs ensures CtxOk(r, d) {
      assert CtxOk(s, d) && InFlight(r, d) == InFlight(s, d);
    }
    forall t | t in r.pc ensures ThreadOk(r, t) {
      assert ThreadOk(s, t);
    }
  }

  /** A thread goes idle or blocks, and none was in flight for it. */
  lemma PcKeeps(s: Sys, t: nat, p: Pc)
    requires Inv(s) && t in s.pc && !s.pc[t].Unmapping? && !p.Unmapping?
    requires p.Blocked? ==> p.ctx in s.ctxs && Maps(s.ctxs[p.ctx].rmap, t)
    ensures Inv(s.(pc := s.pc[t := p]))
  {
    var r := s.(pc := s.pc[t := p]);
    forall d | d in r.ctxs ensures CtxOk(r, d) {
      assert CtxOk(s, d) && InFlight(r, d) == InFlight(s, d);
    }
    forall u | u in r.pc ensures ThreadOk(r, u) {
      assert ThreadOk(s, u);
    }
  }

  lemma CreateKeeps(s: Sys, t: nat, name: string, persist: bool, c: nat)
    requires Inv(s) && Enabled(s, Create(t, name, persist, c))
    ensures Inv(Apply(s, Create(t, name, persist, c)))
  {
    var r := Apply(s, Create(t, name, persist, c));
    assert c in s.ctxs ==> CtxOk(s, c);
    forall u | u in r.pc ensures ThreadOk(r, u) {
      assert ThreadOk(s, u);
    }
    forall d | d in r.ctxs ensures CtxOk(r, d) {
      assert d in s.ctxs ==> CtxOk(s, d);
      assert InFlight(r, d) == InFlight(s, d);
      assert d == c ==> InFlight(s, d) == {} by {
        forall u | u in s.pc ensures !(s.pc[u].Unmapping? && s.pc[u].ctx == c) {
          assert ThreadOk(s, u);
        }
      }
    }
  }

  lemma UnmapBeginKeeps(s: Sys, t: nat, who: nat, c: nat, i: nat, force: bool)
    requires Inv(s) && Enabled(s, UnmapBegin(t, who, c, i, force))
    ensures Inv(Apply(s, UnmapBegin(t, who, c, i, force)))
  {
    var r := Apply(s, UnmapBegin(t, who, c, i, force));
    forall d | d in r.ctxs ensures CtxOk(r, d) {
      assert CtxOk(s, d);
      assert InFlight(r, d) == InFlight(s, d) + (if d == c then {t} else {});
    }
    forall u | u in r.pc ensures ThreadOk(r, u) {
      assert ThreadOk(s, u);
      if s.pc[u] == Blocked(c) {
        StillMaps(s.ctxs[c].rmap, i, u);
      }
    }
  }

  lemma StillMaps(l: seq<Entry>, i: nat, u: nat)
    requires i < |l| && Maps(l, u) && l[i].as_ != u
    ensures Maps(l[..i] + l[i + 1..], u)
  {
    var k :| 0 <= k < |l| && l[k].as_ == u;
    assert (l[..i] + l[i + 1..])[if k < i then k else k - 1] == l[k];
  }

  lemma DropRefKeeps(s: Sys, t: nat)
    requires Inv(s) && Enabled(s, UnmapEnd(t))
    ensures Inv(DropRef(s, t))
  {
    var c, r := s.pc[t].ctx, DropRef(s, t);
    assert ThreadOk(s, t);
    forall d | d in r.ctxs ensures CtxOk(r, d) {
      assert CtxOk(s, d) && t in InFlight(s, c);
      assert InFlight(r, d) == InFlight(s, d) - (if d == c then {t} else {});
    }
    forall u | u in r.pc ensures ThreadOk(r, u) {
      assert ThreadOk(s, u);
    }
  }

  lemma UnmapEndKeeps(s: Sys, t: nat)
    requires Inv(s) && Enabled(s, UnmapEnd(t))
    ensures Inv(Apply(s, UnmapEnd(t)))
  {
    var c, r := s.pc[t].ctx, DropRef(s, t);
    DropRefKeeps(s, t);
    if r.ctxs[c].refcnt == 0 && !r.ctxs[c].persist && s.pc[t].force {
      RemoveKeeps(r, c);
    }
  }

  lemma TryLockKeeps(s: Sys, t: nat, c: nat)
    requires Inv(s) && t in s.pc && !s.pc[t].Unmapping? && c in s.ctxs && Maps(s.ctxs[c].rmap, t)
    ensures Inv(TryLock(s, t, c))
  {
    if s.ctxs[c].owner == None || s.ctxs[c].owner == Some(t) {
      var x := s.ctxs[c].(owner := Some(t));
      ChangeKeeps(s, c, x);
      PcKeeps(s.(ctxs := s.ctxs[c := x]), t, Idle);
    } else {
      PcKeeps(s, t, Blocked(c));
    }
  }

  lemma StepKeeps(s: Sys, step: Step)
    requires Inv(s) && Enabled(s, step)
    ensures Inv(Apply(s, step))
  {
    match step
    case Create(t, name, persist, c) => CreateKeeps(s, t, name, persist, c);
    case Destroy(t, c) => RemoveKeeps(s, c);
    case Map(t, who, c, start, end) =>
      var x := s.ctxs[c];
      var y := x.(rmap := x.rmap + [Entry(who, start, end)], refcnt := x.refcnt + 1);
      forall u | Maps(x.rmap, u) ensures Maps(y.rmap, u) {
        var k :| 0 <= k < |x.rmap| && x.rmap[k].as_ == u;
        assert y.rmap[k] == x.rmap[k];
      }
      ChangeKeeps(s, c, y);
    case UnmapBegin(t, who, c, i, force) => UnmapBeginKeeps(s, t, who, c, i, force);
    case UnmapEnd(t) => UnmapEndKeeps(s, t);
    case Lock(t, c) => TryLockKeeps(s, t, c);
    case LockRetry(t) =>
      assert ThreadOk(s, t);
      TryLockKeeps(s, t, s.pc[t].ctx);
    case Unlock(t, c) => ChangeKeeps(s, c, s.ctxs[c].(owner := None));
  }

  // --- Every interleaving ---

  ghost predicate Init(s: Sys)
  {
    s.ctxs == map[] && s.table == [] && s.freed == [] && s.used == {} && forall t | t in s.pc :: s.pc[t].Idle?
  }

  ghost predicate Trace(states: seq<Sys>, steps: seq<Step>)
  {
    && |states| == |steps| + 1 && Init(states[0])
    && forall i | 0 <= i < |steps| :: Enabled(states[i], steps[i]) && states[i + 1] == Apply(states[i], steps[i])
  }

  lemma {:induction false} TraceInv(states: seq<Sys>, steps: seq<Step>, i: nat)
    requires Trace(states, steps) && i < |states|
    ensures Inv(states[i])
  {
    if i > 0 {
      TraceInv(states, steps, i - 1);
      assert states[i - 1 + 1] == Apply(states[i - 1], steps[i - 1]);
      StepKeeps(states[i - 1], steps[i - 1]);
    }
  }

  /** A reference is an entry or an unmapping in flight. */
  lemma RefsCounted(states: seq<Sys>, steps: seq<Step>, i: nat, c: nat)
    requires Trace(states, steps) && i < |states| && c in states[i].ctxs
    ensures states[i].ctxs[c].refcnt == |states[i].ctxs[c].rmap| + |InFlight(states[i], c)|
    ensures forall d | d in states[i].ctxs && states[i].ctxs[d].name == states[i].ctxs[c].name :: d == c
  {
    TraceInv(states, steps, i);
    assert CtxOk(states[i], c);
  }

  /** A context goes only when no one maps it and no unmapping is in flight, and only once. */
  lemma FreedUnmapped(states: seq<Sys>, steps: seq<Step>, i: nat, c: nat)
    requires Trace(states, steps) && i < |steps| && c in states[i].ctxs && c !in states[i + 1].ctxs
    ensures states[i].ctxs[c].rmap == [] && InFlight(states[i + 1], c) == {} && c !in states[i].freed
    ensures NoDup(states[i + 1].freed) && c in states[i + 1].freed
  {
    TraceInv(states, steps, i);
    TraceInv(states, steps, i + 1);
    var s, r := states[i], states[i + 1];
    assert Enabled(s, steps[i]) && r == Apply(s, steps[i]) && CtxOk(s, c);
    forall t | t in r.pc ensures !(r.pc[t].Unmapping? && r.pc[t].ctx == c) {
      assert ThreadOk(r, t);
    }
    if steps[i].UnmapEnd? {
      assert steps[i].t in InFlight(s, c);
      assert InFlight(s, c) >= {steps[i].t};
      CardAtLeast(InFlight(s, c), steps[i].t);
    }
  }

  lemma CardAtLeast(a: set<nat>, t: nat)
    requires t in a
    ensures |a| >= 1
  {
  }

  /** The lock has one owner, and only that owner's unlock clears it, or the end of the context. */
  lemma OwnerKeeps(states: seq<Sys>, steps: seq<Step>, i: nat, c: nat)
    requires Trace(states, steps) && i < |steps| && c in states[i].ctxs && states[i].ctxs[c].owner.Some?
    ensures c in states[i + 1].ctxs && states[i + 1].ctxs[c].owner != states[i].ctxs[c].owner ==>
      steps[i] == Unlock(states[i].ctxs[c].owner.value, c) && states[i + 1].ctxs[c].owner.None?
  {
    TraceInv(states, steps, i);
    assert Enabled(states[i], steps[i]) && CtxOk(states[i], c);
  }

  /** The owner's unlock frees the lock: whoever maps the context and tries next has it, and does not wait. */
  lemma UnlockFrees(states: seq<Sys>, steps: seq<Step>, i: nat, u: nat)
    requires Trace(states, steps) && i < |steps| && steps[i].Unlock?
    ensures var (r, c) := (states[i + 1], steps[i].c);
            && c in r.ctxs && r.ctxs[c].owner == None
            && (IsIdle(r, u) && Maps(r.ctxs[c].rmap, u) ==> Enabled(r, Lock(u, c)) && Owns(Apply(r, Lock(u, c)), u, c))
            && (u in r.pc && r.pc[u] == Blocked(c) ==> Enabled(r, LockRetry(u)) && Owns(Apply(r, LockRetry(u)), u, c))
  {
    TraceInv(states, steps, i + 1);
    assert Enabled(states[i], steps[i]);
  }

  /** The thread has the lock and goes on. */
  ghost predicate Owns(s: Sys, u: nat, c: nat)
  {
    c in s.ctxs && s.ctxs[c].owner == Some(u) && IsIdle(s, u)
  }

  /** Unmapping what was just mapped undoes the mapping, but for a context that goes with its last reference. */
  lemma MapThenUnmap(s: Sys, t: nat, c: nat, start: nat, end: nat, force: bool)
    requires Inv(s) && Enabled(s, Map(t, t, c, start, end))
    ensures var (s1, n) := (Apply(s, Map(t, t, c, start, end)), |s.ctxs[c].rmap|);
            && Enabled(s1, UnmapBegin(t, t, c, n, force)) && s1.ctxs[c].rmap[n] == Entry(t, start, end)
            && var s2 := Apply(s1, UnmapBegin(t, t, c, n, force));
            && Enabled(s2, UnmapEnd(t))
            && var s3 := Apply(s2, UnmapEnd(t));
            if s.ctxs[c].refcnt == 0 && !s.ctxs[c].persist && force then s3.ctxs == s.ctxs - {c} && c in s3.freed && c !in s3.table else s3 == s
  {
    var s1, n := Apply(s, Map(t, t, c, start, end)), |s.ctxs[c].rmap|;
    var s2 := Apply(s1, UnmapBegin(t, t, c, n, force));
    assert CtxOk(s, c);
    WithoutList(s.table, c);
    assert s2.ctxs[c].rmap == s.ctxs[c].rmap;
    assert s2.pc[t := Idle] == s.pc;
    assert DropRef(s2, t).ctxs == s.ctxs;
  }

  /** Destroying what was just created leaves only the used-up address behind. */
  lemma CreateThenDestroy(s: Sys, t: nat, name: string, persist: bool, c: nat)
    requires Inv(s) && Enabled(s, Create(t, name, persist, c))
    ensures var r := Apply(s, Create(t, name, persist, c));
            && c in r.ctxs && r.ctxs[c].name == name && r.ctxs[c].persist == persist && c in r.table
            && Enabled(r, Destroy(t, c)) && Apply(r, Destroy(t, c)) == s.(used := s.used + {c}, freed := s.freed + [c])
  {
    var r := Apply(s, Create(t, name, persist, c));
    assert c in s.ctxs ==> CtxOk(s, c);
    assert c !in s.table;
    WithoutAt(r.table, |s.table|);
    assert r.table[..|s.table|] + r.table[|s.table| + 1..] == s.table;
    assert r.ctxs - {c} == s.ctxs;
  }

  /** A thread blocked on the lock finds its context in place when it resumes. */
  lemma ResumesOnLive(states: seq<Sys>, steps: seq<Step>, i: nat, t: nat)
    requires Trace(states, steps) && i < |states| && t in states[i].pc && states[i].pc[t].Blocked?
    ensures var c := states[i].pc[t].ctx; c in states[i].ctxs && Maps(states[i].ctxs[c].rmap, t)
    ensures Enabled(states[i], LockRetry(t))
  {
    TraceInv(states, steps, i);
    assert ThreadOk(states[i], t);
  }

  /** A thread that has unmapped its region finds the context in place, with its reference counted. */
  lemma UnmapSafe(states: seq<Sys>, steps: seq<Step>, i: nat, t: nat)
    requires Trace(states, steps) && i < |states| && t in states[i].pc && states[i].pc[t].Unmapping?
    ensures Enabled(states[i], UnmapEnd(t))
  {
    TraceInv(states, steps, i);
    FlightCounts(states[i], t);
  }
}
