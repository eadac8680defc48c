/** The shared-memory calls: each critical section is one step of the state machine. */
module Shm {
  import opened Basics
  import opened NatLists
  import opened ShmState

  datatype Err = Ok | NotExist | Exist | Mapped | NoMem | Invalid | Blocks

  class Regions {
    var ctxs: map<nat, Ctx>
    var table: seq<nat>
    var pc: map<nat, Pc>
    ghost var freed: seq<nat>
    ghost var used: set<nat>

    ghost function State(): Sys
      reads this
    {
      Sys(ctxs, table, pc, freed, used)
    }

    ghost predicate Valid()
      reads this
    {
      Inv(State())
    }

    constructor (threads: set<nat>)
      ensures Valid() && Init(State()) && pc.Keys == threads
    {
      ctxs, table, pc := map[], [], map t | t in threads :: Idle;
      freed, used := [], {};
    }

    /** A context by name; if `mapped`, only one that thread t maps. */
    method GetContextByHandle(name: string, mapped: bool, t: nat) returns (c: Option<nat>)
      requires Valid()
      ensures c.Some? ==> c.value in ctxs && ctxs[c.value].name == name && (mapped ==> Maps(ctxs[c.value].rmap, t))
      ensures c.None? ==> forall d | d in ctxs && ctxs[d].name == name :: mapped && !Maps(ctxs[d].rmap, t)
    {
      c := None;
      for i := 0 to |table|
        invariant c.None? && forall k | 0 <= k < i :: ctxs[table[k]].name != name
      {
        if ctxs[table[i]].name == name {
          c := Some(table[i]);
          break;
        }
      }
      forall d | d in ctxs ensures d in table {
        assert CtxOk(State(), d);
      }
      if c.Some? && mapped {
        var l, found := ctxs[c.value].rmap, false;
        for i := 0 to |l|
          invariant !found && forall k | 0 <= k < i :: l[k].as_ != t
        {
          if l[i].as_ == t {
            found := true;
            break;
          }
        }
        if !found {
          c := None;
        }
      }
    }

    /** `createSharedRegion`; c is the address of the new context, if there is memory for one. */
    method CreateSharedRegion(t: nat, name: string, persist: bool, c: Option<nat>) returns (r: Err)
      requires Valid() && IsIdle(State(), t) && (c.Some? ==> c.value !in used)
      modifies this
      ensures Valid()
      ensures r == if exists d :: d in old(ctxs) && old(ctxs)[d].name == name then Exist else if c.None? then NoMem else Ok
      ensures r.Ok? ==> Enabled(old(State()), Create(t, name, persist, c.value))
      ensures r.Ok? ==> State() == Apply(old(State()), Create(t, name, persist, c.value))
      ensures !r.Ok? ==> State() == old(State())
    {
      var d := GetContextByHandle(name, false, 0);
      if d.Some? {
        return Exist;
      }
      if c.None? {
        return NoMem;
      }
      StepKeeps(State(), Create(t, name, persist, c.value));
      ctxs := ctxs[c.value := Ctx(name, persist, 0, None, [])];
      table := table + [c.value];
      used := used + {c.value};
      r := Ok;
    }

    /** The context is unlinked and freed. */
    method RemoveContext(c: nat)
      modifies `ctxs, `table, `freed
      ensures State() == Remove(old(State()), c)
    {
      ctxs := ctxs - {c};
      table := Without(table, c);
      freed := freed + [c];
    }

    /** `destroySharedRegion`: the flag it passes lets it take persistent regions too. */
    method DestroySharedRegion(t: nat, name: string) returns (r: Err)
      requires Valid() && IsIdle(State(), t)
      modifies this
      ensures Valid() && (!r.Ok? ==> State() == old(State()))
      ensures r.NotExist? <==> forall c | c in old(ctxs) :: old(ctxs)[c].name != name
      ensures r.Ok? || r.NotExist? || r.Mapped?
      ensures forall c | c in old(ctxs) && old(ctxs)[c].name == name ::
        if old(ctxs)[c].refcnt == 0 then r.Ok? && State() == Apply(old(State()), Destroy(t, c)) else r.Mapped?
    {
      var d := GetContextByHandle(name, false, 0);
      if d.None? {
        return NotExist;
      }
      var c := d.value;
      if ctxs[c].refcnt != 0 {
        return Mapped;
      }
      StepKeeps(State(), Destroy(t, c));
      RemoveContext(c);
      r := Ok;
    }

    /** `createMapping`: the context is looked up by its name. */
    method CreateMapping(t: nat, name: string, range: Option<(nat, nat)>) returns (r: Err)
      requires Valid() && IsIdle(State(), t)
      modifies `ctxs
      ensures Valid() && (!r.Ok? ==> State() == old(State()))
      ensures r.NotExist? <==> forall c | c in old(ctxs) :: old(ctxs)[c].name != name
      ensures r.NoMem? <==> !r.NotExist? && range.None?
      ensures r.Ok? <==> !r.NotExist? && range.Some?
      ensures forall c | c in old(ctxs) && old(ctxs)[c].name == name && range.Some? ::
        State() == Apply(old(State()), Map(t, t, c, range.value.0, range.value.1))
    {
      var found := GetContextByHandle(name, false, t);
      if found.None? {
        return NotExist;
      }
      assert forall c | c in ctxs && ctxs[c].name == name :: c == found.value;
      r := AddMapping(t, t, found.value, range);
    }

    /**
     * `createMapping_Internal`, also for `addContextRef`: `range` is where the
     * address space could map the region, if it could.
     */
    method AddMapping(t: nat, who: nat, c: nat, range: Option<(nat, nat)>) returns (r: Err)
      requires Valid() && IsIdle(State(), t) && c in ctxs
      modifies `ctxs
      ensures Valid() && r == if range.None? then NoMem else Ok
      ensures r.Ok? ==> State() == Apply(old(State()), Map(t, who, c, range.value.0, range.value.1))
      ensures r.Ok? ==> |ctxs[c].rmap| > 0 && var e := ctxs[c].rmap[|ctxs[c].rmap| - 1]; e.as_ == who && e.start == range.value.0 && e.end == range.value.1
      ensures !r.Ok? ==> State() == old(State())
    {
      if range.None? {
        return NoMem;
      }
      var (start, end) := range.value;
      StepKeeps(State(), Map(t, who, c, start, end));
      var x := ctxs[c];
      ctxs := ctxs[c := x.(rmap := x.rmap + [Entry(who, start, end)], refcnt := x.refcnt + 1)];
      r := Ok;
    }

    /**
     * `find_remove_rmapping`, the first half of an unmapping; without a match
     * nothing happens. A fork or spawn that fails unmaps what its child has.
     */
    method UnmapFirst(t: nat, who: nat, c: nat, vaddr: nat, force: bool) returns (r: Err, ghost at: nat)
      requires Valid() && IsIdle(State(), t) && OutOfCall(State(), who) && c in ctxs
      modifies `ctxs, `pc
      ensures Valid() && (r.Ok? || r.NotExist?)
      ensures r.NotExist? ==> State() == old(State())
      ensures r.NotExist? ==> forall e | e in ctxs[c].rmap && e.as_ == who :: vaddr < e.start || e.end <= vaddr
      ensures r.Ok? ==> at < |old(ctxs)[c].rmap| && var e := old(ctxs)[c].rmap[at]; e.as_ == who && e.start <= vaddr < e.end
      ensures r.Ok? ==> State() == Apply(old(State()), UnmapBegin(t, who, c, at, force))
    {
      var l := ctxs[c].rmap;
      for i := 0 to |l|
        invariant State() == old(State()) && forall k | 0 <= k < i :: !Covers(l[k], who, vaddr)
      {
        if Covers(l[i], who, vaddr) {
          StepKeeps(State(), UnmapBegin(t, who, c, i, force));
          ctxs := ctxs[c := ctxs[c].(rmap := l[..i] + l[i + 1..])];
          pc := pc[t := Unmapping(c, force)];
          assert State() == Apply(old(State()), UnmapBegin(t, who, c, i, force));
          return Ok, i;
        }
      }
      r, at := NotExist, 0;
    }

    /** `destroyMapping_Internal` after the region is unmapped. */
    method UnmapSecond(t: nat)
      requires Valid() && t in pc && pc[t].Unmapping?
      modifies this
      ensures Valid() && Enabled(old(State()), UnmapEnd(t)) && State() == Apply(old(State()), UnmapEnd(t))
    {
      FlightCounts(State(), t);
      UnmapEndKeeps(State(), t);
      var c, force := pc[t].ctx, pc[t].force;
      var x := ctxs[c].(refcnt := ctxs[c].refcnt - 1);
      ctxs, pc := ctxs[c := x], pc[t := Idle];
      if x.refcnt == 0 && !x.persist && force {
        RemoveContext(c);
      }
    }

    /** One pass of the loop in `lockRegion`, entered or resumed. */
    method LockRegion(t: nat, name: string) returns (r: Err, ghost at: nat)
      requires Valid() && IsIdle(State(), t)
      modifies this
      ensures Valid() && (r.Ok? || r.NotExist? || r.Blocks?) && (r.NotExist? ==> State() == old(State()))
      ensures r.NotExist? ==> forall c | c in ctxs && ctxs[c].name == name :: !Maps(ctxs[c].rmap, t)
      ensures !r.NotExist? ==> at in old(ctxs) && old(ctxs)[at].name == name && Enabled(old(State()), Lock(t, at))
      ensures !r.NotExist? ==> State() == Apply(old(State()), Lock(t, at))
      ensures r.Ok? <==> !r.NotExist? && (old(ctxs)[at].owner == None || old(ctxs)[at].owner == Some(t))
      ensures r.Ok? ==> at in ctxs && ctxs[at].owner == Some(t) && IsIdle(State(), t)
      ensures r.Blocks? ==> ctxs == old(ctxs) && pc == old(pc)[t := Blocked(at)]
    {
      var d := GetContextByHandle(name, true, t);
      if d.None? {
        return NotExist, 0;
      }
      var c := d.value;
      at := c;
      TryLockKeeps(State(), t, c);
      r := TakeOrWait(t, c);
      assert State() == Apply(old(State()), Lock(t, c));
    }

    method TakeOrWait(t: nat, c: nat) returns (r: Err)
      requires Valid() && t in pc && !pc[t].Unmapping? && c in ctxs && Maps(ctxs[c].rmap, t)
      modifies `ctxs, `pc
      ensures Valid() && State() == TryLock(old(State()), t, c)
      ensures r.Ok? <==> old(ctxs)[c].owner == None || old(ctxs)[c].owner == Some(t)
      ensures if r.Ok? then c in ctxs && ctxs[c].owner == Some(t) && IsIdle(State(), t) else r.Blocks? && ctxs == old(ctxs) && pc == old(pc)[t := Blocked(c)]
    {
      TryLockKeeps(State(), t, c);
      if ctxs[c].owner != Some(t) && ctxs[c].owner != None {
        pc := pc[t := Blocked(c)];
        return Blocks;
      }
      ctxs, pc := ctxs[c := ctxs[c].(owner := Some(t))], pc[t := Idle];
      r := Ok;
    }

    /** The waiting thread looks again. */
    method ResumeLock(t: nat) returns (r: Err)
      requires Valid() && t in pc && pc[t].Blocked?
      modifies this
      ensures Valid() && Enabled(old(State()), LockRetry(t)) && State() == Apply(old(State()), LockRetry(t))
      ensures var c := old(pc)[t].ctx; c in ctxs && (r.Ok? <==> old(ctxs)[c].owner == None || old(ctxs)[c].owner == Some(t))
      ensures r.Ok? ==> ctxs[old(pc)[t].ctx].owner == Some(t) && IsIdle(State(), t)
    {
      assert ThreadOk(State(), t);
      r := TakeOrWait(t, pc[t].ctx);
    }

    /** `unlockRegion`: only the owner may. */
    method UnlockRegion(t: nat, name: string) returns (r: Err)
      requires Valid() && IsIdle(State(), t)
      modifies this
      ensures Valid() && (!r.Ok? ==> State() == old(State()))
      ensures r.Ok? || r.NotExist? || r.Invalid?
      ensures forall c | c in old(ctxs) && old(ctxs)[c].name == name ::
        if !Maps(old(ctxs)[c].rmap, t) then r.NotExist?
        else if old(ctxs)[c].owner != Some(t) then r.Invalid?
        else r.Ok? && State() == Apply(old(State()), Unlock(t, c)) && ctxs[c].owner == None
    {
      var d := GetContextByHandle(name, true, t);
      if d.None? {
        return NotExist;
      }
      var c := d.value;
      if ctxs[c].owner != Some(t) {
        return Invalid;
      }
      StepKeeps(State(), Unlock(t, c));
      ctxs := ctxs[c := ctxs[c].(owner := None)];
      r := Ok;
    }
  }

  predicate Covers(e: Entry, t: nat, vaddr: nat)
  {
    e.as_ == t && e.start <= vaddr < e.end
  }
}
