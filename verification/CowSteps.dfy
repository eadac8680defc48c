/**
 * What writing one page-table entry does to the invariant of copy-on-write
 * memory and to the bytes every process sees.
 */
module CowSteps {
  import opened CowState

  ghost function WithPte(procs: map<nat, Proc>, p: nat, v: nat, pte: Pte): map<nat, Proc>
    requires p in procs
  {
    procs[p := procs[p].(pt := procs[p].pt[v := pte])]
  }

  /** 1 when the entry is present and names frame f. */
  ghost function Names(pte: Pte, f: nat): nat
  {
    if pte.present && pte.frame == f then 1 else 0
  }

  /** The entry for page v, absent when no leaf table holds one. */
  ghost function EntryAt(procs: map<nat, Proc>, p: nat, v: nat): Pte
    requires p in procs
  {
    if v in procs[p].pt then procs[p].pt[v] else Pte(0, false, false)
  }

  lemma MapsAfter(procs: map<nat, Proc>, p: nat, v: nat, pte: Pte, q: nat, w: nat)
    requires p in procs
    ensures (q, w) == (p, v) ==> (Maps(WithPte(procs, p, v, pte), q, w) <==> pte.present)
    ensures (q, w) != (p, v) ==> (Maps(WithPte(procs, p, v, pte), q, w) <==> Maps(procs, q, w))
    ensures (q, w) != (p, v) && Maps(procs, q, w) ==>
      WithPte(procs, p, v, pte)[q].pt[w] == procs[q].pt[w]
    ensures q in procs ==> RegionOf(WithPte(procs, p, v, pte), q, w) == RegionOf(procs, q, w)
  {
  }

  lemma MappersAfter(procs: map<nat, Proc>, p: nat, v: nat, pte: Pte, f: nat)
    requires p in procs
    ensures Mappers(WithPte(procs, p, v, pte), f) ==
            if Names(pte, f) == 1 then Mappers(procs, f) + {(p, v)} else Mappers(procs, f) - {(p, v)}
  {
    var procs' := WithPte(procs, p, v, pte);
    forall q: nat, w: nat ensures (q, w) in Mappers(procs', f) <==>
        if (q, w) == (p, v) then Names(pte, f) == 1 else (q, w) in Mappers(procs, f)
    {
      assert (q, w) in Mappers(procs', f) <==> Maps(procs', q, w) && FrameOf(procs', q, w) == f;
      assert (q, w) in Mappers(procs, f) <==> Maps(procs, q, w) && FrameOf(procs, q, w) == f;
      MapsAfter(procs, p, v, pte, q, w);
    }
  }

  /** The number of entries naming a frame changes by exactly this entry's difference. */
  lemma MappersCount(procs: map<nat, Proc>, p: nat, v: nat, pte: Pte, f: nat)
    requires p in procs
    ensures |Mappers(WithPte(procs, p, v, pte), f)| ==
            |Mappers(procs, f)| - Names(EntryAt(procs, p, v), f) + Names(pte, f)
  {
    MappersAfter(procs, p, v, pte, f);
    assert (p, v) in Mappers(procs, f) <==> Names(EntryAt(procs, p, v), f) == 1;
    Cardinality(Mappers(procs, f), (p, v));
  }

  lemma Cardinality(m: set<(nat, nat)>, x: (nat, nat))
    ensures |m + {x}| == if x in m then |m| else |m| + 1
    ensures |m - {x}| == if x in m then |m| - 1 else |m|
  {
    if x in m {
      assert m + {x} == m;
    } else {
      assert m - {x} == m;
    }
  }

  /** The new entry may be written: it lies in a region and names the right kind of frame. */
  ghost predicate EntryAllowed(vm: Vm, vm': Vm, p: nat, v: nat, pte: Pte)
    requires p in vm.procs
  {
    && (!pte.present ==> pte.frame == 0)
    && (pte.present ==>
          var r := RegionOf(vm.procs, p, v);
          && pte.frame in vm'.refcnt && r.Some?
          && (if r.value.kind.Shared? then
                (r.value.kind.store, v - r.value.start) in vm.cache
                && vm.cache[(r.value.kind.store, v - r.value.start)] == pte.frame && pte.writable
              else
                pte.frame !in vm.cache.Values)
          && (pte.writable ==> r.value.urw && (r.value.kind.Shared? || Mappers(vm.procs, pte.frame) <= {(p, v)}))
          && (!r.value.kind.Shared? ==>
                forall q, w | Maps(vm.procs, q, w) && FrameOf(vm.procs, q, w) == pte.frame && (q, w) != (p, v) ::
                  !vm.procs[q].pt[w].writable))
  }

  /** Counts move with the entry; frames whose count reaches zero are returned. */
  ghost predicate CountsMove(vm: Vm, vm': Vm, p: nat, v: nat, pte: Pte)
    requires p in vm.procs
  {
    && (forall f | f in vm'.refcnt :: vm'.refcnt[f] > 0 &&
          vm'.refcnt[f] == (if f in vm.refcnt then vm.refcnt[f] else 0) - Names(EntryAt(vm.procs, p, v), f) + Names(pte, f))
    && (forall f | f in vm.refcnt && f !in vm'.refcnt ::
          vm.refcnt[f] - Names(EntryAt(vm.procs, p, v), f) + Names(pte, f) == 0)
    && (forall f | f in vm'.refcnt :: f > 0 && f !in vm'.pool && f in vm'.data)
    && (forall f | f in vm'.pool :: f > 0 && f in vm'.data)
  }

  lemma NoMappers(vm: Vm, f: nat)
    requires Inv(vm) && f !in vm.refcnt
    ensures Mappers(vm.procs, f) == {} && f !in vm.cache.Values
  {
    forall p: nat, v: nat ensures (p, v) !in Mappers(vm.procs, f) {
      if Maps(vm.procs, p, v) {
        assert EntryOk(vm, p, v);
      }
    }
  }

  lemma CountsKept(vm: Vm, vm': Vm, p: nat, v: nat, pte: Pte)
    requires Inv(vm) && p in vm.procs && vm'.procs == WithPte(vm.procs, p, v, pte) && vm'.cache == vm.cache
    requires CountsMove(vm, vm', p, v, pte)
    ensures CountsOk(vm')
    ensures forall f | f in vm.refcnt && f !in vm'.refcnt :: Mappers(vm'.procs, f) == {} && f !in vm.cache.Values
  {
    forall f | f in vm'.refcnt
      ensures vm'.refcnt[f] == |Mappers(vm'.procs, f)| + CacheRef(vm'.cache, f)
    {
      MappersCount(vm.procs, p, v, pte, f);
      if f !in vm.refcnt {
        NoMappers(vm, f);
      }
    }
    forall f | f in vm.refcnt && f !in vm'.refcnt
      ensures Mappers(vm'.procs, f) == {} && f !in vm.cache.Values
    {
      MappersCount(vm.procs, p, v, pte, f);
      assert |Mappers(vm'.procs, f)| + CacheRef(vm.cache, f) == 0;
    }
  }

  lemma EntryKept(vm: Vm, vm': Vm, p: nat, v: nat, pte: Pte, q: nat, w: nat)
    requires p in vm.procs && vm'.procs == WithPte(vm.procs, p, v, pte) && vm'.cache == vm.cache
    requires EntryAllowed(vm, vm', p, v, pte)
    requires forall f | f in vm.refcnt && f !in vm'.refcnt :: Mappers(vm'.procs, f) == {}
    requires (q, w) != (p, v) && Maps(vm.procs, q, w) && EntryOk(vm, q, w)
    ensures Maps(vm'.procs, q, w) && EntryOk(vm', q, w)
  {
    MapsAfter(vm.procs, p, v, pte, q, w);
    var f := FrameOf(vm.procs, q, w);
    MappersAfter(vm.procs, p, v, pte, f);
    assert (q, w) in Mappers(vm'.procs, f);
    if vm.procs[q].pt[w].writable && !RegionOf(vm.procs, q, w).value.kind.Shared? {
      StaysAlone(vm, vm', p, v, pte, q, w);
    }
  }

  /** A private writable entry elsewhere is not joined by the new entry. */
  lemma StaysAlone(vm: Vm, vm': Vm, p: nat, v: nat, pte: Pte, q: nat, w: nat)
    requires p in vm.procs && vm'.procs == WithPte(vm.procs, p, v, pte)
    requires EntryAllowed(vm, vm', p, v, pte)
    requires (q, w) != (p, v) && Maps(vm.procs, q, w) && EntryOk(vm, q, w)
    requires vm.procs[q].pt[w].writable && !RegionOf(vm.procs, q, w).value.kind.Shared?
    ensures Mappers(vm'.procs, FrameOf(vm.procs, q, w)) == {(q, w)}
  {
    var f := FrameOf(vm.procs, q, w);
    MappersAfter(vm.procs, p, v, pte, f);
  }

  lemma OwnEntryOk(vm: Vm, vm': Vm, p: nat, v: nat, pte: Pte)
    requires p in vm.procs && vm'.procs == WithPte(vm.procs, p, v, pte) && vm'.cache == vm.cache
    requires EntryAllowed(vm, vm', p, v, pte) && pte.present
    ensures Maps(vm'.procs, p, v) && EntryOk(vm', p, v)
  {
    MapsAfter(vm.procs, p, v, pte, p, v);
    MappersAfter(vm.procs, p, v, pte, pte.frame);
  }

  lemma EntriesKept(vm: Vm, vm': Vm, p: nat, v: nat, pte: Pte)
    requires p in vm.procs && vm'.procs == WithPte(vm.procs, p, v, pte) && vm'.cache == vm.cache
    requires forall q, w {:trigger EntryOk(vm, q, w)} | Maps(vm.procs, q, w) :: EntryOk(vm, q, w)
    requires EntryAllowed(vm, vm', p, v, pte)
    requires forall f | f in vm.refcnt && f !in vm'.refcnt :: Mappers(vm'.procs, f) == {}
    ensures forall q, w {:trigger EntryOk(vm', q, w)} | Maps(vm'.procs, q, w) :: EntryOk(vm', q, w)
  {
    forall q: nat, w: nat | Maps(vm'.procs, q, w) ensures EntryOk(vm', q, w) {
      MapsAfter(vm.procs, p, v, pte, q, w);
      if (q, w) == (p, v) {
        OwnEntryOk(vm, vm', p, v, pte);
      } else {
        EntryKept(vm, vm', p, v, pte, q, w);
      }
    }
  }

  /** Writing one allowed entry with matching counts keeps the whole invariant. */
  lemma PteKeeps(vm: Vm, vm': Vm, p: nat, v: nat, pte: Pte)
    requires Inv(vm) && p in vm.procs && vm'.procs == WithPte(vm.procs, p, v, pte) && vm'.cache == vm.cache
    requires EntryAllowed(vm, vm', p, v, pte) && CountsMove(vm, vm', p, v, pte)
    ensures Inv(vm')
  {
    CountsKept(vm, vm', p, v, pte);
    EntriesKept(vm, vm', p, v, pte);
    CacheKept(vm, vm');
  }

  lemma CacheKept(vm: Vm, vm': Vm)
    requires CacheOk(vm) && vm'.cache == vm.cache
    requires forall f | f in vm.refcnt && f !in vm'.refcnt :: f !in vm.cache.Values
    ensures CacheOk(vm')
  {
    forall k | k in vm'.cache ensures vm'.cache[k] in vm'.refcnt {
      assert vm'.cache[k] in vm.cache.Values;
    }
  }

  // --- What the other processes see ---

  /** Frames that stay allocated keep their bytes. */
  ghost predicate BytesKept(vm: Vm, vm': Vm)
  {
    forall f | f in vm.refcnt && f in vm'.refcnt && f in vm.data :: f in vm'.data && vm'.data[f] == vm.data[f]
  }

  lemma OthersSeeSame(vm: Vm, vm': Vm, p: nat, v: nat, pte: Pte, q: nat, w: nat)
    requires Inv(vm) && Inv(vm') && p in vm.procs && vm'.procs == WithPte(vm.procs, p, v, pte)
    requires BytesKept(vm, vm') && q in vm.procs && (q, w) != (p, v)
    ensures PrivatePage(vm', q, w) == PrivatePage(vm, q, w)
  {
    MapsAfter(vm.procs, p, v, pte, q, w);
    if Maps(vm.procs, q, w) {
      assert EntryOk(vm, q, w) && EntryOk(vm', q, w);
    }
  }

  lemma SharedSame(vm: Vm, vm': Vm, k: (nat, nat))
    requires Inv(vm) && Inv(vm') && vm'.cache == vm.cache && BytesKept(vm, vm')
    ensures SharedPage(vm', k) == SharedPage(vm, k)
  {
  }

  lemma SamePages(vm: Vm, p: nat, vm': Vm, q: nat)
    requires p in vm.procs && q in vm'.procs
    requires forall v: nat :: PrivatePage(vm', q, v) == PrivatePage(vm, p, v)
    ensures PrivatePages(vm', q) == PrivatePages(vm, p)
  {
  }

  /** Two states that show the same pages to everyone are the same to the reference machine. */
  lemma SameView(vm: Vm, vm': Vm)
    requires vm'.procs.Keys == vm.procs.Keys
    requires forall p | p in vm.procs :: vm'.procs[p].regions == vm.procs[p].regions
    requires forall p: nat, v: nat | p in vm.procs :: PrivatePage(vm', p, v) == PrivatePage(vm, p, v)
    requires forall k: (nat, nat) :: SharedPage(vm', k) == SharedPage(vm, k)
    ensures Abs(vm') == Abs(vm)
  {
    PrivateUnmoved(vm, vm');
    assert SharedPages(vm') == SharedPages(vm);
  }

  lemma PrivateUnmoved(vm: Vm, vm': Vm)
    requires vm'.procs.Keys == vm.procs.Keys
    requires forall q: nat, w: nat | q in vm.procs :: PrivatePage(vm', q, w) == PrivatePage(vm, q, w)
    ensures AllPrivate(vm') == AllPrivate(vm)
  {
    forall q | q in vm.procs ensures PrivatePages(vm', q) == PrivatePages(vm, q) {
      SamePages(vm, q, vm', q);
    }
  }
}
