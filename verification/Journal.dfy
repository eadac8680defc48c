/**
 * The journaling block device layer over a disk whose single-block writes are
 * atomic. A crash may fall after any of them, so the disk after each write is
 * kept, and so is the state the homes should recover to from there.
 */
module Journal {
  import opened Basics
  import opened JournalReplay

  datatype Outcome = Done | Failed | Hung | Panicked

  /** The disks after each write, and for each the number of transactions it recovers to. */
  datatype History = History(disks: seq<Disk>, eras: seq<nat>, states: seq<Disk>)

  ghost predicate HistoryOk(h: History, j: nat)
  {
    && |h.disks| == |h.eras| && |h.states| > 0
    && (forall k: nat {:trigger EraOk(h, j, k)} | k < |h.disks| :: EraOk(h, j, k))
    && (forall k: nat, l: nat {:trigger NotLater(h, k, l)} | k <= l < |h.disks| :: NotLater(h, k, l))
  }

  ghost predicate EraOk(h: History, j: nat, k: nat)
    requires k < |h.disks| == |h.eras|
  {
    h.eras[k] < |h.states| && Recovers(h.disks[k], h.states[h.eras[k]], j)
  }

  ghost predicate NotLater(h: History, k: nat, l: nat)
    requires k <= l < |h.eras|
  {
    h.eras[k] <= h.eras[l]
  }

  ghost function Last(h: History): Disk
    requires |h.states| > 0
  {
    h.states[|h.states| - 1]
  }

  /** A write reaches the disk, after the transactions `next` are committed by it. */
  ghost function Written(h: History, d: Disk, next: seq<Disk>): History
    requires |h.states| + |next| > 0
  {
    History(h.disks + [d], h.eras + [|h.states| + |next| - 1], h.states + next)
  }

  lemma WrittenOk(h: History, d: Disk, next: seq<Disk>, j: nat)
    requires HistoryOk(h, j) && Recovers(d, Last(Written(h, d, next)), j)
    ensures HistoryOk(Written(h, d, next), j)
  {
    var w := Written(h, d, next);
    forall k: nat | k < |w.disks| ensures EraOk(w, j, k) {
      assert k < |h.disks| ==> EraOk(h, j, k);
    }
    forall k: nat, l: nat | k <= l < |w.disks| ensures NotLater(w, k, l) {
      assert l < |h.disks| ==> NotLater(h, k, l);
      assert k < |h.disks| ==> EraOk(h, j, k);
    }
  }

  /** How many of the coming allocations fail. */
  ghost function Faults(oracle: seq<bool>): nat
  {
    if oracle == [] then 0 else (if oracle[0] then 1 else 0) + Faults(oracle[1..])
  }

  function DataBlk(j: nat, i: nat): nat
  {
    j + JDATA_START + i
  }

  /** The blocks that a commit of `hs` locks. */
  ghost function Locks(hs: seq<nat>, j: nat): set<nat>
  {
    if hs == [] then {j} else (set i | 0 <= i < |hs| :: DataBlk(j, i)) + (set b | b in hs) + {j, j + BMAP_START}
  }

  /** The locks of the first n data blocks and of their homes are free. */
  ghost predicate Unlocked(held: set<nat>, hs: seq<nat>, n: nat, j: nat)
    requires n <= |hs|
  {
    forall k | 0 <= k < n :: hs[k] !in held && DataBlk(j, k) !in held
  }

  lemma DataLock(held: set<nat>, hs: seq<nat>, i: nat, j: nat)
    requires i < |hs| && Unlocked(held, hs, i, j) && held <= Locks(hs, j)
    ensures held + {DataBlk(j, i)} <= Locks(hs, j)
    ensures DataBlk(j, i) !in held && hs[i] !in held ==> Unlocked(held, hs, i + 1, j)
  {
  }

  /** The states after the header write of a commit that stood in phase `ph`. */
  ghost function After(states: seq<Disk>, base: Disk, hs: seq<nat>, c: Disk, ph: Phase): seq<Disk>
    requires |c| == |base|
  {
    if ph.Fresh? then states + [Overlay(base, hs, c)] else states
  }

  // --- Transactions and the states between them ---

  /** The blocks written, in order. */
  type Txn = seq<(nat, Block)>

  ghost predicate TxnOk(txn: Txn, size: nat, j: nat)
  {
    forall i | 0 <= i < |txn| :: txn[i].0 < size && !InJournal(j, txn[i].0) && |txn[i].1| == WORDS
  }

  /** What a transaction means without a journal. */
  ghost function Store(d: Disk, txn: Txn): (r: Disk)
    ensures |r| == |d|
  {
    if txn == [] then d
    else
      var r := Store(d, txn[..|txn| - 1]);
      var (b, x) := txn[|txn| - 1];
      if b < |d| then r[b := x] else r
  }

  /** The last write to a block is what it holds; a block that is not written keeps its contents. */
  lemma {:induction false} StoreLast(d: Disk, txn: Txn, b: nat, i: nat)
    requires b < |d| && i <= |txn| && forall k | i <= k < |txn| :: txn[k].0 != b
    ensures i > 0 && txn[i - 1].0 == b ==> Store(d, txn)[b] == txn[i - 1].1
    ensures i == 0 ==> Store(d, txn)[b] == d[b]
    decreases |txn|
  {
    if i < |txn| {
      StoreLast(d, txn[..|txn| - 1], b, i);
    }
  }

  ghost predicate IsNext(states: seq<Disk>, before: seq<Disk>, txn: Txn, j: nat)
  {
    |before| > 0 && |states| == |before| + 1 && states[..|before|] == before
    && SameHome(states[|before|], Store(before[|before| - 1], txn), j)
  }

  /** Blocks that differ from `base` are recorded. */
  ghost predicate Recorded(c: Disk, base: Disk, hs: seq<nat>, j: nat)
  {
    |c| == |base| && forall b | 0 <= b < |c| && !InJournal(j, b) && b !in hs :: c[b] == base[b]
  }

  /** One more write to the cache is one more write of the transaction. */
  lemma StoreNext(c: Disk, base: Disk, done: Txn, b: nat, x: Block, hs: seq<nat>, j: nat)
    requires SameHome(c, Store(base, done), j) && b < |c|
    ensures SameHome(c[b := x], Store(base, done + [(b, x)]), j)
    ensures Recorded(c, base, hs, j) ==> Recorded(c[b := x], base, if b in hs then hs else hs + [b], j)
  {
    assert (done + [(b, x)])[..|done|] == done;
  }

  /** The different blocks that a transaction writes. */
  ghost function Blocks(txn: Txn): set<nat>
  {
    set i | 0 <= i < |txn| :: txn[i].0
  }

  /** The list has exactly the blocks of the transaction. */
  ghost predicate Lists(hs: seq<nat>, txn: Txn)
  {
    forall b :: b in hs <==> b in Blocks(txn)
  }

  lemma ListsNext(hs: seq<nat>, txn: Txn, b: nat, x: Block)
    requires Lists(hs, txn)
    ensures Lists(if b in hs then hs else hs + [b], txn + [(b, x)])
  {
    var more := txn + [(b, x)];
    assert more[|txn|].0 == b && forall i | 0 <= i < |txn| :: more[i] == txn[i];
    assert Blocks(more) == Blocks(txn) + {b};
  }

  lemma {:induction false} ListSize(hs: seq<nat>, blocks: set<nat>)
    requires (forall i, k | 0 <= i < k < |hs| :: hs[i] != hs[k]) && forall b :: b in hs <==> b in blocks
    ensures |hs| == |blocks|
  {
    if hs == [] {
      assert blocks == {};
    } else {
      var n := |hs| - 1;
      assert forall i | 0 <= i < n :: hs[..n][i] == hs[i];
      ListSize(hs[..n], blocks - {hs[n]});
    }
  }

  lemma {:induction false} BlocksGrow(txn: Txn, n: nat)
    requires n <= |txn|
    ensures |Blocks(txn[..n])| <= |Blocks(txn)|
  {
    SubsetSize(Blocks(txn[..n]), Blocks(txn));
  }

  /** The transaction fits the journal. */
  ghost predicate Fits(txn: Txn)
  {
    |Blocks(txn)| < 128
  }

  /** The transactions that were done fit; the one that panicked does not. */
  ghost predicate EndsAt(r: Outcome, txns: seq<Txn>, n: nat)
  {
    n <= |txns| && (r.Done? ==> forall k | 0 <= k < n :: Fits(txns[k])) && (r.Panicked? ==> n > 0 && !Fits(txns[n - 1]))
  }

  lemma OverlayIsStore(base: Disk, hs: seq<nat>, c: Disk, txn: Txn, j: nat)
    requires Recorded(c, base, hs, j) && SameHome(c, Store(base, txn), j)
    ensures SameHome(Overlay(base, hs, c), Store(base, txn), j) && SameHome(c, Overlay(base, hs, c), j)
  {
  }

  /** The state after the first n transactions. */
  ghost function Between(d: Disk, txns: seq<Txn>, n: nat): (r: Disk)
    requires n <= |txns|
    ensures |r| == |d|
  {
    if n == 0 then d else Store(Between(d, txns, n - 1), txns[n - 1])
  }

  /** Each disk recovers to the state after some number of transactions, which never falls. */
  ghost predicate Marked(disks: seq<Disk>, marks: seq<nat>, start: Disk, txns: seq<Txn>, j: nat)
  {
    && |marks| == |disks|
    && (forall k | 0 <= k < |marks| :: marks[k] <= |txns| && Recovers(disks[k], Between(start, txns, marks[k]), j))
    && (forall k, l | 0 <= k <= l < |marks| :: marks[k] <= marks[l])
  }

  /** How many transactions each recorded state includes. */
  ghost predicate Tracks(states: seq<Disk>, upto: seq<nat>, start: Disk, txns: seq<Txn>, n: nat, j: nat)
  {
    && |upto| == |states| && n <= |txns|
    && (forall k | 0 <= k < |upto| :: upto[k] <= n && SameHome(states[k], Between(start, txns, upto[k]), j))
    && (forall k, l | 0 <= k <= l < |upto| :: upto[k] <= upto[l])
  }

  lemma {:induction false} StoreSame(d: Disk, e: Disk, txn: Txn, j: nat)
    requires SameHome(d, e, j)
    ensures SameHome(Store(d, txn), Store(e, txn), j)
  {
    if txn != [] {
      StoreSame(d, e, txn[..|txn| - 1], j);
    }
  }

  lemma TrackStep(before: seq<Disk>, states: seq<Disk>, upto: seq<nat>, start: Disk, txns: seq<Txn>, n: nat, j: nat)
    returns (upto': seq<nat>)
    requires Tracks(before, upto, start, txns, n, j) && n < |txns| && |before| > 0
    requires SameHome(before[|before| - 1], Between(start, txns, n), j)
    requires states == before || IsNext(states, before, txns[n], j)
    ensures Tracks(states, upto', start, txns, n + 1, j)
    ensures IsNext(states, before, txns[n], j) ==> SameHome(states[|before|], Between(start, txns, n + 1), j)
    ensures states == before && txns[n] == [] ==> SameHome(states[|states| - 1], Between(start, txns, n + 1), j)
  {
    if states == before {
      upto' := upto;
    } else {
      upto' := upto + [n + 1];
      StoreSame(before[|before| - 1], Between(start, txns, n), txns[n], j);
      assert forall k | 0 <= k < |before| :: states[k] == states[..|before|][k];
    }
  }

  lemma Marks(h: History, upto: seq<nat>, start: Disk, txns: seq<Txn>, n: nat, j: nat) returns (marks: seq<nat>)
    requires HistoryOk(h, j) && Tracks(h.states, upto, start, txns, n, j)
    ensures Marked(h.disks, marks, start, txns, j)
  {
    forall k: nat | k < |h.disks| ensures h.eras[k] < |h.states| {
      assert EraOk(h, j, k);
    }
    marks := seq(|h.disks|, k requires 0 <= k < |h.disks| => upto[h.eras[k]]);
    forall k: nat, l: nat | k <= l < |h.disks| ensures marks[k] <= marks[l] {
      assert NotLater(h, k, l);
    }
    forall k | 0 <= k < |marks| ensures Recovers(h.disks[k], Between(start, txns, marks[k]), j) {
      assert EraOk(h, j, k) && SameHome(h.states[h.eras[k]], Between(start, txns, upto[h.eras[k]]), j);
    }
  }

  class Journal {
    const j: nat
    const enabled: bool
    // The blocks on the device and in the buffer cache.
    var disk: Disk
    var cache: Disk
    // `datablks[..next_index]`, by block number.
    var datablks: seq<nat>
    var busy: bool
    // Sleeplocks left held by a failed write.
    var held: set<nat>
    // Which of the coming allocations fail.
    var oracle: seq<bool>
    ghost var history: History

    ghost predicate Core()
      reads this
    {
      && Shaped(disk, j) && Shaped(cache, j) && |cache| == |disk|
      && HistoryOk(history, j) && Homes(datablks, |disk|, j)
    }

    /** Between operations: nothing in the journal is committed. */
    ghost predicate Valid()
      reads this
    {
      Core() && held == {} && Clean(disk, Last(history), j) && (!busy ==> datablks == [])
    }

    constructor (start: nat, journaling: bool, device: Disk, faults: seq<bool>)
      requires Shaped(device, start) && device[start][0] == 0
      ensures Valid() && !busy && datablks == [] && cache == disk == device && j == start && enabled == journaling
      ensures history == History([], [], [device])
    {
      j, enabled := start, journaling;
      disk, cache, datablks, busy, held, oracle := device, device, [], false, {}, faults;
      history := History([], [], [device]);
    }

    /** The next allocation fails. */
    method Fails() returns (fail: bool)
      modifies `oracle
      ensures Faults(oracle) <= Faults(old(oracle)) && (fail ==> Faults(oracle) < Faults(old(oracle)))
    {
      fail := |oracle| > 0 && oracle[0];
      oracle := if |oracle| > 0 then oracle[1..] else oracle;
    }

    /** `bdev_get_blk`: no memory, or the block's lock, which may never come. */
    method GetBlk(b: nat) returns (r: Outcome)
      modifies `oracle
      ensures Faults(oracle) <= Faults(old(oracle)) && !r.Panicked?
      ensures r.Failed? ==> Faults(oracle) < Faults(old(oracle))
      ensures r.Done? ==> b !in held
      ensures r.Hung? ==> b in held
    {
      var fail := Fails();
      if fail {
        return Failed;
      }
      r := if b in held then Hung else Done;
    }

    /** `bdev_write_blk`: a failed write leaves the block locked. */
    method PutBlk(b: nat, ghost next: seq<Disk>) returns (ok: bool)
      requires Core() && b < |disk| && Recovers(disk[b := cache[b]], Last(Written(history, disk, next)), j)
      modifies `disk, `oracle, `held, `history
      ensures Core() && Faults(oracle) <= Faults(old(oracle))
      ensures ok ==> disk == old(disk)[b := cache[b]] && held == old(held) && history == Written(old(history), disk, next)
      ensures !ok ==> disk == old(disk) && held == old(held) + {b} && history == old(history) && Faults(oracle) < Faults(old(oracle))
    {
      var fail := Fails();
      ok := !fail;
      if ok {
        disk := disk[b := cache[b]];
        WrittenOk(history, disk, next, j);
        history := Written(history, disk, next);
      } else {
        held := held + {b};
      }
    }

    /** A commit of `datablks` is under way. */
    ghost predicate Committing(base: Disk, c: Disk, ph: Phase)
      reads this
    {
      && Core() && SameHome(cache, c, j) && Stage(disk, base, datablks, c, j, ph)
      && Last(history) == Target(base, datablks, c, ph)
    }

    /** A write within a phase. */
    method PutInPhase(b: nat, ghost base: Disk, ghost c: Disk, ghost ph: Phase) returns (ok: bool)
      requires Committing(base, c, ph) && b < |disk| && Stage(disk[b := cache[b]], base, datablks, c, j, ph)
      modifies `disk, `oracle, `held, `history
      ensures Committing(base, c, ph) && Faults(oracle) <= Faults(old(oracle)) && history.states == old(history).states
      ensures ok ==> disk == old(disk)[b := cache[b]] && held == old(held)
      ensures !ok ==> held == old(held) + {b} && Faults(oracle) < Faults(old(oracle))
    {
      StageRecovers(disk[b := cache[b]], base, datablks, c, j, ph);
      assert history.states + [] == history.states;
      ok := PutBlk(b, []);
    }

    /** `memmove` into a journal block of the buffer cache. */
    method SetCached(b: nat, x: Block, ghost base: Disk, ghost c: Disk, ghost ph: Phase)
      requires Committing(base, c, ph) && InJournal(j, b) && |x| == WORDS
      modifies `cache
      ensures Committing(base, c, ph) && cache == old(cache)[b := x]
    {
      cache := cache[b := x];
    }

    /** A data block is copied into the journal and written. */
    method CopyData(i: nat, ghost base: Disk, ghost c: Disk, ghost ph: Phase) returns (ok: bool)
      requires Committing(base, c, ph) && i < |datablks|
      modifies `disk, `cache, `oracle, `held, `history
      ensures Committing(base, c, ph) && Faults(oracle) <= Faults(old(oracle)) && history.states == old(history).states
      ensures ok ==> disk == old(disk)[j + JDATA_START + i := c[datablks[i]]] && held == old(held)
      ensures !ok ==> held == old(held) + {j + JDATA_START + i} && Faults(oracle) < Faults(old(oracle))
    {
      var x := cache[datablks[i]];
      assert x == c[datablks[i]] && |x| == WORDS;
      StageData(disk, base, datablks, c, j, ph, i);
      SetCached(j + JDATA_START + i, x, base, c, ph);
      ok := PutInPhase(j + JDATA_START + i, base, c, ph);
    }

    /** One data block of `write_journal_blks`. */
    method WriteData(i: nat, ghost base: Disk, ghost c: Disk, ghost ph: Phase) returns (r: Outcome)
      requires Committing(base, c, ph) && i < |datablks| && DataLogged(disk, datablks, i, c, j)
      requires Unlocked(held, datablks, i, j) && held <= Locks(datablks, j)
      modifies `disk, `cache, `oracle, `held, `history
      ensures Committing(base, c, ph) && Faults(oracle) <= Faults(old(oracle)) && !r.Panicked?
      ensures old(held) <= held <= Locks(datablks, j) && (r.Failed? ==> Faults(oracle) < Faults(old(oracle)))
      ensures history.states == old(history).states
      ensures r.Done? ==> DataLogged(disk, datablks, i + 1, c, j) && held == old(held)
      ensures r.Done? ==> Unlocked(held, datablks, i + 1, j)
      ensures held != old(held) ==> Faults(oracle) < Faults(old(oracle))
      ensures r.Hung? ==> held != {}
    {
      var pb := j + JDATA_START + i;
      r := GetBlk(pb);
      if !r.Done? {
        return;
      }
      if datablks[i] in held {
        return Hung;
      }
      DataExtend(disk, datablks, i, c, j);
      DataLock(held, datablks, i, j);
      var ok := CopyData(i, base, c, ph);
      r := if ok then Done else Failed;
    }

    /** The block map: one block holds all 128 numbers. */
    method WriteMap(ghost base: Disk, ghost c: Disk, ghost ph: Phase) returns (r: Outcome)
      requires Committing(base, c, ph) && !ph.Sealed? && |datablks| < JOURNAL_SIZE && DataLogged(disk, datablks, |datablks|, c, j)
      modifies `disk, `cache, `oracle, `held, `history
      ensures Committing(base, c, ph) && Faults(oracle) <= Faults(old(oracle)) && !r.Panicked?
      ensures old(held) <= held <= old(held) + {j + BMAP_START} && (r.Failed? ==> Faults(oracle) < Faults(old(oracle)))
      ensures history.states == old(history).states
      ensures r.Done? ==> held == old(held) && MapLogged(disk, datablks, j) && DataLogged(disk, datablks, |datablks|, c, j)
      ensures if datablks == [] then held == old(held) else r.Done? ==> j + BMAP_START !in held
      ensures held != old(held) ==> Faults(oracle) < Faults(old(oracle))
      ensures r.Hung? ==> held != {}
    {
      var i, bi := 0, 0;
      while i < |datablks| && bi < BMAP_BLKS
        invariant Committing(base, c, ph) && Faults(oracle) <= Faults(old(oracle)) && held == old(held)
        invariant history.states == old(history).states
        invariant (i, bi) == (0, 0) || ((i, bi) == (|datablks|, 1) && MapLogged(disk, datablks, j) && j + BMAP_START !in held)
        invariant DataLogged(disk, datablks, |datablks|, c, j)
        decreases BMAP_BLKS - bi
      {
        var pb := j + BMAP_START + bi;
        r := GetBlk(pb);
        if !r.Done? {
          return;
        }
        var n := if WORDS < |datablks| - i then WORDS else |datablks| - i;
        SetCached(pb, datablks[i..i + n] + cache[pb][n..], base, c, ph);
        StageMap(disk, base, datablks, c, j, ph, cache[pb]);
        var ok := PutInPhase(pb, base, c, ph);
        if !ok {
          return Failed;
        }
        assert cache[pb][..n] == datablks[i..i + n] == datablks;
        bi := bi + 1;
        i := i + n;
      }
      r := Done;
    }

    /** The data blocks, in order. */
    method WriteAllData(ghost base: Disk, ghost c: Disk, ghost ph: Phase) returns (r: Outcome)
      requires Committing(base, c, ph) && held <= Locks(datablks, j)
      modifies `disk, `cache, `oracle, `held, `history
      ensures Committing(base, c, ph) && Faults(oracle) <= Faults(old(oracle)) && !r.Panicked?
      ensures old(held) <= held <= Locks(datablks, j) && (r.Failed? ==> Faults(oracle) < Faults(old(oracle)))
      ensures history.states == old(history).states
      ensures r.Done? ==> held == old(held) && DataLogged(disk, datablks, |datablks|, c, j)
      ensures r.Done? ==> Unlocked(held, datablks, |datablks|, j)
      ensures held != old(held) ==> Faults(oracle) < Faults(old(oracle))
      ensures r.Hung? ==> held != {}
    {
      for i := 0 to |datablks|
        invariant Committing(base, c, ph) && Faults(oracle) <= Faults(old(oracle)) && held == old(held)
        invariant history.states == old(history).states
        invariant Unlocked(held, datablks, i, j)
        invariant DataLogged(disk, datablks, i, c, j)
      {
        r := WriteData(i, base, c, ph);
        if !r.Done? {
          return;
        }
      }
      r := Done;
    }

    /** `write_journal_blks`: data blocks, then the map that names their homes. */
    method WriteJournalBlks(ghost base: Disk, ghost c: Disk, ghost ph: Phase) returns (r: Outcome)
      requires Committing(base, c, ph) && (ph.Sealed? ==> exists b :: b in datablks && b in held)
      requires held <= Locks(datablks, j)
      modifies `disk, `cache, `oracle, `held, `history
      ensures Committing(base, c, ph) && Faults(oracle) <= Faults(old(oracle))
      ensures held <= Locks(datablks, j) && (r.Failed? ==> Faults(oracle) < Faults(old(oracle)))
      ensures ph.Sealed? ==> exists b :: b in datablks && b in held
      ensures history.states == old(history).states
      ensures r.Panicked? <==> |datablks| >= JOURNAL_SIZE
      ensures r.Panicked? ==> history == old(history) && disk == old(disk) && held == old(held)
      ensures r.Done? ==> !ph.Sealed? && held <= {j}
      ensures r.Done? ==> MapLogged(disk, datablks, j) && DataLogged(disk, datablks, |datablks|, c, j)
      ensures held != old(held) ==> Faults(oracle) < Faults(old(oracle))
      ensures r.Hung? ==> held != {}
    {
      if |datablks| >= JOURNAL_SIZE {
        return Panicked;
      }
      r := WriteAllData(base, c, ph);
      if !r.Done? {
        return;
      }
      assert !ph.Sealed?;
      r := WriteMap(base, c, ph);
    }

    /** `write_journal_header`: the write that commits, or that erases when the list is empty. */
    method WriteHeader(ghost base: Disk, ghost c: Disk, ghost ph: Phase) returns (r: Outcome)
      requires Committing(base, c, ph) && !ph.Sealed?
      requires MapLogged(disk, datablks, j) && DataLogged(disk, datablks, |datablks|, c, j)
      modifies `disk, `cache, `oracle, `held, `history
      ensures Faults(oracle) <= Faults(old(oracle)) && !r.Panicked? && held <= old(held) + {j}
      ensures r.Failed? ==> Faults(oracle) < Faults(old(oracle))
      ensures r.Done? ==> held == old(held) && j !in held && Committing(base, c, if ph.Fresh? then Sealed else Erasing)
      ensures r.Done? ==> disk[j][0] == |datablks| && history.states == After(old(history).states, base, datablks, c, ph)
      ensures !r.Done? ==> Committing(base, c, ph) && history == old(history)
      ensures held != old(held) ==> Faults(oracle) < Faults(old(oracle))
      ensures r.Hung? ==> held != {}
    {
      r := GetBlk(j);
      if !r.Done? {
        return;
      }
      SetCached(j, [|datablks|] + cache[j][1..], base, c, ph);
      StageHeader(disk, base, datablks, c, j, ph, cache[j]);
      ghost var next := if ph.Fresh? then [Overlay(base, datablks, c)] else [];
      assert ph.Erasing? ==> history.states + next == history.states;
      var ok := PutBlk(j, next);
      r := if ok then Done else Failed;
    }

    /** One block of `apply_journal`; a failed write leaves it locked. */
    method ApplyBlk(i: nat, ghost base: Disk, ghost c: Disk, ghost ph: Phase) returns (r: Outcome)
      requires Committing(base, c, ph) && !ph.Fresh? && i < |datablks|
      modifies `disk, `oracle, `held, `history
      ensures Committing(base, c, ph) && Faults(oracle) <= Faults(old(oracle)) && !r.Panicked? && held <= old(held) + {datablks[i]}
      ensures r.Failed? ==> Faults(oracle) < Faults(old(oracle)) && datablks[i] in held
      ensures history.states == old(history).states
      ensures r.Done? ==> held == old(held) && disk == old(disk)[datablks[i] := c[datablks[i]]]
      ensures held != old(held) ==> Faults(oracle) < Faults(old(oracle))
      ensures r.Hung? ==> held != {}
    {
      var b := datablks[i];
      if b in held {
        return Hung;
      }
      StageHome(disk, base, datablks, c, j, ph, i);
      var ok := PutInPhase(b, base, c, ph);
      r := if ok then Done else Failed;
    }

    /** `apply_journal`: every home is rewritten. */
    method ApplyJournal(ghost base: Disk, ghost c: Disk, ghost ph: Phase) returns (r: Outcome)
      requires Committing(base, c, ph) && !ph.Fresh?
      modifies `disk, `oracle, `held, `history
      ensures Committing(base, c, ph) && Faults(oracle) <= Faults(old(oracle)) && !r.Panicked?
      ensures held <= old(held) + (set b | b in datablks)
      ensures r.Failed? ==> Faults(oracle) < Faults(old(oracle)) && exists b :: b in datablks && b in held
      ensures history.states == old(history).states
      ensures r.Done? ==> held == old(held) && Stage(disk, Target(base, datablks, c, ph), [], c, j, Erasing)
      ensures held != old(held) ==> Faults(oracle) < Faults(old(oracle))
      ensures r.Hung? ==> held != {}
    {
      for i := 0 to |datablks|
        invariant Committing(base, c, ph) && Faults(oracle) <= Faults(old(oracle)) && held == old(held)
        invariant history.states == old(history).states
        invariant forall k | 0 <= k < i :: disk[datablks[k]] == c[datablks[k]]
      {
        r := ApplyBlk(i, base, c, ph);
        if !r.Done? {
          return;
        }
      }
      StageApplied(disk, base, datablks, c, j, ph);
      r := Done;
    }

    /** `erase_journal`: the list is emptied before the header is rewritten. */
    method EraseJournal(ghost base: Disk, ghost c: Disk) returns (r: Outcome)
      requires Core() && SameHome(cache, c, j) && Stage(disk, base, [], c, j, Erasing) && Last(history) == base
      modifies `disk, `cache, `oracle, `held, `history, `datablks
      ensures Committing(base, c, Erasing) && datablks == [] && history.states == old(history).states
      ensures Faults(oracle) <= Faults(old(oracle)) && !r.Panicked? && held <= old(held) + {j}
      ensures r.Failed? ==> Faults(oracle) < Faults(old(oracle))
      ensures r.Done? ==> held == old(held) && Clean(disk, base, j)
      ensures held != old(held) ==> Faults(oracle) < Faults(old(oracle))
      ensures r.Hung? ==> held != {}
    {
      datablks := [];
      r := WriteHeader(base, c, Erasing);
    }

    /** The open transaction's commit stands in phase `ph`; it takes `base` to `Overlay(base, hs, c)`. */
    ghost predicate Pending(base: Disk, hs: seq<nat>, c: Disk, before: seq<Disk>, ph: Phase)
      reads this
    {
      && |c| == |base| && hs != [] && held <= Locks(datablks, j)
      && history.states == before + (if ph.Fresh? then [] else [Overlay(base, hs, c)])
      && (if ph.Erasing? then datablks == [] && Committing(Overlay(base, hs, c), c, Erasing)
          else datablks == hs && Committing(base, c, ph))
      && (ph.Sealed? ==> exists b :: b in hs && b in held)
    }

    /**
     * `commit_journal`. An attempt that fails for lack of memory leaves the
     * commit in a phase from which the next attempt can go on.
     */
    method Commit(ghost base: Disk, ghost hs: seq<nat>, ghost c: Disk, ghost before: seq<Disk>, ghost ph: Phase)
      returns (r: Outcome, ghost ph': Phase)
      requires Pending(base, hs, c, before, ph)
      modifies `disk, `cache, `oracle, `held, `history, `datablks
      ensures Faults(oracle) <= Faults(old(oracle)) && (r.Failed? ==> Faults(oracle) < Faults(old(oracle)))
      ensures Core() && SameHome(cache, c, j)
      ensures r.Panicked? <==> |old(datablks)| == JOURNAL_SIZE
      ensures r.Panicked? ==> disk == old(disk) && history == old(history) && held == old(held) && datablks == old(datablks)
      ensures r.Failed? ==> Pending(base, hs, c, before, ph')
      ensures history.states == before + (if ph'.Fresh? then [] else [Overlay(base, hs, c)])
      ensures r.Done? ==> !ph'.Fresh? && held == {} && datablks == [] && Clean(disk, Overlay(base, hs, c), j)
      ensures held != old(held) ==> Faults(oracle) < Faults(old(oracle))
      ensures r.Hung? ==> held != {}
    {
      ph' := ph;
      ghost var from := if ph.Erasing? then Overlay(base, hs, c) else base;
      r := WriteJournalBlks(from, c, ph);
      if !r.Done? {
        return;
      }
      r := WriteHeader(from, c, ph);
      if !r.Done? {
        return;
      }
      ph' := if ph.Fresh? then Sealed else Erasing;
      r, ph' := ApplyAndErase(base, hs, c, ph');
    }

    /** The second half of a commit: the transaction is on disk in one place or the other throughout. */
    method ApplyAndErase(ghost base: Disk, ghost hs: seq<nat>, ghost c: Disk, ghost ph: Phase) returns (r: Outcome, ghost ph': Phase)
      requires |c| == |base| && hs != [] && held == {} && !ph.Fresh? && |history.states| > 0 && Last(history) == Overlay(base, hs, c)
      requires if ph.Erasing? then datablks == [] && Committing(Overlay(base, hs, c), c, Erasing)
               else datablks == hs && Committing(base, c, Sealed)
      modifies `disk, `cache, `oracle, `held, `history, `datablks
      ensures Core() && SameHome(cache, c, j) && !r.Panicked? && history.states == old(history).states && !ph'.Fresh?
      ensures held <= Locks(datablks, j) && (r.Failed? && ph'.Sealed? ==> exists b :: b in hs && b in held)
      ensures r.Failed? ==> if ph'.Erasing? then datablks == [] && Committing(Overlay(base, hs, c), c, Erasing)
                            else datablks == hs && Committing(base, c, Sealed)
      ensures r.Done? ==> held == {} && datablks == [] && Clean(disk, Overlay(base, hs, c), j)
      ensures Faults(oracle) <= Faults(old(oracle)) && (r.Failed? ==> Faults(oracle) < Faults(old(oracle)))
      ensures held != old(held) ==> Faults(oracle) < Faults(old(oracle))
      ensures r.Hung? ==> held != {}
    {
      ph' := ph;
      r := ApplyJournal(if ph.Erasing? then Overlay(base, hs, c) else base, c, ph);
      if !r.Done? {
        return;
      }
      ph' := Erasing;
      r := EraseJournal(Overlay(base, hs, c), c);
    }

    /** `jbd_begin_txn`; a second transaction waits until the first one ends. */
    method BeginTxn() returns (r: Outcome)
      requires Valid()
      modifies `busy
      ensures Valid() && r == if enabled && old(busy) then Hung else Done
      ensures busy == (enabled || old(busy))
    {
      if !enabled {
        return Done;
      }
      if busy {
        return Hung;
      }
      busy := true;
      r := Done;
    }

    /** The file system changes a cached block of its own. */
    method Modify(b: nat, x: Block)
      requires Valid() && b < |disk| && !InJournal(j, b) && |x| == WORDS
      modifies `cache
      ensures Valid() && cache == old(cache)[b := x]
    {
      cache := cache[b := x];
    }

    /** `jbd_write_blk`: each block is recorded once; there is room for 128. */
    method WriteBlk(b: nat) returns (r: Outcome)
      requires Valid() && b < |disk| && !InJournal(j, b)
      modifies `datablks
      ensures Valid()
      ensures r == if enabled && (!busy || (b !in old(datablks) && |old(datablks)| == JOURNAL_SIZE)) then Panicked else Done
      ensures datablks == if enabled && busy && r.Done? && b !in old(datablks) then old(datablks) + [b] else old(datablks)
    {
      if !enabled {
        return Done;
      }
      if !busy {
        return Panicked;
      }
      for i := 0 to |datablks|
        invariant b !in datablks[..i]
      {
        if datablks[i] == b {
          return Done;
        }
      }
      assert datablks[..|datablks|] == datablks;
      if |datablks| >= JOURNAL_SIZE {
        return Panicked;
      }
      datablks := datablks + [b];
      r := Done;
    }

    /**
     * `jbd_end_txn`: commit until it succeeds. The state machine either stays
     * where it was, or has moved by exactly the blocks of this transaction.
     */
    method EndTxn() returns (r: Outcome)
      requires Valid()
      modifies this
      ensures HistoryOk(history, j) && !r.Failed? && |cache| == |old(cache)|
      ensures r.Panicked? <==> enabled && (!old(busy) || |old(datablks)| == JOURNAL_SIZE)
      ensures r.Panicked? ==> Valid() && disk == old(disk) && history == old(history)
      ensures r.Done? ==> Valid() && SameHome(cache, old(cache), j) && (enabled ==> !busy) && |disk| == |old(disk)|
      ensures !enabled ==> unchanged(this)
      ensures r.Done? ==> history.states == old(Moved())
      ensures r.Hung? ==> history.states == old(history.states) || history.states == old(Moved())
      ensures Faults(oracle) <= Faults(old(oracle)) && (r.Hung? ==> held != {} && Faults(oracle) < Faults(old(oracle)))
    {
      if !enabled {
        return Done;
      }
      if !busy {
        return Panicked;
      }
      if |datablks| > 0 {
        r := CommitLoop(Last(history), cache);
        if !r.Done? {
          return;
        }
      }
      busy := false;
      r := Done;
    }

    /** The states once the open transaction is committed. */
    ghost function Moved(): seq<Disk>
      reads this
      requires Core() && Clean(disk, Last(history), j)
    {
      if enabled && datablks != [] then history.states + [Overlay(Last(history), datablks, cache)] else history.states
    }

    /** The retry loop of `jbd_end_txn`. */
    method CommitLoop(ghost base: Disk, ghost c: Disk) returns (r: Outcome)
      requires Valid() && datablks != [] && base == Last(history) && c == cache
      modifies `disk, `cache, `oracle, `held, `history, `datablks
      ensures Core() && !r.Failed? && SameHome(cache, c, j)
      ensures r.Panicked? <==> |old(datablks)| == JOURNAL_SIZE
      ensures r.Panicked? ==> Valid() && disk == old(disk) && history == old(history)
      ensures r.Done? ==> Valid() && datablks == []
      ensures r.Done? ==> history.states == old(history.states) + [Overlay(base, old(datablks), c)]
      ensures history.states == old(history.states) || history.states == old(history.states) + [Overlay(base, old(datablks), c)]
      ensures Faults(oracle) <= Faults(old(oracle)) && (r.Hung? ==> held != {} && Faults(oracle) < Faults(old(oracle)))
    {
      ghost var hs, before, ph := datablks, history.states, Fresh;
      r := Failed;
      while r.Failed?
        invariant Core() && SameHome(cache, c, j)
        invariant r.Failed? ==> Pending(base, hs, c, before, ph)
        invariant history.states == before + (if ph.Fresh? then [] else [Overlay(base, hs, c)])
        invariant |hs| == JOURNAL_SIZE ==> r.Failed? || r.Panicked?
        invariant |hs| == JOURNAL_SIZE ==> Valid() && disk == old(disk) && history == old(history) && datablks == hs
        invariant |hs| < JOURNAL_SIZE ==> !r.Panicked?
        invariant r.Done? ==> Valid() && datablks == [] && !ph.Fresh?
        invariant r.Hung? ==> held != {}
        invariant Faults(oracle) <= Faults(old(oracle)) && (held != {} ==> Faults(oracle) < Faults(old(oracle)))
        decreases Faults(oracle), r.Failed?
      {
        r, ph := Commit(base, hs, c, before, ph);
      }
    }

    /** A transaction is open; `done` of its writes have been made. */
    ghost predicate Writing(base: Disk, done: Txn)
      reads this
    {
      && Valid() && Last(history) == base && busy == enabled && SameHome(cache, Store(base, done), j)
      && if enabled then Recorded(cache, base, datablks, j) && Lists(datablks, done) else datablks == []
    }

    method WriteNext(b: nat, x: Block, ghost base: Disk, ghost done: Txn) returns (r: Outcome)
      requires Writing(base, done) && b < |disk| && !InJournal(j, b) && |x| == WORDS
      modifies `cache, `datablks
      ensures r.Done? || r.Panicked?
      ensures r.Done? ==> Writing(base, done + [(b, x)])
      ensures r.Panicked? ==> enabled && |Blocks(done + [(b, x)])| > JOURNAL_SIZE
    {
      StoreNext(cache, base, done, b, x, datablks, j);
      ListsMore(done, b, x);
      Modify(b, x);
      r := WriteBlk(b);
    }

    lemma ListsMore(done: Txn, b: nat, x: Block)
      requires Core() && enabled ==> Lists(datablks, done)
      ensures Core() && enabled ==> Lists(if b in datablks then datablks else datablks + [b], done + [(b, x)])
      ensures Core() && enabled && b !in datablks ==> |Blocks(done + [(b, x)])| == |datablks| + 1
    {
      if Core() && enabled {
        ListsNext(datablks, done, b, x);
        if b !in datablks {
          ListSize(datablks + [b], Blocks(done + [(b, x)]));
        }
      }
    }

    method WriteAll(txn: Txn, ghost base: Disk) returns (r: Outcome)
      requires Writing(base, []) && TxnOk(txn, |disk|, j)
      modifies `cache, `datablks
      ensures r.Done? || r.Panicked?
      ensures r.Done? ==> Writing(base, txn)
      ensures r.Panicked? ==> enabled && |Blocks(txn)| > JOURNAL_SIZE
    {
      for i := 0 to |txn|
        invariant Writing(base, txn[..i])
      {
        assert txn[..i + 1] == txn[..i] + [txn[i]];
        r := WriteNext(txn[i].0, txn[i].1, base, txn[..i]);
        if r.Panicked? {
          BlocksGrow(txn, i + 1);
          return;
        }
      }
      assert txn[..|txn|] == txn;
      r := Done;
    }

    /**
     * One transaction, from begin to end: all of its writes are committed, or
     * none. It panics exactly if it writes 128 blocks or more, and hangs only
     * with a lock that a failed write kept.
     */
    method RunTxn(txn: Txn) returns (r: Outcome)
      requires Valid() && !busy && TxnOk(txn, |disk|, j) && SameHome(cache, Last(history), j)
      modifies this
      ensures HistoryOk(history, j) && !r.Failed?
      ensures history.states == old(history.states) || IsNext(history.states, old(history.states), txn, j)
      ensures r.Done? ==> Valid() && !busy && |disk| == |old(disk)|
      ensures r.Done? && enabled ==> SameHome(cache, Last(history), j)
      ensures r.Done? && enabled && txn != [] ==> IsNext(history.states, old(history.states), txn, j)
      ensures enabled ==> (r.Panicked? <==> !Fits(txn))
      ensures Faults(oracle) <= Faults(old(oracle)) && (r.Hung? ==> held != {} && Faults(oracle) < Faults(old(oracle)))
    {
      ghost var base := Last(history);
      r := BeginTxn();
      r := WriteAll(txn, base);
      if r.Panicked? {
        return;
      }
      MovedIsNext(txn);
      r := EndTxn();
    }

    lemma MovedIsNext(txn: Txn)
      requires Valid() && Writing(Last(history), txn)
      ensures Moved() == history.states || IsNext(Moved(), history.states, txn, j)
      ensures enabled ==> SameHome(cache, Moved()[|Moved()| - 1], j)
      ensures enabled && txn != [] ==> IsNext(Moved(), history.states, txn, j)
      ensures enabled ==> |datablks| == |Blocks(txn)|
    {
      if enabled {
        ListSize(datablks, Blocks(txn));
        if txn != [] {
          assert txn[0].0 in Blocks(txn);
        }
        OverlayIsStore(Last(history), datablks, cache, txn, j);
      }
    }

    /** The first n transactions are through. */
    ghost predicate Ran(start: Disk, txns: seq<Txn>, n: nat)
      reads this
      requires n <= |txns|
    {
      && Valid() && enabled && !busy && |disk| == |start|
      && SameHome(cache, Last(history), j) && SameHome(Last(history), Between(start, txns, n), j)
    }

    method RunNext(txns: seq<Txn>, i: nat, ghost start: Disk, ghost upto: seq<nat>)
      returns (r: Outcome, ghost upto': seq<nat>)
      requires i < |txns| && Ran(start, txns, i) && TxnOk(txns[i], |disk|, j)
      requires Tracks(history.states, upto, start, txns, i, j)
      modifies this
      ensures HistoryOk(history, j) && Tracks(history.states, upto', start, txns, i + 1, j) && !r.Failed?
      ensures r.Done? ==> Ran(start, txns, i + 1)
      ensures EndsAt(Done, txns, i) ==> EndsAt(r, txns, i + 1)
      ensures Faults(oracle) <= Faults(old(oracle)) && (r.Hung? ==> held != {} && Faults(oracle) < Faults(old(oracle)))
    {
      ghost var states := history.states;
      r := RunTxn(txns[i]);
      upto' := TrackStep(states, history.states, upto, start, txns, i, j);
    }

    /**
     * A whole run. After every single write the disk recovers to the state
     * between two transactions, and never to an earlier one than before. If no
     * allocation fails, the run ends well exactly if each transaction fits.
     */
    method Run(txns: seq<Txn>) returns (r: Outcome, ghost marks: seq<nat>)
      requires Valid() && enabled && !busy && history == History([], [], [disk]) && SameHome(cache, disk, j)
      requires forall i | 0 <= i < |txns| :: TxnOk(txns[i], |disk|, j)
      modifies this
      ensures Marked(history.disks, marks, old(disk), txns, j) && !r.Failed?
      ensures r.Done? ==> Valid() && SameHome(disk, Between(old(disk), txns, |txns|), j)
      ensures r.Hung? ==> held != {} && Faults(oracle) < Faults(old(oracle))
      ensures r.Panicked? ==> exists i :: 0 <= i < |txns| && !Fits(txns[i])
      ensures Faults(old(oracle)) == 0 ==> (r.Done? <==> forall i | 0 <= i < |txns| :: Fits(txns[i]))
    {
      ghost var start := disk;
      ghost var upto, n;
      r, n, upto := RunAll(txns);
      marks := Marks(history, upto, start, txns, n, j);
    }

    method RunAll(txns: seq<Txn>) returns (r: Outcome, ghost n: nat, ghost upto: seq<nat>)
      requires Valid() && enabled && !busy && history == History([], [], [disk]) && SameHome(cache, disk, j)
      requires forall i | 0 <= i < |txns| :: TxnOk(txns[i], |disk|, j)
      modifies this
      ensures HistoryOk(history, j) && n <= |txns| && Tracks(history.states, upto, old(disk), txns, n, j) && !r.Failed?
      ensures r.Done? ==> n == |txns| && Ran(old(disk), txns, n)
      ensures r.Hung? ==> held != {} && Faults(oracle) < Faults(old(oracle))
      ensures EndsAt(r, txns, n)
    {
      upto, r := [0], Done;
      var i := 0;
      while i < |txns| && r.Done?
        invariant 0 <= i <= |txns| && HistoryOk(history, j) && !r.Failed?
        invariant Tracks(history.states, upto, old(disk), txns, i, j)
        invariant (r.Done? ==> Ran(old(disk), txns, i)) && EndsAt(r, txns, i)
        invariant Faults(oracle) <= Faults(old(oracle)) && (r.Hung? ==> held != {} && Faults(oracle) < Faults(old(oracle)))
      {
        r, upto := RunNext(txns, i, old(disk), upto);
        i := i + 1;
      }
      n := i;
    }
  }
}
