/**
 * The on-disk journal and what replaying it means.
 *
 * A disk is a sequence of 512-byte blocks, each 128 words of 32 bits. The
 * journal occupies AREA consecutive blocks: a header holding the number of
 * committed blocks, one block of home block numbers, and 128 data blocks.
 */
module JournalReplay {

  const WORDS := 128
  const JOURNAL_SIZE := 128
  const BMAP_BLKS := 1
  const BMAP_START := 1
  const JDATA_START := BMAP_START + BMAP_BLKS
  const AREA := JDATA_START + JOURNAL_SIZE

  type Block = seq<nat>
  type Disk = seq<Block>

  predicate InJournal(j: nat, b: nat)
  {
    j <= b < j + 130
  }

  ghost predicate Shaped(d: Disk, j: nat)
  {
    j + 130 <= |d| && forall b | 0 <= b < |d| :: |d[b]| == 128
  }

  /** Two disks agree on every block outside the journal. */
  ghost predicate SameHome(d: Disk, e: Disk, j: nat)
  {
    |d| == |e| && forall b | 0 <= b < |d| && !InJournal(j, b) :: d[b] == e[b]
  }

  // --- Replay ---

  /** Copy the first n data blocks to the homes that the block map records. */
  function ReplayFirst(d: Disk, j: nat, n: nat): (r: Disk)
    requires Shaped(d, j) && n <= 128
    ensures |r| == |d|
  {
    if n == 0 then d
    else
      var home := d[j + 1][n - 1];
      var r := ReplayFirst(d, j, n - 1);
      if home < |d| then r[home := d[j + 2 + n - 1]] else r
  }

  /** Recovery as the on-disk layout defines it: the header says how much to copy. */
  function Replay(d: Disk, j: nat): (r: Disk)
    requires Shaped(d, j)
    ensures |r| == |d|
  {
    if d[j][0] <= 128 then ReplayFirst(d, j, d[j][0]) else d
  }

  ghost predicate Recovers(d: Disk, target: Disk, j: nat)
  {
    Shaped(d, j) && SameHome(Replay(d, j), target, j)
  }

  /** `d` with the blocks `hs` taken from `c`. */
  function Overlay(d: Disk, hs: seq<nat>, c: Disk): (r: Disk)
    requires |c| == |d|
    ensures |r| == |d|
    ensures forall b | 0 <= b < |d| :: r[b] == if b in hs then c[b] else d[b]
  {
    seq(|d|, b requires 0 <= b < |d| => if b in hs then c[b] else d[b])
  }

  // --- The shapes a disk has during a commit ---

  /** Nothing is committed in the journal and the homes hold `target`. */
  ghost predicate Clean(d: Disk, target: Disk, j: nat)
  {
    Shaped(d, j) && d[j][0] == 0 && SameHome(d, target, j)
  }

  ghost predicate Homes(hs: seq<nat>, size: nat, j: nat)
  {
    && |hs| <= JOURNAL_SIZE
    && (forall i | 0 <= i < |hs| :: hs[i] < size && !InJournal(j, hs[i]))
    && (forall i, k | 0 <= i < k < |hs| :: hs[i] != hs[k])
  }

  /** The first n data blocks hold the contents of their homes in `c`. */
  ghost predicate DataLogged(d: Disk, hs: seq<nat>, n: nat, c: Disk, j: nat)
    requires Shaped(d, j) && |c| == |d| && Homes(hs, |d|, j) && n <= |hs|
  {
    forall i | 0 <= i < n :: d[j + JDATA_START + i] == c[hs[i]]
  }

  ghost predicate MapLogged(d: Disk, hs: seq<nat>, j: nat)
    requires Shaped(d, j) && |hs| <= WORDS
  {
    d[j + BMAP_START][..|hs|] == hs
  }

  /**
   * The journal holds `hs` with their contents in `c`; each home still has its
   * contents in `base` or, if it is in `hs`, already has the new ones.
   */
  ghost predicate Logged(d: Disk, base: Disk, hs: seq<nat>, c: Disk, j: nat)
  {
    && Shaped(d, j) && |c| == |d| == |base| && Homes(hs, |d|, j)
    && d[j][0] == |hs| && MapLogged(d, hs, j) && DataLogged(d, hs, |hs|, c, j)
    && forall b | 0 <= b < |d| && !InJournal(j, b) :: d[b] == base[b] || (b in hs && d[b] == c[b])
  }

  // --- What each shape recovers to ---

  lemma CleanRecovers(d: Disk, target: Disk, j: nat)
    requires Clean(d, target, j)
    ensures Recovers(d, target, j)
  {
    assert Replay(d, j) == d;
  }

  lemma {:induction false} ReplayFirstAt(d: Disk, base: Disk, hs: seq<nat>, c: Disk, j: nat, n: nat, b: nat)
    requires Logged(d, base, hs, c, j) && n <= |hs| && b < |d| && !InJournal(j, b)
    ensures ReplayFirst(d, j, n)[b] == if b in hs[..n] then c[b] else d[b]
  {
    if n > 0 {
      ReplayFirstAt(d, base, hs, c, j, n - 1, b);
      assert d[j + BMAP_START][n - 1] == d[j + BMAP_START][..|hs|][n - 1] == hs[n - 1];
      assert hs[..n] == hs[..n - 1] + [hs[n - 1]];
    }
  }

  /** However far the homes have been rewritten, replay gives the whole new state. */
  lemma LoggedRecovers(d: Disk, base: Disk, hs: seq<nat>, c: Disk, j: nat)
    requires Logged(d, base, hs, c, j)
    ensures Recovers(d, Overlay(base, hs, c), j)
  {
    assert hs[..|hs|] == hs;
    forall b: nat | b < |d| && !InJournal(j, b) ensures Replay(d, j)[b] == Overlay(base, hs, c)[b] {
      ReplayFirstAt(d, base, hs, c, j, |hs|, b);
    }
  }

  // --- How single block writes move between the shapes ---

  /** A write to the block map or to a data block is invisible while nothing is committed. */
  lemma CleanJournalWrite(d: Disk, target: Disk, j: nat, b: nat, x: Block)
    requires Clean(d, target, j) && j < b < j + AREA && |x| == WORDS
    ensures Clean(d[b := x], target, j)
  {
  }

  /** Rewriting a committed data block with the same contents changes nothing. */
  lemma LoggedDataWrite(d: Disk, base: Disk, hs: seq<nat>, c: Disk, j: nat, i: nat)
    requires Logged(d, base, hs, c, j) && i < |hs|
    ensures Logged(d[j + JDATA_START + i := c[hs[i]]], base, hs, c, j)
  {
    assert d[j + JDATA_START + i] == c[hs[i]];
    assert d[j + JDATA_START + i := c[hs[i]]] == d;
  }

  lemma DataExtend(d: Disk, hs: seq<nat>, i: nat, c: Disk, j: nat)
    requires Shaped(d, j) && |c| == |d| && Homes(hs, |d|, j) && i < |hs| && |c[hs[i]]| == WORDS
    requires DataLogged(d, hs, i, c, j)
    ensures DataLogged(d[j + JDATA_START + i := c[hs[i]]], hs, i + 1, c, j)
  {
  }

  /** The header write commits. */
  lemma HeaderCommits(d: Disk, base: Disk, hs: seq<nat>, c: Disk, j: nat, x: Block)
    requires Clean(d, base, j) && |c| == |d| && Homes(hs, |d|, j) && |x| == WORDS && x[0] == |hs|
    requires MapLogged(d, hs, j) && DataLogged(d, hs, |hs|, c, j)
    ensures Logged(d[j := x], base, hs, c, j)
  {
    var e := d[j := x];
    assert e[j + BMAP_START] == d[j + BMAP_START];
  }

  lemma HomeWrite(d: Disk, base: Disk, hs: seq<nat>, c: Disk, j: nat, i: nat)
    requires Logged(d, base, hs, c, j) && i < |hs| && |c[hs[i]]| == WORDS
    ensures Logged(d[hs[i] := c[hs[i]]], base, hs, c, j)
  {
    var e := d[hs[i] := c[hs[i]]];
    assert e[j] == d[j] && e[j + BMAP_START] == d[j + BMAP_START];
  }

  /** Once every home is rewritten the journal can be erased. */
  lemma EraseCleans(d: Disk, target: Disk, j: nat, x: Block)
    requires Shaped(d, j) && SameHome(d, target, j) && |x| == WORDS && x[0] == 0
    ensures Clean(d[j := x], target, j)
  {
  }

  // --- The phases of a commit ---

  /** Nothing committed yet; committed; or applied and being erased. */
  datatype Phase = Fresh | Sealed | Erasing

  /** In the last phase the journal's list is empty and `base` is the new state. */
  ghost predicate Stage(d: Disk, base: Disk, hs: seq<nat>, c: Disk, j: nat, ph: Phase)
  {
    && |c| == |d| == |base| && Homes(hs, |d|, j)
    && match ph
       case Fresh => Clean(d, base, j)
       case Sealed => Logged(d, base, hs, c, j)
       case Erasing => hs == [] && SameHome(d, base, j) && Recovers(d, base, j)
  }

  /** The state that a disk in this phase recovers to. */
  ghost function Target(base: Disk, hs: seq<nat>, c: Disk, ph: Phase): Disk
    requires |c| == |base|
  {
    if ph.Sealed? then Overlay(base, hs, c) else base
  }

  lemma StageRecovers(d: Disk, base: Disk, hs: seq<nat>, c: Disk, j: nat, ph: Phase)
    requires Stage(d, base, hs, c, j, ph)
    ensures Recovers(d, Target(base, hs, c, ph), j)
  {
    match ph
    case Fresh => CleanRecovers(d, base, j);
    case Sealed => LoggedRecovers(d, base, hs, c, j);
    case Erasing =>
  }

  lemma StageData(d: Disk, base: Disk, hs: seq<nat>, c: Disk, j: nat, ph: Phase, i: nat)
    requires Stage(d, base, hs, c, j, ph) && i < |hs| && |c[hs[i]]| == WORDS
    ensures var e := d[j + JDATA_START + i := c[hs[i]]];
            Stage(e, base, hs, c, j, ph) && Recovers(e, Target(base, hs, c, ph), j)
  {
    var e := d[j + JDATA_START + i := c[hs[i]]];
    if ph.Sealed? {
      LoggedDataWrite(d, base, hs, c, j, i);
    } else {
      CleanJournalWrite(d, base, j, j + JDATA_START + i, c[hs[i]]);
    }
    StageRecovers(e, base, hs, c, j, ph);
  }

  lemma StageMap(d: Disk, base: Disk, hs: seq<nat>, c: Disk, j: nat, ph: Phase, x: Block)
    requires Stage(d, base, hs, c, j, ph) && !ph.Sealed? && |hs| > 0 && |x| == WORDS
    ensures var e := d[j + BMAP_START := x]; Stage(e, base, hs, c, j, ph) && Recovers(e, base, j)
  {
    CleanJournalWrite(d, base, j, j + BMAP_START, x);
    CleanRecovers(d[j + BMAP_START := x], base, j);
  }

  lemma StageHeader(d: Disk, base: Disk, hs: seq<nat>, c: Disk, j: nat, ph: Phase, x: Block)
    requires Stage(d, base, hs, c, j, ph) && !ph.Sealed? && |x| == WORDS && x[0] == |hs|
    requires MapLogged(d, hs, j) && DataLogged(d, hs, |hs|, c, j)
    ensures var e := d[j := x]; var next := if ph.Fresh? then Sealed else Erasing;
            Stage(e, base, hs, c, j, next) && Recovers(e, Target(base, hs, c, next), j)
  {
    var e := d[j := x];
    if ph.Fresh? {
      HeaderCommits(d, base, hs, c, j, x);
      StageRecovers(e, base, hs, c, j, Sealed);
    } else {
      EraseCleans(d, base, j, x);
      CleanRecovers(e, base, j);
    }
  }

  lemma StageHome(d: Disk, base: Disk, hs: seq<nat>, c: Disk, j: nat, ph: Phase, i: nat)
    requires Stage(d, base, hs, c, j, ph) && !ph.Fresh? && i < |hs| && |c[hs[i]]| == WORDS
    ensures var e := d[hs[i] := c[hs[i]]];
            Stage(e, base, hs, c, j, ph) && Recovers(e, Target(base, hs, c, ph), j)
  {
    HomeWrite(d, base, hs, c, j, i);
    LoggedRecovers(d[hs[i] := c[hs[i]]], base, hs, c, j);
  }

  lemma StageApplied(d: Disk, base: Disk, hs: seq<nat>, c: Disk, j: nat, ph: Phase)
    requires Stage(d, base, hs, c, j, ph) && !ph.Fresh? && forall k | 0 <= k < |hs| :: d[hs[k]] == c[hs[k]]
    ensures Stage(d, Target(base, hs, c, ph), [], c, j, Erasing)
  {
    StageRecovers(d, base, hs, c, j, ph);
    if ph.Sealed? {
      forall b: nat | b < |d| && !InJournal(j, b) ensures d[b] == Overlay(base, hs, c)[b] {
        assert b in hs ==> exists k :: 0 <= k < |hs| && hs[k] == b;
      }
    }
  }
}
