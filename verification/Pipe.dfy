/** The pipe: a ring of 512 bytes with 64-bit offsets that wrap around. */
module Pipe {

  const PIPE_SZ := 512
  const WORD := 0x1_0000_0000_0000_0000

  datatype ReadResult = ReadBlocks | Bytes(data: seq<nat>)
  datatype WriteResult = WriteBlocks | NoReaders | Wrote(count: nat)

  function Inc(x: nat): nat
  {
    (x + 1) % WORD
  }

  /** A difference of offsets in 64-bit arithmetic. */
  function Diff(w: nat, r: nat): nat
  {
    (w - r) % WORD
  }

  function Min(a: nat, b: nat): nat
  {
    if a < b then a else b
  }

  /** Because 512 divides 2^64, a wrapped offset falls on the same place in the ring. */
  lemma WrapPlace(n: nat)
    ensures n % WORD % PIPE_SZ == n % PIPE_SZ
  {
    var q := n / WORD;
    assert n == q * WORD + n % WORD;
    assert WORD == PIPE_SZ * 0x80_0000_0000_0000;
  }

  lemma WrapInc(n: nat)
    ensures Inc(n % WORD) == (n + 1) % WORD
  {
  }

  /** Wrapped offsets at most 512 apart differ by their true distance. */
  lemma WrapDiff(w: nat, r: nat)
    requires r <= w <= r + PIPE_SZ
    ensures Diff(w % WORD, r % WORD) == w - r
  {
  }

  /** Distinct positions within one ring length fall on distinct places. */
  lemma PlacesApart(a: nat, b: nat)
    requires a < b < a + PIPE_SZ
    ensures a % PIPE_SZ != b % PIPE_SZ
  {
  }

  class Pipe {
    const buffer: array<nat>
    var readOfs: nat
    var writeOfs: nat
    var readers: nat
    var writers: nat
    // All bytes ever taken in and ever given out.
    ghost var accepted: seq<nat>
    ghost var delivered: seq<nat>

    ghost predicate Valid()
      reads this, buffer
    {
      && buffer.Length == PIPE_SZ && delivered <= accepted && |accepted| - |delivered| <= PIPE_SZ
      && readOfs == |delivered| % WORD && writeOfs == |accepted| % WORD
      && (forall k: nat {:trigger accepted[k]} | |delivered| <= k < |accepted| :: buffer[k % PIPE_SZ] == accepted[k])
    }

    /** The bytes in the ring. */
    ghost function Pending(): seq<nat>
      reads this
      requires delivered <= accepted
    {
      accepted[|delivered|..]
    }

    /** `kpipe_init`. */
    constructor ()
      ensures Valid() && fresh(buffer) && accepted == delivered == [] && readers == writers == 1
    {
      buffer := new nat[PIPE_SZ](_ => 0);
      readOfs, writeOfs, readers, writers := 0, 0, 1, 1;
      accepted, delivered := [], [];
    }

    /** One byte out of the ring. */
    method Get() returns (c: nat)
      requires Valid() && |delivered| < |accepted|
      modifies `readOfs, `delivered
      ensures Valid() && delivered == old(delivered) + [c] && c == accepted[|old(delivered)|]
    {
      WrapPlace(|delivered|);
      WrapInc(|delivered|);
      c := buffer[readOfs % PIPE_SZ];
      readOfs := Inc(readOfs);
      assert c == accepted[|delivered|];
      delivered := delivered + [c];
    }

    /** One byte into the ring. */
    method Put(c: nat)
      requires Valid() && |accepted| - |delivered| < PIPE_SZ
      modifies buffer, `writeOfs, `accepted
      ensures Valid() && accepted == old(accepted) + [c]
    {
      WrapPlace(|accepted|);
      WrapInc(|accepted|);
      forall k: nat | |delivered| <= k < |accepted| ensures k % PIPE_SZ != |accepted| % PIPE_SZ {
        PlacesApart(k, |accepted|);
      }
      buffer[writeOfs % PIPE_SZ] := c;
      writeOfs := Inc(writeOfs);
      accepted := accepted + [c];
    }

    /**
     * `kpipe_read`: the oldest bytes, as many as are there and asked for. On
     * an empty ring it sleeps, or returns nothing once no writer remains.
     */
    method Read(count: nat) returns (r: ReadResult)
      requires Valid()
      modifies this
      ensures Valid() && accepted == old(accepted) && readers == old(readers) && writers == old(writers)
      ensures r.ReadBlocks? <==> old(Pending()) == [] && writers > 0
      ensures r.ReadBlocks? ==> delivered == old(delivered)
      ensures r.Bytes? ==> r.data == old(Pending())[..Min(count, |old(Pending())|)] && delivered == old(delivered) + r.data
      ensures r.Bytes? && count > 0 && r.data == [] ==> old(Pending()) == [] && writers == 0
    {
      WrapDiff(|accepted|, |delivered|);
      if Diff(writeOfs, readOfs) == 0 {
        return if writers == 0 then Bytes([]) else ReadBlocks;
      }
      var left, buf := count, [];
      while left > 0 && Diff(writeOfs, readOfs) != 0
        invariant Valid() && accepted == old(accepted) && readers == old(readers) && writers == old(writers)
        invariant |buf| + left == count && delivered == old(delivered) + buf
        invariant |delivered| <= |accepted| && Diff(writeOfs, readOfs) == |accepted| - |delivered|
        decreases left
      {
        var c := Get();
        buf := buf + [c];
        left := left - 1;
        WrapDiff(|accepted|, |delivered|);
      }
      r := Bytes(buf);
      assert buf == accepted[|old(delivered)|..|delivered|] by {
        assert delivered == accepted[..|delivered|];
      }
    }

    /**
     * `kpipe_write`: a prefix of the bytes, as many as fit. On a full ring it
     * sleeps; without readers it fails, but a writer that was asleep does not
     * look for readers again.
     */
    method Write(src: seq<nat>, woken: bool) returns (r: WriteResult)
      requires Valid()
      modifies this, buffer
      ensures Valid() && delivered == old(delivered) && readers == old(readers) && writers == old(writers)
      ensures r.NoReaders? <==> readers == 0 && !woken
      ensures r.WriteBlocks? <==> (readers > 0 || woken) && |old(Pending())| == PIPE_SZ
      ensures !r.Wrote? ==> accepted == old(accepted)
      ensures r.Wrote? ==> r.count == Min(|src|, PIPE_SZ - |old(Pending())|) && accepted == old(accepted) + src[..r.count]
    {
      if !woken && readers == 0 {
        return NoReaders;
      }
      WrapDiff(|accepted|, |delivered|);
      if Diff(writeOfs, readOfs) == PIPE_SZ {
        return WriteBlocks;
      }
      var written := 0;
      while written < |src| && Diff(writeOfs, readOfs) != PIPE_SZ
        invariant Valid() && delivered == old(delivered) && readers == old(readers) && writers == old(writers)
        invariant 0 <= written <= |src| && accepted == old(accepted) + src[..written]
        invariant Diff(writeOfs, readOfs) == |accepted| - |delivered|
      {
        Put(src[written]);
        assert src[..written + 1] == src[..written] + [src[written]];
        written := written + 1;
        WrapDiff(|accepted|, |delivered|);
      }
      r := Wrote(written);
    }

    /** `kpipe_ref_increase` and `kpipe_ref_decrease` of an end. */
    method SetEnds(r: nat, w: nat)
      requires Valid()
      modifies `readers, `writers
      ensures Valid() && readers == r && writers == w
    {
      readers, writers := r, w;
    }
  }

  // --- Any interleaving of calls ---

  /** A call of writer w, or the end of its sleep. */
  datatype Op = ReadOp(count: nat) | WriteOp(w: nat, src: seq<nat>) | WakeOp(w: nat) | EndsOp(readers: nat, writers: nat)

  datatype Answer = Slept | Got(data: seq<nat>) | Took(count: nat) | Refused | Nothing

  /** The reference: a queue of at most 512 bytes, and what each sleeping writer wants to write. */
  datatype Queue = Queue(bytes: seq<nat>, readers: nat, writers: nat, asleep: map<nat, seq<nat>>)

  function Room(q: Queue, src: seq<nat>): nat
  {
    if |q.bytes| <= PIPE_SZ then Min(|src|, PIPE_SZ - |q.bytes|) else 0
  }

  function Respond(q: Queue, op: Op): Answer
  {
    match op
    case ReadOp(count) =>
      if q.bytes == [] && q.writers > 0 then Slept else Got(q.bytes[..Min(count, |q.bytes|)])
    case WriteOp(w, src) =>
      if w in q.asleep then Nothing
      else if q.readers == 0 then Refused
      else if |q.bytes| == PIPE_SZ then Slept
      else Took(Room(q, src))
    case WakeOp(w) =>
      if w !in q.asleep then Nothing
      else if |q.bytes| == PIPE_SZ then Slept
      else Took(Room(q, q.asleep[w]))
    case EndsOp(_, _) => Nothing
  }

  function After(q: Queue, op: Op): Queue
  {
    match op
    case ReadOp(count) => q.(bytes := q.bytes[Min(count, |q.bytes|)..])
    case WriteOp(w, src) =>
      if Respond(q, op).Took? then q.(bytes := q.bytes + src[..Room(q, src)])
      else if Respond(q, op).Slept? then q.(asleep := q.asleep[w := src])
      else q
    case WakeOp(w) =>
      if Respond(q, op).Took? then q.(bytes := q.bytes + q.asleep[w][..Room(q, q.asleep[w])], asleep := q.asleep - {w})
      else q
    case EndsOp(r, w) => q.(readers := r, writers := w)
  }

  ghost function AfterAll(q: Queue, ops: seq<Op>): Queue
  {
    if ops == [] then q else After(AfterAll(q, ops[..|ops| - 1]), ops[|ops| - 1])
  }

  ghost function RespondAll(q: Queue, ops: seq<Op>): seq<Answer>
  {
    if ops == [] then []
    else var n := |ops| - 1; RespondAll(q, ops[..n]) + [Respond(AfterAll(q, ops[..n]), ops[n])]
  }

  lemma OneMore(q: Queue, ops: seq<Op>, i: nat)
    requires i < |ops|
    ensures AfterAll(q, ops[..i + 1]) == After(AfterAll(q, ops[..i]), ops[i])
    ensures RespondAll(q, ops[..i + 1]) == RespondAll(q, ops[..i]) + [Respond(AfterAll(q, ops[..i]), ops[i])]
  {
    assert ops[..i + 1][..i] == ops[..i];
  }

  ghost function View(p: Pipe, asleep: map<nat, seq<nat>>): Queue
    reads p, p.buffer
    requires p.Valid()
  {
    Queue(p.Pending(), p.readers, p.writers, asleep)
  }

  method PerformRead(p: Pipe, count: nat, ghost asleep: map<nat, seq<nat>>) returns (a: Answer)
    requires p.Valid()
    modifies p
    ensures p.Valid() && p.accepted == old(p.accepted) && a == Respond(old(View(p, asleep)), ReadOp(count))
    ensures View(p, asleep) == After(old(View(p, asleep)), ReadOp(count))
    ensures p.delivered == old(p.delivered) + (if a.Got? then a.data else [])
  {
    var r := p.Read(count);
    a := if r.Bytes? then Got(r.data) else Slept;
  }

  method PerformWrite(p: Pipe, src: seq<nat>, woken: bool) returns (a: Answer)
    requires p.Valid()
    modifies p, p.buffer
    ensures p.Valid() && p.delivered == old(p.delivered) && p.readers == old(p.readers) && p.writers == old(p.writers)
    ensures a == if p.readers == 0 && !woken then Refused
                 else if |old(p.Pending())| == PIPE_SZ then Slept else Took(Min(|src|, PIPE_SZ - |old(p.Pending())|))
    ensures p.accepted == old(p.accepted) + (if a.Took? then src[..a.count] else [])
    ensures p.Pending() == old(p.Pending()) + (if a.Took? then src[..a.count] else [])
  {
    var r := p.Write(src, woken);
    a := match r case NoReaders => Refused case WriteBlocks => Slept case Wrote(n) => Took(n);
  }

  /** One call, answered as the queue answers it. */
  method Perform(p: Pipe, op: Op, asleep: map<nat, seq<nat>>) returns (a: Answer, asleep': map<nat, seq<nat>>)
    requires p.Valid()
    modifies p, p.buffer
    ensures p.Valid() && a == Respond(old(View(p, asleep)), op) && View(p, asleep') == After(old(View(p, asleep)), op)
    ensures p.delivered == old(p.delivered) + (if a.Got? then a.data else [])
    ensures p.accepted == old(p.accepted) + Taken(op, asleep, a)
  {
    asleep' := asleep;
    match op {
      case ReadOp(count) => a := PerformRead(p, count, asleep);
      case WriteOp(w, src) =>
        if w in asleep {
          return Nothing, asleep;
        }
        a := PerformWrite(p, src, false);
        asleep' := if a.Slept? then asleep[w := src] else asleep;
      case WakeOp(w) =>
        if w !in asleep {
          return Nothing, asleep;
        }
        a := PerformWrite(p, asleep[w], true);
        asleep' := if a.Took? then asleep - {w} else asleep;
      case EndsOp(r, w) =>
        p.SetEnds(r, w);
        a := Nothing;
    }
  }

  /** The bytes that a call took in. */
  function Taken(op: Op, asleep: map<nat, seq<nat>>, a: Answer): seq<nat>
  {
    var src := if op.WriteOp? then op.src else if op.WakeOp? && op.w in asleep then asleep[op.w] else [];
    if a.Took? && a.count <= |src| then src[..a.count] else []
  }

  /**
   * Every call of any run is answered as the queue answers it. The bytes
   * returned, in order, are a prefix of the bytes taken in; at most 512 are on
   * the way.
   */
  method Run(p: Pipe, ops: seq<Op>) returns (answers: seq<Answer>, out: seq<nat>, taken: seq<nat>)
    requires p.Valid() && p.accepted == [] && p.delivered == []
    modifies p, p.buffer
    ensures p.Valid() && answers == RespondAll(old(View(p, map[])), ops)
    ensures p.Pending() == AfterAll(old(View(p, map[])), ops).bytes
    ensures out == p.delivered && taken == p.accepted && out <= taken && |taken| - |out| <= PIPE_SZ
  {
    var asleep: map<nat, seq<nat>> := map[];
    ghost var start := View(p, asleep);
    answers, out, taken := [], [], [];
    for i := 0 to |ops|
      invariant p.Valid() && out == p.delivered && taken == p.accepted
      invariant answers == RespondAll(start, ops[..i]) && View(p, asleep) == AfterAll(start, ops[..i])
    {
      var before := asleep;
      var a;
      a, asleep := Perform(p, ops[i], asleep);
      answers := answers + [a];
      out := out + if a.Got? then a.data else [];
      taken := taken + Taken(ops[i], before, a);
      OneMore(start, ops, i);
    }
    assert ops[..|ops|] == ops;
  }
}
