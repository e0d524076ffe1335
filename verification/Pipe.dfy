/**
 pipe.c: a ring of PIPESIZE bytes with 32-bit counters that run on and wrap around. Readers and writers
 hold the pipe's lock from one sleep to the next, so a run is any sequence of such sections.
 */
module Pipe {
  type Byte = x: int | 0 <= x < 256

  const PIPESIZE := 512
  const WORD := 0x1_0000_0000

  datatype Ring = Ring(data: seq<Byte>, nread: nat, nwrite: nat)

  // Steps: one byte in or out

  predicate Full(r: Ring) {
    r.nwrite == (r.nread + PIPESIZE) % WORD
  }

  predicate Empty(r: Ring) {
    r.nread == r.nwrite
  }

  predicate Shaped(r: Ring) {
    |r.data| == PIPESIZE && r.nread < WORD && r.nwrite < WORD
  }

  function Put(r: Ring, b: Byte): (r': Ring)
    requires Shaped(r)
    ensures Shaped(r')
  {
    r.(data := r.data[r.nwrite % PIPESIZE := b], nwrite := (r.nwrite + 1) % WORD)
  }

  function Get(r: Ring): (r': Ring)
    requires Shaped(r)
    ensures Shaped(r')
  {
    r.(nread := (r.nread + 1) % WORD)
  }

  function Front(r: Ring): Byte
    requires Shaped(r)
  {
    r.data[r.nread % PIPESIZE]
  }

  // The queue that the ring stands for

  /** So many bytes are on their way, and these they are. */
  ghost predicate Holds(r: Ring, q: seq<Byte>) {
    && Shaped(r) && |q| <= PIPESIZE
    && r.nwrite == (r.nread + |q|) % WORD
    && forall i :: 0 <= i < |q| ==> r.data[(r.nread + i) % PIPESIZE] == q[i]
  }

  lemma HoldsTests(r: Ring, q: seq<Byte>)
    requires Holds(r, q)
    ensures Full(r) <==> |q| == PIPESIZE
    ensures Empty(r) <==> |q| == 0
  {}

  /** PIPESIZE divides the range of the counters, so the place does not jump when they wrap. */
  lemma WrapPlace(x: nat)
    ensures x % WORD % PIPESIZE == x % PIPESIZE
  {
    assert WORD == 0x80_0000 * PIPESIZE;
    assert x == (x / WORD * 0x80_0000) * PIPESIZE + x % WORD;
    SamePlace(x / WORD * 0x80_0000, x % WORD);
  }

  lemma SamePlace(k: nat, y: nat)
    ensures (k * PIPESIZE + y) % PIPESIZE == y % PIPESIZE
  {}

  lemma PutAt(r: Ring, q: seq<Byte>, b: Byte, i: nat)
    requires Holds(r, q) && |q| < PIPESIZE && i <= |q|
    ensures Put(r, b).data[(r.nread + i) % PIPESIZE] == (q + [b])[i]
  {
    WrapPlace(r.nread + |q|);
    if i < |q| {
      PlacesDiffer(r.nread, i, |q|);
      assert r.data[(r.nread + i) % PIPESIZE] == q[i];
    }
  }

  lemma PutHolds(r: Ring, q: seq<Byte>, b: Byte)
    requires Holds(r, q) && |q| < PIPESIZE
    ensures Holds(Put(r, b), q + [b])
  {
    var r', q' := Put(r, b), q + [b];
    Count(r.nread, |q|);
    forall i | 0 <= i < |q'| ensures r'.data[(r'.nread + i) % PIPESIZE] == q'[i] {
      PutAt(r, q, b, i);
    }
  }

  lemma Count(x: nat, n: nat)
    ensures ((x + n) % WORD + 1) % WORD == (x + (n + 1)) % WORD
  {}

  lemma PlacesDiffer(x: nat, i: nat, j: nat)
    requires i < j < i + PIPESIZE
    ensures (x + i) % PIPESIZE != (x + j) % PIPESIZE
  {}

  lemma GetHolds(r: Ring, q: seq<Byte>)
    requires Holds(r, q) && |q| > 0
    ensures Front(r) == q[0] && Holds(Get(r), q[1..])
  {
    assert (r.nread + 0) % PIPESIZE == r.nread % PIPESIZE;
    var r', q' := Get(r), q[1..];
    forall i | 0 <= i < |q'| ensures r'.data[(r'.nread + i) % PIPESIZE] == q'[i] {
      assert r.data[(r.nread + (i + 1)) % PIPESIZE] == q[i + 1];
      NextPlace(r.nread, i);
    }
    Advance(r.nread, |q|);
  }

  lemma NextPlace(x: nat, i: nat)
    requires x < WORD && i < PIPESIZE
    ensures ((x + 1) % WORD + i) % PIPESIZE == (x + (i + 1)) % PIPESIZE
  {
    if x + 1 == WORD {
      SamePlace(0x80_0000, i);
    }
  }

  lemma Advance(x: nat, n: nat)
    requires x < WORD && 0 < n <= PIPESIZE
    ensures (x + n) % WORD == ((x + 1) % WORD + (n - 1)) % WORD
  {}

  // Runs

  datatype Event = Write(b: Byte) | Read

  ghost predicate Enabled(r: Ring, e: Event) {
    match e
    case Write(b) => !Full(r)
    case Read => !Empty(r)
  }

  function Next(r: Ring, e: Event): (r': Ring)
    requires Shaped(r)
    ensures Shaped(r')
  {
    match e
    case Write(b) => Put(r, b)
    case Read => Get(r)
  }

  ghost predicate ValidRun(r: Ring, es: seq<Event>)
    requires Shaped(r)
    decreases |es|
  {
    es == [] || (Enabled(r, es[0]) && ValidRun(Next(r, es[0]), es[1..]))
  }

  function Sent(es: seq<Event>): seq<Byte> {
    if es == [] then [] else (if es[0].Write? then [es[0].b] else []) + Sent(es[1..])
  }

  function Received(r: Ring, es: seq<Event>): seq<Byte>
    requires Shaped(r)
    decreases |es|
  {
    if es == [] then [] else (if es[0].Read? then [Front(r)] else []) + Received(Next(r, es[0]), es[1..])
  }

  function Final(r: Ring, es: seq<Event>): (r': Ring)
    requires Shaped(r)
    ensures Shaped(r')
    decreases |es|
  {
    if es == [] then r else Final(Next(r, es[0]), es[1..])
  }

  /** What was in the ring and then sent is what is received and then left in it, in this order. */
  lemma {:induction false} RunFifo(r: Ring, q: seq<Byte>, es: seq<Event>) returns (left: seq<Byte>)
    requires Holds(r, q) && ValidRun(r, es)
    ensures Holds(Final(r, es), left)
    ensures q + Sent(es) == Received(r, es) + left
    decreases |es|
  {
    hide Holds, Full, Empty, Put, Get, Front;
    HoldsShape(r, q);
    if es == [] {
      left := q;
      return;
    }
    HoldsTests(r, q);
    var rest := es[1..];
    match es[0] {
      case Write(b) =>
        PutHolds(r, q, b);
        left := RunFifo(Put(r, b), q + [b], rest);
        Shift(q, b, Sent(rest));
        assert Sent(es) == [b] + Sent(rest);
        assert Received(r, es) == [] + Received(Put(r, b), rest);
        Nothing(Received(Put(r, b), rest));
      case Read =>
        GetHolds(r, q);
        left := RunFifo(Get(r), q[1..], rest);
        assert Sent(es) == [] + Sent(rest);
        Nothing(Sent(rest));
        assert Received(r, es) == [q[0]] + Received(Get(r), rest);
        Behead(q, Sent(rest), Received(Get(r), rest), left);
    }
  }

  lemma Nothing(s: seq<Byte>)
    ensures [] + s == s
  {}

  lemma Shift(q: seq<Byte>, b: Byte, s: seq<Byte>)
    ensures (q + [b]) + s == q + ([b] + s)
  {}

  lemma Behead(q: seq<Byte>, s: seq<Byte>, t: seq<Byte>, left: seq<Byte>)
    requires |q| > 0 && q[1..] + s == t + left
    ensures q + s == ([q[0]] + t) + left
  {
    assert q + s == [q[0]] + (q[1..] + s);
    assert ([q[0]] + t) + left == [q[0]] + (t + left);
  }

  /** From a new pipe: the bytes read are a prefix of those written, at most PIPESIZE behind. */
  lemma PipeFifo(r: Ring, es: seq<Event>)
    requires Shaped(r) && r.nread == r.nwrite == 0 && ValidRun(r, es)
    ensures Received(r, es) <= Sent(es) && |Sent(es)| - |Received(r, es)| <= PIPESIZE
  {
    assert Holds(r, []);
    var left := RunFifo(r, [], es);
    assert [] + Sent(es) == Sent(es);
  }

  // The code

  datatype Outcome = Done | Sleeps | Broken

  class PipeDev {
    var data: array<Byte>
    var nread: nat
    var nwrite: nat
    var readopen: bool
    var writeopen: bool

    /** Some process sleeps on `nread`, some on `nwrite`. */
    var readersAsleep: bool
    var writersAsleep: bool

    ghost function View(): Ring
      reads this, data
    {
      Ring(data[..], nread, nwrite)
    }

    ghost predicate Valid(q: seq<Byte>)
      reads this, data
    {
      Holds(View(), q)
    }

    /** Nobody sleeps without a reason: readers wait for bytes that can still come, writers for room. */
    ghost predicate NoneForgotten(q: seq<Byte>)
      reads this
    {
      && (readersAsleep ==> q == [] && writeopen && readopen)
      && (writersAsleep ==> |q| == PIPESIZE && readopen && writeopen)
    }

    /** pipealloc: pipe.c:21-55. */
    constructor ()
      ensures Valid([]) && NoneForgotten([]) && readopen && writeopen && fresh(data)
    {
      data := new Byte[PIPESIZE];
      nread, nwrite, readopen, writeopen, readersAsleep, writersAsleep := 0, 0, true, true, false, false;
    }

    /** pipeclose: one end is closed, which nobody sleeps at; the pipe itself goes when both are. */
    method Close(writable: bool, ghost q: seq<Byte>) returns (freed: bool)
      requires Valid(q) && (if writable then !writersAsleep else !readersAsleep)
      modifies this`readopen, this`writeopen, this`readersAsleep, this`writersAsleep
      ensures Valid(q) && (old(NoneForgotten(q)) ==> NoneForgotten(q))
      ensures !readersAsleep && !writersAsleep
      ensures writeopen == (old(writeopen) && !writable) && readopen == (old(readopen) && writable)
      ensures freed <==> !readopen && !writeopen
    {
      if writable {
        writeopen := false;
        readersAsleep := false;
      } else {
        readopen := false;
        writersAsleep := false;
      }
      freed := !readopen && !writeopen;
    }

    /** The copying loop of pipewrite, from byte `i` on, up to the end or a full pipe. */
    method CopyIn(addr: seq<Byte>, i: nat, ghost q: seq<Byte>) returns (j: nat)
      requires Valid(q) && i <= |addr|
      modifies this`nwrite, data
      ensures i <= j <= |addr| && Valid(q + addr[i..j])
      ensures j < |addr| ==> |q| + (j - i) == PIPESIZE
    {
      hide Holds;
      j := i;
      assert q + addr[i..i] == q;
      while j < |addr|
        invariant i <= j <= |addr| && Valid(q + addr[i..j])
      {
        ghost var now := q + addr[i..j];
        HoldsTests(View(), now);
        HoldsShape(View(), now);
        if nwrite == (nread + PIPESIZE) % WORD {
          return;
        }
        PutHolds(View(), now, addr[j]);
        ghost var r := View();
        data[nwrite % PIPESIZE] := addr[j];
        nwrite := (nwrite + 1) % WORD;
        assert View() == Put(r, addr[j]);
        assert now + [addr[j]] == q + addr[i..j + 1];
        j := j + 1;
      }
    }

    /**
     pipewrite from byte `i` on, up to the end or the next sleep: the bytes copied join the queue in
     order. It sleeps only when the pipe is full, and gives up only when it is full and nobody can read
     or the process is killed. It wakes the readers, except when it gives up: so it leaves a reader asleep
     beside a full pipe exactly if the process was killed and had more to write than fits.
     */
    method Write(addr: seq<Byte>, i: nat, killed: bool, ghost q: seq<Byte>) returns (j: nat, o: Outcome)
      requires Valid(q) && i <= |addr| && writeopen
      modifies this`nwrite, this`readersAsleep, this`writersAsleep, data
      ensures i <= j <= |addr| && Valid(q + addr[i..j])
      ensures o == Done <==> j == |addr|
      ensures j < |addr| ==> |q| + (j - i) == PIPESIZE && (o == Broken <==> !readopen || killed)
      ensures readersAsleep == (old(readersAsleep) && o == Broken)
      ensures writersAsleep == (old(writersAsleep) || o == Sleeps)
      ensures old(NoneForgotten(q)) ==>
        (NoneForgotten(q + addr[i..j]) <==> !(old(readersAsleep) && killed && |addr| - i > PIPESIZE))
    {
      hide Holds;
      HoldsShape(View(), q);
      j := CopyIn(addr, i, q);
      HoldsShape(View(), q + addr[i..j]);
      if j < |addr| {
        if !readopen || killed {
          return j, Broken;
        }
        readersAsleep := false;
        writersAsleep := true;
        return j, Sleeps;
      }
      readersAsleep := false;
      assert i == j ==> q + addr[i..j] == q;
      o := Done;
    }

    /**
     piperead once it need not wait: the first bytes of the queue, as many as there are and as are asked
     for, after which the writers are awake. It waits exactly if the pipe is empty and can still be
     written; a reader of an empty pipe that cannot gets none, the end of the file.
     */
    method Read(n: nat, killed: bool, ghost q: seq<Byte>) returns (s: seq<Byte>, o: Outcome)
      requires Valid(q) && readopen
      modifies this`nread, this`readersAsleep, this`writersAsleep
      ensures o == Done <==> q != [] || !writeopen
      ensures o == Broken <==> q == [] && writeopen && killed
      ensures |s| == (if o != Done then 0 else if n < |q| then n else |q|)
      ensures s == q[..|s|] && Valid(q[|s|..])
      ensures readersAsleep == (old(readersAsleep) || o == Sleeps)
      ensures writersAsleep == (old(writersAsleep) && o != Done)
      ensures old(NoneForgotten(q)) ==> NoneForgotten(q[|s|..])
    {
      hide Holds;
      HoldsTests(View(), q);
      if nread == nwrite && writeopen {
        if killed {
          return [], Broken;
        }
        readersAsleep := true;
        return [], Sleeps;
      }
      s := CopyOut(n, q);
      writersAsleep := false;
      o := Done;
    }

    method CopyOut(n: nat, ghost q: seq<Byte>) returns (s: seq<Byte>)
      requires Valid(q)
      modifies this`nread
      ensures |s| == (if n < |q| then n else |q|) && s == q[..|s|] && Valid(q[|s|..])
    {
      hide Holds;
      s := [];
      assert q[0..] == q;
      while |s| < n
        invariant |s| <= n && |s| <= |q| && s == q[..|s|] && Valid(q[|s|..])
      {
        ghost var now := q[|s|..];
        HoldsTests(View(), now);
        HoldsShape(View(), now);
        if nread == nwrite {
          break;
        }
        GetHolds(View(), now);
        s := s + [data[nread % PIPESIZE]];
        nread := (nread + 1) % WORD;
        assert now[1..] == q[|s|..];
      }
    }
  }

  /** From a new pipe: a reader waits, a killed process fills the pipe, and the reader sleeps on beside it. */
  method ForgottenReader(addr: seq<Byte>) returns (p: PipeDev)
    requires |addr| > PIPESIZE
    ensures fresh(p) && p.Valid(addr[..PIPESIZE]) && p.readopen && p.writeopen && p.readersAsleep
  {
    p := new PipeDev();
    ghost var q: seq<Byte> := [];
    var s, asleep := p.Read(1, false, q);
    assert q[|s|..] == q;
    var j, broken := p.Write(addr, 0, true, q);
    assert q + addr[0..j] == addr[..PIPESIZE];
  }

  lemma HoldsShape(r: Ring, q: seq<Byte>)
    requires Holds(r, q)
    ensures Shaped(r) && |q| <= PIPESIZE
  {}
}
