/**
 Log space: begin_op's reservation keeps every operation that stays within its budget from overflowing
 the log, exactly when the log region has room for LOGSIZE blocks besides its header.
 */
module LogReserve {
  import opened Seqs
  import opened LogModel
  import opened CrashSafety

  /** What the operations in progress may still log. */
  ghost function Unused(ops: map<nat, nat>): int
    decreases |ops|
  {
    if ops == map[] then 0
    else
      var o :| o in ops;
      MAXOPBLOCKS - ops[o] + Unused(ops - {o})
  }

  lemma {:induction false} UnusedSplit(ops: map<nat, nat>, o: nat)
    requires o in ops
    ensures Unused(ops) == MAXOPBLOCKS - ops[o] + Unused(ops - {o})
    decreases |ops|
  {
    var p :| p in ops && Unused(ops) == MAXOPBLOCKS - ops[p] + Unused(ops - {p});
    if p != o {
      UnusedSplit(ops - {p}, o);
      UnusedSplit(ops - {o}, p);
      assert ops - {p} - {o} == ops - {o} - {p};
    }
  }

  lemma UnusedUpdate(ops: map<nat, nat>, o: nat, n: nat)
    ensures Unused(ops[o := n]) == MAXOPBLOCKS - n + Unused(ops - {o})
  {
    UnusedSplit(ops[o := n], o);
    assert ops[o := n] - {o} == ops - {o};
  }

  ghost predicate InBudget(ops: map<nat, nat>) {
    forall o :: o in ops ==> ops[o] <= MAXOPBLOCKS
  }

  lemma {:induction false} UnusedBounds(ops: map<nat, nat>)
    requires InBudget(ops)
    ensures 0 <= Unused(ops) <= |ops| * MAXOPBLOCKS
    decreases |ops|
  {
    if ops != map[] {
      var o :| o in ops;
      UnusedSplit(ops, o);
      assert |ops - {o}| == |ops| - 1 by {
        assert (ops - {o}).Keys == ops.Keys - {o};
      }
      UnusedBounds(ops - {o});
    }
  }

  /** Clients keep to MAXOPBLOCKS log_write calls per operation. */
  ghost predicate Disciplined(m: Machine, e: Event) {
    e.Write? && e.o in m.ops ==> m.ops[e.o] < MAXOPBLOCKS
  }

  ghost predicate DisciplinedRun(L: Layout, m: Machine, es: seq<Event>)
    requires Inv(L, m)
    decreases |es|
  {
    es == [] ||
    (Enabled(L, m, es[0]) && Disciplined(m, es[0]) &&
     (StepInv(L, m, es[0]);
      DisciplinedRun(L, Step(L, m, es[0]), es[1..])))
  }

  /** A log_write within budget that would panic. */
  ghost predicate Overflows(L: Layout, m: Machine, o: nat) {
    m.phase.Up? && o in m.ops && m.ops[o] < MAXOPBLOCKS && TooBig(L, m)
  }

  /** Operations that begin_op lets be in progress at the same time. */
  const MAXOPS := LOGSIZE / MAXOPBLOCKS

  lemma StepOps(L: Layout, m: Machine, e: Event)
    requires Inv(L, m) && Enabled(L, m, e) && |m.ops| <= MAXOPS
    ensures |Step(L, m, e).ops| <= MAXOPS
  {
    hide HeaderOk, Clean, BlocksOk, LogWriteAt, InstallAt, Targets;
    match e
    case End(o) =>
      assert (m.ops - {o}).Keys <= m.ops.Keys;
      assert m.ops.Keys == (m.ops - {o}).Keys + {o};
    case Write(o, b, v) =>
      assert m.ops[o := m.ops[o] + 1].Keys == m.ops.Keys;
    case _ =>
  }

  /** Over any run at most three operations are in progress, and no commit is while one of them is. */
  lemma {:induction false} OpsBounded(L: Layout, m: Machine, es: seq<Event>)
    requires Inv(L, m) && ValidRun(L, m, es) && |m.ops| <= MAXOPS
    ensures |Final(L, m, es).ops| <= MAXOPS
    ensures Final(L, m, es).ops != map[] ==> Final(L, m, es).phase.Up?
    decreases |es|
  {
    if es != [] {
      StepInv(L, m, es[0]);
      StepOps(L, m, es[0]);
      OpsBounded(L, Step(L, m, es[0]), es[1..]);
    }
  }

  // With a smaller region the panic is reachable.

  /** A file system just after recovery. */
  ghost predicate Fresh(L: Layout, m: Machine) {
    Inv(L, m) && m.phase.Up? && m.ops == map[] && m.blocks == []
  }

  ghost predicate HomeBlocks(L: Layout, homes: seq<nat>) {
    NoDup(homes) && forall i :: 0 <= i < |homes| ==> Home(L, homes[i])
  }

  function Clamp(k: int): nat {
    if k < 0 then 0 else if k > MAXOPBLOCKS then MAXOPBLOCKS else k
  }

  /** Three operations in progress that have logged the first `k` of the given blocks between them. */
  ghost predicate Filled(L: Layout, m: Machine, homes: seq<nat>, k: nat) {
    && Inv(L, m) && m.phase.Up? && k <= |homes|
    && m.blocks == homes[..k]
    && m.ops == Spread(k)
  }

  ghost function NextWrite(homes: seq<nat>, k: nat): Event
    requires k < |homes|
  {
    Write(k / MAXOPBLOCKS, homes[k], seq(WORDS, i => 0))
  }

  ghost function Spread(k: nat): map<nat, nat> {
    map[0 := Clamp(k), 1 := Clamp(k - MAXOPBLOCKS), 2 := Clamp(k - 2 * MAXOPBLOCKS)]
  }

  lemma SpreadStep(k: nat)
    requires k < LOGSIZE
    ensures var o := k / MAXOPBLOCKS;
      o in Spread(k) && Spread(k)[o] < MAXOPBLOCKS && Spread(k)[o := Spread(k)[o] + 1] == Spread(k + 1)
  {
    var o := k / MAXOPBLOCKS;
    assert o == 0 || o == 1 || o == 2;
  }

  lemma FillStep(L: Layout, m: Machine, homes: seq<nat>, k: nat)
    requires Filled(L, m, homes, k) && HomeBlocks(L, homes) && k < |homes| <= LOGSIZE && |homes| <= L.size - 1
    ensures Inv(L, m) && Enabled(L, m, NextWrite(homes, k)) && Disciplined(m, NextWrite(homes, k))
    ensures Filled(L, Step(L, m, NextWrite(homes, k)), homes, k + 1)
  {
    hide HeaderOk, Clean, BlocksOk;
    var e := NextWrite(homes, k);
    assert Home(L, homes[k]);
    assert homes[k] !in homes[..k];
    assert homes[..k + 1] == homes[..k] + [homes[k]];
    SpreadStep(k);
    hide Spread;
    StepInv(L, m, e);
  }

  lemma {:induction false} Fill(L: Layout, m: Machine, homes: seq<nat>, k: nat) returns (es: seq<Event>, r: Machine)
    requires Filled(L, m, homes, k) && HomeBlocks(L, homes) && |homes| <= LOGSIZE && |homes| <= L.size - 1
    ensures Inv(L, m) && DisciplinedRun(L, m, es) && ValidRun(L, m, es) && Final(L, m, es) == r
    ensures Filled(L, r, homes, |homes|)
    decreases |homes| - k
  {
    hide Enabled, Step, Inv;
    if k == |homes| {
      es, r := [], m;
    } else {
      FillStep(L, m, homes, k);
      var e := NextWrite(homes, k);
      StepInv(L, m, e);
      var rest;
      rest, r := Fill(L, Step(L, m, e), homes, k + 1);
      es := [e] + rest;
      assert es[1..] == rest;
    }
  }

  lemma BeginThree(L: Layout, m: Machine, homes: seq<nat>) returns (es: seq<Event>, r: Machine)
    requires Fresh(L, m)
    ensures |es| == 3 && DisciplinedRun(L, m, es) && ValidRun(L, m, es) && Final(L, m, es) == r
    ensures Filled(L, r, homes, 0)
  {
    StepInv(L, m, Begin(0));
    var m1 := Step(L, m, Begin(0));
    StepInv(L, m1, Begin(1));
    var m2 := Step(L, m1, Begin(1));
    StepInv(L, m2, Begin(2));
    r := Step(L, m2, Begin(2));
    es := [Begin(0), Begin(1), Begin(2)];
    assert es[1..] == [Begin(1), Begin(2)] && es[1..][1..] == [Begin(2)] && [Begin(2)][1..] == [];
    assert ValidRun(L, r, []) && DisciplinedRun(L, r, []) && Final(L, r, []) == r;
    assert ValidRun(L, m2, [Begin(2)]) && DisciplinedRun(L, m2, [Begin(2)]) && Final(L, m2, [Begin(2)]) == r;
    assert ValidRun(L, m1, es[1..]) && DisciplinedRun(L, m1, es[1..]) && Final(L, m1, es[1..]) == r;
  }

  lemma {:induction false} RunAppend(L: Layout, m: Machine, a: seq<Event>, b: seq<Event>)
    requires Inv(L, m) && ValidRun(L, m, a) && ValidRun(L, Final(L, m, a), b)
    ensures ValidRun(L, m, a + b) && Final(L, m, a + b) == Final(L, Final(L, m, a), b)
    decreases |a|
  {
    hide Enabled, Step, Inv;
    if a == [] {
      assert a + b == b;
    } else {
      StepInv(L, m, a[0]);
      RunAppend(L, Step(L, m, a[0]), a[1..], b);
      assert (a + b)[0] == a[0] && (a + b)[1..] == a[1..] + b;
    }
  }

  lemma {:induction false} DisciplineAppend(L: Layout, m: Machine, a: seq<Event>, b: seq<Event>)
    requires Inv(L, m) && ValidRun(L, m, a) && DisciplinedRun(L, m, a) && DisciplinedRun(L, Final(L, m, a), b)
    ensures DisciplinedRun(L, m, a + b)
    decreases |a|
  {
    hide Enabled, Step, Inv, Disciplined;
    if a == [] {
      assert a + b == b;
    } else {
      StepInv(L, m, a[0]);
      DisciplineAppend(L, Step(L, m, a[0]), a[1..], b);
      assert (a + b)[0] == a[0] && (a + b)[1..] == a[1..] + b;
    }
  }

  /**
   Without that room (mkfs makes a region of exactly LOGSIZE blocks, header included) a disciplined
   run from any freshly recovered file system with enough home blocks ends in the panic.
   */
  lemma Overflow(L: Layout, m: Machine, homes: seq<nat>) returns (es: seq<Event>, o: nat)
    requires Fresh(L, m) && HomeBlocks(L, homes)
    requires L.size - 1 < LOGSIZE && |homes| == L.size - 1
    ensures DisciplinedRun(L, m, es) && ValidRun(L, m, es) && Overflows(L, Final(L, m, es), o)
  {
    hide Enabled, Step, Inv, Disciplined, ValidRun, DisciplinedRun, Filled, HomeBlocks;
    var a, r := BeginThree(L, m, homes);
    var b, s := Fill(L, r, homes, 0);
    RunAppend(L, m, a, b);
    DisciplineAppend(L, m, a, b);
    es, o := a + b, |homes| / MAXOPBLOCKS;
    FilledOverflows(L, s, homes);
  }

  lemma FilledOverflows(L: Layout, m: Machine, homes: seq<nat>)
    requires Filled(L, m, homes, |homes|) && |homes| == L.size - 1 < LOGSIZE
    ensures Overflows(L, m, |homes| / MAXOPBLOCKS)
  {
    assert homes[..|homes|] == homes;
    var o := |homes| / MAXOPBLOCKS;
    assert o == 0 || o == 1 || o == 2;
  }

  /** A disk of zero blocks, as mkfs starts from: an empty log of LOGSIZE blocks from block 2 on. */
  ghost function MkfsDisk(fssize: nat): Machine {
    var d := seq(fssize, x => seq(WORDS, i => 0));
    Machine(d, d, [], map[], Up)
  }

  lemma MkfsFresh(fssize: nat)
    requires 2 + LOGSIZE <= fssize
    ensures Fresh(Layout(2, LOGSIZE, fssize), MkfsDisk(fssize))
  {
    var L, d := Layout(2, LOGSIZE, fssize), MkfsDisk(fssize).disk;
    assert DiskOk(L, d);
  }

  /** So the panic is reached on it. */
  lemma MkfsOverflows(fssize: nat) returns (es: seq<Event>, o: nat)
    requires 2 * LOGSIZE + 2 <= fssize
    ensures var L := Layout(2, LOGSIZE, fssize);
      && Fresh(L, MkfsDisk(fssize)) && DisciplinedRun(L, MkfsDisk(fssize), es)
      && ValidRun(L, MkfsDisk(fssize), es) && Overflows(L, Final(L, MkfsDisk(fssize), es), o)
  {
    hide Fresh, Inv, ValidRun, DisciplinedRun, Overflows, MkfsDisk;
    MkfsFresh(fssize);
    var homes := seq(LOGSIZE - 1, i => 2 + LOGSIZE + i);
    es, o := Overflow(Layout(2, LOGSIZE, fssize), MkfsDisk(fssize), homes);
  }
}
