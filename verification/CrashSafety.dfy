/**
 Crash atomicity: through every run of block writes, crashes and recoveries, the disk holds exactly
 the committed writes.
 */
module CrashSafety {
  import opened Seqs
  import opened LogModel

  // Installing

  lemma {:induction false} InstallBlocks(L: Layout, d: Disk, k: nat)
    requires HeaderOk(L, d) && k <= N(L, d)
    ensures DiskOk(L, Install(L, d, k))
  {
    if k > 0 {
      InstallBlocks(L, d, k - 1);
    }
  }

  /** Where a block is the target of a logged one, what it held before does not matter. */
  lemma {:induction false} InstallAgree(L: Layout, d: Disk, d': Disk, k: nat, b: nat)
    requires HeaderOk(L, d) && HeaderOk(L, d') && k <= N(L, d) && b < L.nblocks
    requires forall x :: L.start <= x < L.start + L.size ==> d'[x] == d[x]
    requires d[b] == d'[b] || exists i :: 0 <= i < k && Target(L, d, i) == b
    ensures Install(L, d, k)[b] == Install(L, d', k)[b]
  {
    if k > 0 && Target(L, d, k - 1) != b {
      InstallAgree(L, d, d', k - 1, b);
    }
  }

  lemma {:induction false} InstallDone(L: Layout, d: Disk, k: nat)
    requires HeaderOk(L, d) && k <= N(L, d) && Installed(L, d, k)
    ensures Install(L, d, k) == d
  {
    if k > 0 {
      InstallDone(L, d, k - 1);
    }
  }

  /** With all targets distinct, a target gets its logged block and nothing else changes. */
  lemma {:induction false} InstallValue(L: Layout, d: Disk, k: nat, i: nat)
    requires HeaderOk(L, d) && i < k <= N(L, d)
    ensures Install(L, d, k)[Target(L, d, i)] == LogBlock(L, d, i)
  {
    if i < k - 1 {
      InstallValue(L, d, k - 1, i);
    }
  }

  lemma {:induction false} InstallOther(L: Layout, d: Disk, k: nat, b: nat)
    requires HeaderOk(L, d) && k <= N(L, d) && b < L.nblocks
    requires forall i :: 0 <= i < k ==> Target(L, d, i) != b
    ensures Install(L, d, k)[b] == d[b]
  {
    if k > 0 {
      InstallOther(L, d, k - 1, b);
    }
  }

  lemma HomePut(L: Layout, d: Disk, b: nat, v: Block)
    requires b < |d| && InLog(L, b)
    ensures HomeOf(L, d[b := v]) == HomeOf(L, d)
  {}

  // Logging: log.c:174-187

  /** Writing into the log while the header says it is empty changes nothing a recovery would see. */
  lemma LogStep(L: Layout, m: Machine)
    requires Inv(L, m) && m.phase.Logging? && m.phase.k < |m.blocks|
    ensures Inv(L, DoDiskWrite(L, m))
    ensures Durable(L, DoDiskWrite(L, m).disk) == Durable(L, m.disk)
    ensures HomeOf(L, DoDiskWrite(L, m).mem) == HomeOf(L, m.mem)
  {
    hide HomeOf;
    var r := DoDiskWrite(L, m);
    var w := LogWriteAt(L, m, m.phase.k);
    assert r.disk[L.start] == m.disk[L.start];
    HomePut(L, m.disk, w.0, w.1);
    HomePut(L, m.mem, w.0, w.1);
    forall i | 0 <= i < m.phase.k + 1 ensures LogBlock(L, r.disk, i) == r.mem[r.blocks[i]] {
      assert Home(L, m.blocks[i]);
    }
  }

  // The commit point: log.c:194

  lemma CommitHeader(L: Layout, m: Machine)
    requires Inv(L, m) && m.phase.Logging? && m.phase.k == |m.blocks|
    ensures var d := DoDiskWrite(L, m).disk;
      && HeaderOk(L, d) && N(L, d) == |m.blocks|
      && Targets(L, d) == m.blocks
      && (forall i :: 0 <= i < |m.blocks| ==> Target(L, d, i) == m.blocks[i])
      && (forall x :: 0 <= x < L.nblocks && x != L.start ==> d[x] == m.disk[x])
  {}

  lemma CommitBlock(L: Layout, m: Machine, b: nat)
    requires Inv(L, m) && m.phase.Logging? && m.phase.k == |m.blocks| && Home(L, b)
    requires HeaderOk(L, DoDiskWrite(L, m).disk) && N(L, DoDiskWrite(L, m).disk) == |m.blocks|
    ensures Install(L, DoDiskWrite(L, m).disk, |m.blocks|)[b] == m.mem[b]
  {
    CommitHeader(L, m);
    var d := DoDiskWrite(L, m).disk;
    hide DoDiskWrite, Targets, Header;
    if b in m.blocks {
      var i :| 0 <= i < |m.blocks| && m.blocks[i] == b;
      assert LogBlock(L, d, i) == LogBlock(L, m.disk, i);
      InstallValue(L, d, |m.blocks|, i);
    } else {
      InstallOther(L, d, |m.blocks|, b);
    }
  }

  lemma CommitDurable(L: Layout, m: Machine, d: Disk)
    requires Inv(L, m) && m.phase.Logging? && m.phase.k == |m.blocks| && d == DoDiskWrite(L, m).disk
    requires HeaderOk(L, d) && N(L, d) == |m.blocks|
    ensures Durable(L, d) == HomeOf(L, m.mem)
  {
    forall b: nat | b < L.nblocks ensures Durable(L, d)[b] == HomeOf(L, m.mem)[b] {
      if !InLog(L, b) {
        CommitBlock(L, m, b);
      }
    }
  }

  lemma CommitStep(L: Layout, m: Machine)
    requires Inv(L, m) && m.phase.Logging? && m.phase.k == |m.blocks|
    ensures Inv(L, DoDiskWrite(L, m))
    ensures Durable(L, DoDiskWrite(L, m).disk) == HomeOf(L, m.mem) == HomeOf(L, DoDiskWrite(L, m).mem)
  {
    hide HomeOf, Durable, Clean, BlocksOk, HeaderOk;
    LogWriteRange(L, m);
    CommitHeader(L, m);
    var w := LogWriteAt(L, m, m.phase.k);
    CommitDurable(L, m, DoDiskWrite(L, m).disk);
    HomePut(L, m.mem, w.0, w.1);
    assert DiskOk(L, DoDiskWrite(L, m).mem);
  }

  lemma LogWriteRange(L: Layout, m: Machine)
    requires Inv(L, m) && m.phase.Logging?
    ensures DiskOk(L, m.mem) && DiskOk(L, m.disk) && |m.blocks| <= LOGSIZE && |m.blocks| < L.size
    ensures forall i :: 0 <= i < |m.blocks| ==> m.blocks[i] < L.nblocks
  {}

  // Installing and clearing: log.c:69-81, 114-121, 195-197

  lemma InstallKeepsHeader(L: Layout, d: Disk, k: nat)
    requires HeaderOk(L, d) && k < N(L, d) && Installed(L, d, k)
    ensures var w := InstallAt(L, d, k);
      var d' := d[w.0 := w.1];
      && (forall x :: L.start <= x < L.start + L.size ==> d'[x] == d[x])
      && HeaderOk(L, d') && N(L, d') == N(L, d) && Targets(L, d') == Targets(L, d) && Installed(L, d', k + 1)
  {
    var w := InstallAt(L, d, k);
    var d' := d[w.0 := w.1];
    assert Home(L, Target(L, d, k));
    assert d'[L.start] == d[L.start];
    assert DiskOk(L, d');
    assert forall i :: 0 <= i < N(L, d) ==>
      Target(L, d', i) == Target(L, d, i) && LogBlock(L, d', i) == LogBlock(L, d, i);
  }

  lemma InstallStep(L: Layout, d: Disk, k: nat)
    requires HeaderOk(L, d) && k < N(L, d) && Installed(L, d, k)
    ensures var w := InstallAt(L, d, k);
      var d' := d[w.0 := w.1];
      && HeaderOk(L, d') && N(L, d') == N(L, d) && Targets(L, d') == Targets(L, d) && Installed(L, d', k + 1)
      && Durable(L, d') == Durable(L, d)
  {
    InstallKeepsHeader(L, d, k);
    var w := InstallAt(L, d, k);
    var d' := d[w.0 := w.1];
    forall b: nat | b < L.nblocks ensures Install(L, d, N(L, d))[b] == Install(L, d', N(L, d))[b] {
      assert b == w.0 ==> Target(L, d, k) == b;
      InstallAgree(L, d, d', N(L, d), b);
    }
    assert Durable(L, d') == Durable(L, d);
  }

  lemma ClearStep(L: Layout, d: Disk)
    requires HeaderOk(L, d) && Installed(L, d, N(L, d))
    ensures var w := InstallAt(L, d, N(L, d));
      var d' := d[w.0 := w.1];
      && HeaderOk(L, d') && N(L, d') == 0
      && Durable(L, d') == Durable(L, d) == HomeOf(L, d')
  {
    InstallDone(L, d, N(L, d));
    var w := InstallAt(L, d, N(L, d));
    var d' := d[w.0 := w.1];
    assert DiskOk(L, d');
    assert HomeOf(L, d') == HomeOf(L, d);
  }

  // Steps that only touch memory

  lemma WriteStep(L: Layout, m: Machine, o: nat, b: nat, v: Block)
    requires Inv(L, m) && Enabled(L, m, Write(o, b, v))
    ensures Inv(L, Step(L, m, Write(o, b, v)))
    ensures HomeOf(L, Step(L, m, Write(o, b, v)).mem) == HomeOf(L, m.mem)[b := v]
  {
    var r := Step(L, m, Write(o, b, v));
    assert forall x :: x in m.blocks ==> x in r.blocks;
    assert b in r.blocks;
    if b !in m.blocks {
      NoDupExtend(m.blocks, b);
    }
  }

  lemma HomeEqual(L: Layout, a: Disk, b: Disk, x: nat)
    requires |a| == |b| && HomeOf(L, a) == HomeOf(L, b) && x < |a| && !InLog(L, x)
    ensures a[x] == b[x]
  {
    assert HomeOf(L, a)[x] == HomeOf(L, b)[x];
  }

  /** Installing a block that memory holds anyway leaves memory as it is. */
  lemma InstallMem(L: Layout, m: Machine)
    requires Inv(L, m) && m.phase.Installing? && m.phase.k < N(L, m.disk)
    ensures var r := DoDiskWrite(L, m);
      Inv(L, r) && Durable(L, r.disk) == Durable(L, m.disk) && (!m.phase.boot ==> HomeOf(L, r.mem) == HomeOf(L, m.mem))
  {
    var k := m.phase.k;
    InstallStep(L, m.disk, k);
    if !m.phase.boot {
      var b := Target(L, m.disk, k);
      assert Home(L, b);
      InstallValue(L, m.disk, N(L, m.disk), k);
      assert Durable(L, m.disk)[b] == HomeOf(L, m.mem)[b];
      assert DoDiskWrite(L, m).mem == m.mem;
    }
  }

  lemma FinishStep(L: Layout, m: Machine)
    requires Inv(L, m) && m.phase.Installing? && m.phase.k == N(L, m.disk)
    ensures var r := DoDiskWrite(L, m);
      Inv(L, r) && Durable(L, r.disk) == Durable(L, m.disk) && HomeOf(L, r.mem) == Durable(L, m.disk)
  {
    ClearStep(L, m.disk);
    var r := DoDiskWrite(L, m);
    HomePut(L, m.mem, L.start, Header(m.disk[L.start], []));
    hide HomeOf;
    forall b: nat | b < L.nblocks && !InLog(L, b) ensures r.mem[b] == r.disk[b] {
      HomeEqual(L, r.mem, r.disk, b);
    }
  }

  lemma DiskWriteRefines(L: Layout, m: Machine)
    requires Inv(L, m) && Enabled(L, m, DiskWrite)
    ensures Inv(L, DoDiskWrite(L, m))
    ensures Abs(L, DoDiskWrite(L, m)) == Apply(Abs(L, m), ActOf(m, DiskWrite))
  {
    hide HomeOf, Durable, Installed, Logged, Clean, BlocksOk, LogWriteAt, InstallAt, Targets;
    if m.phase.Logging? {
      if m.phase.k < |m.blocks| {
        LogStep(L, m);
      } else {
        CommitStep(L, m);
      }
    } else if m.phase.k < N(L, m.disk) {
      InstallMem(L, m);
    } else {
      FinishStep(L, m);
    }
  }

  /** Each step keeps the invariant and acts on the abstract store as announced. */
  lemma StepRefines(L: Layout, m: Machine, e: Event)
    requires Inv(L, m) && Enabled(L, m, e)
    ensures Inv(L, Step(L, m, e))
    ensures Abs(L, Step(L, m, e)) == Apply(Abs(L, m), ActOf(m, e))
  {
    hide Durable;
    match e
    case Write(o, b, v) => WriteStep(L, m, o, b, v);
    case DiskWrite => DiskWriteRefines(L, m);
    case _ =>
  }

  // Whole runs

  lemma StepInv(L: Layout, m: Machine, e: Event)
    requires Inv(L, m) && Enabled(L, m, e)
    ensures Inv(L, Step(L, m, e))
  {
    StepRefines(L, m, e);
  }

  ghost predicate ValidRun(L: Layout, m: Machine, es: seq<Event>)
    requires Inv(L, m)
    decreases |es|
  {
    es == [] ||
    (Enabled(L, m, es[0]) &&
     (StepInv(L, m, es[0]);
      ValidRun(L, Step(L, m, es[0]), es[1..])))
  }

  ghost function Final(L: Layout, m: Machine, es: seq<Event>): (r: Machine)
    requires Inv(L, m) && ValidRun(L, m, es)
    ensures Inv(L, r)
    decreases |es|
  {
    if es == [] then m
    else
      StepInv(L, m, es[0]);
      Final(L, Step(L, m, es[0]), es[1..])
  }

  ghost function Acts(L: Layout, m: Machine, es: seq<Event>): (r: seq<Act>)
    requires Inv(L, m) && ValidRun(L, m, es)
    ensures |r| == |es|
    decreases |es|
  {
    if es == [] then []
    else
      StepInv(L, m, es[0]);
      [ActOf(m, es[0])] + Acts(L, Step(L, m, es[0]), es[1..])
  }

  function ApplyAll(s: Store, acts: seq<Act>): Store
    decreases |acts|
  {
    if acts == [] then s else ApplyAll(Apply(s, acts[0]), acts[1..])
  }

  /**
   Crash atomicity. After any run, with any number of crashes between block writes, inside commits and
   inside recoveries, what a recovery finds on the disk, and what the running system sees, is what the
   simple store holds: all writes up to the last commit point, and since then none, or all of them.
   */
  lemma {:induction false} CrashAtomicity(L: Layout, m: Machine, es: seq<Event>)
    requires Inv(L, m) && ValidRun(L, m, es)
    ensures Abs(L, Final(L, m, es)) == ApplyAll(Abs(L, m), Acts(L, m, es))
    decreases |es|
  {
    if es != [] {
      StepRefines(L, m, es[0]);
      CrashAtomicity(L, Step(L, m, es[0]), es[1..]);
    }
  }

  /** The block writes a recovery makes on an idle machine: every installed block, and the cleared header. */
  ghost function RecoveryLength(L: Layout, m: Machine): nat
    requires Inv(L, m) && m.phase.Installing?
  {
    N(L, m.disk) - m.phase.k + 1
  }

  /** Left alone, a recovery finishes: the home blocks then are the durable ones and the log is empty. */
  lemma {:induction false} RecoveryCompletes(L: Layout, m: Machine, es: seq<Event>)
    requires Inv(L, m) && m.phase.Installing? && m.phase.boot && |es| == RecoveryLength(L, m)
    requires forall i :: 0 <= i < |es| ==> es[i] == DiskWrite
    ensures ValidRun(L, m, es)
    ensures var r := Final(L, m, es);
      && r.phase.Up? && N(L, r.disk) == 0 && r.blocks == []
      && HomeOf(L, r.disk) == HomeOf(L, r.mem) == Durable(L, m.disk)
    decreases |es|
  {
    hide Durable, HomeOf, Installed;
    StepRefines(L, m, DiskWrite);
    if m.phase.k < N(L, m.disk) {
      InstallStep(L, m.disk, m.phase.k);
      RecoveryCompletes(L, Step(L, m, DiskWrite), es[1..]);
    } else {
      FinishStep(L, m);
      var r := Step(L, m, DiskWrite);
      assert Final(L, m, es) == r;
      ClearStep(L, m.disk);
    }
  }

  // Commits and recoveries left to themselves

  /** Block writes still to come before the machine is up. */
  ghost function ToGo(L: Layout, m: Machine): nat
    requires Inv(L, m)
  {
    match m.phase
    case Logging(k) => (|m.blocks| - k) + |m.blocks| + 2
    case Installing(k, _) => N(L, m.disk) - k + 1
    case _ => 0
  }

  lemma ToGoDrops(L: Layout, m: Machine)
    requires Inv(L, m) && Enabled(L, m, DiskWrite)
    ensures Inv(L, DoDiskWrite(L, m)) && ToGo(L, DoDiskWrite(L, m)) == ToGo(L, m) - 1
  {
    hide Durable, HomeOf;
    DiskWriteRefines(L, m);
    if m.phase.Logging? && m.phase.k == |m.blocks| {
      CommitHeader(L, m);
    } else if m.phase.Installing? && m.phase.k < N(L, m.disk) {
      InstallKeepsHeader(L, m.disk, m.phase.k);
    }
  }

  /** The disks that a commit or recovery without crash leaves behind, write after write. */
  ghost function RunDisks(L: Layout, m: Machine): (r: seq<Disk>)
    requires Inv(L, m)
    ensures |r| == ToGo(L, m)
    decreases ToGo(L, m)
  {
    if !Enabled(L, m, DiskWrite) then []
    else
      ToGoDrops(L, m);
      [DoDiskWrite(L, m).disk] + RunDisks(L, DoDiskWrite(L, m))
  }

  ghost function RunEnd(L: Layout, m: Machine): (r: Machine)
    requires Inv(L, m)
    ensures Inv(L, r)
    decreases ToGo(L, m)
  {
    if !Enabled(L, m, DiskWrite) then m
    else
      ToGoDrops(L, m);
      RunEnd(L, DoDiskWrite(L, m))
  }

  /** They are a run of the machine: so many block writes and nothing else. */
  function Writes(n: nat): seq<Event> {
    seq(n, i => DiskWrite)
  }

  lemma {:induction false} RunIsRun(L: Layout, m: Machine, i: nat)
    requires Inv(L, m) && i <= ToGo(L, m)
    ensures ValidRun(L, m, Writes(i))
    ensures i > 0 ==> Final(L, m, Writes(i)).disk == RunDisks(L, m)[i - 1]
    ensures i == ToGo(L, m) ==> Final(L, m, Writes(i)) == RunEnd(L, m)
    decreases i
  {
    hide Inv, DoDiskWrite;
    NothingToGo(L, m);
    if i > 0 {
      ToGoDrops(L, m);
      var r := DoDiskWrite(L, m);
      RunIsRun(L, r, i - 1);
      assert Writes(i)[1..] == Writes(i - 1);
      assert i == 1 ==> Final(L, r, Writes(0)) == r;
    }
  }

  lemma NothingToGo(L: Layout, m: Machine)
    requires Inv(L, m)
    ensures ToGo(L, m) > 0 <==> Enabled(L, m, DiskWrite)
  {}

  /** The machine after a crash that left this disk. */
  ghost function Crashed(d: Disk): Machine {
    Machine(d, [], [], map[], Down)
  }

  lemma WriteIsOne(L: Layout, m: Machine)
    requires Inv(L, m) && Enabled(L, m, DiskWrite)
    ensures var r := DoDiskWrite(L, m);
      && Inv(L, r) && Inv(L, Crashed(r.disk))
      && Durable(L, r.disk) == (if ActOf(m, DiskWrite).Commit? then HomeOf(L, m.mem) else Durable(L, m.disk))
      && (m.phase.Logging? ==> m.phase.k <= |m.blocks|)
      && (if m.phase.Logging? && m.phase.k < |m.blocks|
          then r.phase == Logging(m.phase.k + 1) && r.blocks == m.blocks && HomeOf(L, r.mem) == HomeOf(L, m.mem)
          else !r.phase.Logging?)
  {
    hide Durable, HomeOf, HeaderOk, Clean, BlocksOk, Logged, Installed, LogWriteAt, InstallAt, Targets;
    DiskWriteRefines(L, m);
  }

  /**
   A crash after any of these writes leaves a disk that can be recovered. It holds the state before the
   commit up to the header write, and the state after it from then on.
   */
  lemma {:induction false} CrashDuring(L: Layout, m: Machine, i: nat)
    requires Inv(L, m) && i < ToGo(L, m)
    ensures var d := RunDisks(L, m)[i];
      && Inv(L, Crashed(d))
      && Durable(L, d) == if m.phase.Logging? && i >= |m.blocks| - m.phase.k then HomeOf(L, m.mem)
         else Durable(L, m.disk)
    decreases i
  {
    hide Inv, DoDiskWrite, Durable, HomeOf;
    NothingToGo(L, m);
    ToGoDrops(L, m);
    WriteIsOne(L, m);
    if i > 0 {
      CrashDuring(L, DoDiskWrite(L, m), i - 1);
    }
  }

  /** Left alone, the commit or recovery ends with an empty log and all blocks at home. */
  lemma {:induction false} RunEndIs(L: Layout, m: Machine)
    requires Inv(L, m) && (m.phase.Logging? || m.phase.Installing?)
    ensures var r := RunEnd(L, m);
      && r.phase.Up? && r.blocks == [] && r.ops == map[] && N(L, r.disk) == 0
      && HomeOf(L, r.disk) == HomeOf(L, r.mem)
      && HomeOf(L, r.disk) == if m.phase.Logging? then HomeOf(L, m.mem) else Durable(L, m.disk)
    decreases ToGo(L, m)
  {
    hide Durable, HomeOf, HeaderOk, Clean, BlocksOk, Logged, Installed, LogWriteAt, InstallAt, Targets;
    NothingToGo(L, m);
    ToGoDrops(L, m);
    DiskWriteRefines(L, m);
    var r := DoDiskWrite(L, m);
    if r.phase.Up? {
      FinishStep(L, m);
      InstalledHome(L, m);
    } else {
      RunEndIs(L, r);
    }
  }

  lemma InstalledHome(L: Layout, m: Machine)
    requires Inv(L, m) && m.phase.Installing? && m.phase.k == N(L, m.disk)
    ensures HomeOf(L, DoDiskWrite(L, m).disk) == Durable(L, m.disk)
  {
    ClearStep(L, m.disk);
  }

  /** The disk can be recovered, to one of these two states. */
  ghost predicate Leaves(L: Layout, d: Disk, before: Disk, after: Disk) {
    Inv(L, Crashed(d)) && (Durable(L, d) == before || Durable(L, d) == after)
  }

  /** All disks of the history from `k` on. */
  ghost predicate AllLeave(L: Layout, history: seq<Disk>, k: nat, before: Disk, after: Disk) {
    forall i :: k <= i < |history| ==> Leaves(L, history[i], before, after)
  }

  lemma RunLeaves(L: Layout, m: Machine, h: seq<Disk>)
    requires Inv(L, m)
    ensures AllLeave(L, h + RunDisks(L, m), |h|, Durable(L, m.disk),
      if m.phase.Logging? then HomeOf(L, m.mem) else Durable(L, m.disk))
  {
    var h', after := h + RunDisks(L, m), if m.phase.Logging? then HomeOf(L, m.mem) else Durable(L, m.disk);
    forall i | |h| <= i < |h'| ensures Leaves(L, h'[i], Durable(L, m.disk), after) {
      CrashDuring(L, m, i - |h|);
    }
  }

  // Grouping: log.c:123-171

  ghost predicate Undisturbed(es: seq<Event>, o: nat) {
    forall i :: 0 <= i < |es| ==> es[i] != End(o) && es[i] != Crash
  }

  /** While an operation lasts nothing is committed, so its writes go into one commit, all together. */
  lemma {:induction false} OperationNotSplit(L: Layout, m: Machine, es: seq<Event>, o: nat)
    requires Inv(L, m) && ValidRun(L, m, es) && o in m.ops && Undisturbed(es, o)
    ensures o in Final(L, m, es).ops
    ensures forall i :: 0 <= i < |es| ==> !Acts(L, m, es)[i].Commit?
    decreases |es|
  {
    if es != [] {
      StepRefines(L, m, es[0]);
      assert es[0] != End(o) && es[0] != Crash;
      assert Undisturbed(es[1..], o);
      OperationNotSplit(L, Step(L, m, es[0]), es[1..], o);
    }
  }
}
