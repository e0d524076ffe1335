/**
 File operations on the log: what a file operation changes goes to the disk as one transaction of log.c,
 and after any crash the disk holds the file system before it or the one after it.
 */
module FileCrash {
  import opened LogModel
  import opened CrashSafety
  import opened FsModel
  import opened FileBlocks
  import opened FileSystem
  import opened DiskFormat
  import OpenFile
  import Mkfs

  /** Where a file system lies on the disk: behind the log. */
  datatype Format = Format(L: Layout, g: Geometry)

  ghost predicate FormatOk(f: Format) {
    GeoOk(f.g) && Fits(f.L) && f.L.nblocks == f.g.size && f.L.start + f.L.size <= f.g.inodestart
  }

  /** What mkfs lays out: param.h:11-14, mkfs.c:18-26, 97-103. */
  lemma MkfsFormat(fssize: nat, ninodes: nat)
    requires 2 + LOGSIZE + (ninodes / IPB + 1) + (fssize / BPB + 1) <= fssize < 0x1_0000_0000
    ensures FormatOk(Format(Layout(2, LOGSIZE, fssize), Mkfs.DiskLayout(fssize, ninodes, LOGSIZE)))
  {}

  ghost predicate SizesOk(g: Geometry, s: DiskState) {
    |s.bitmap| == |s.data| == g.size && |s.dinodes| == g.ninodes
  }

  /** The disk holds the file system `s`. */
  ghost predicate Stored(f: Format, d: Disk, s: DiskState) {
    && SizesOk(f.g, s) && |d| == f.g.size
    && forall x: nat :: f.g.inodestart <= x < f.g.size ==> d[x] == Encode(BlockAt(f.g, s, x))
  }

  // A disk determines the file system on it

  /** Blocks are blocks, and the fields of the inodes fit their types. */
  ghost predicate StateFits(g: Geometry, s: DiskState) {
    && SizesOk(g, s)
    && (forall b :: 0 <= b < |s.data| ==> |s.data[b]| == BSIZE)
    && (forall i :: 0 <= i < |s.dinodes| ==> InodeFits(s.dinodes[i]))
  }

  ghost predicate AttrsAllFit(inodes: seq<Inode>) {
    forall i :: 0 <= i < |inodes| ==> AttrsFit(inodes[i])
  }

  lemma SoundFits(g: Geometry, s: DiskState, owner: Owner)
    requires Sound(g, OpenFile.OnDiskImage(s), owner) && AttrsAllFit(s.dinodes)
    ensures StateFits(g, s)
  {
    var im := OpenFile.OnDiskImage(s);
    forall i: nat | i < g.ninodes ensures InodeFits(im.inodes[i]) {
      SoundAt(g, im, owner, i);
      forall k | 0 <= k <= NDIRECT ensures UInt(im.inodes[i].addrs[k]) {
        SlotRange(g, im, owner, i, k);
      }
    }
  }

  lemma BitIn(q: seq<bool>, b: nat)
    requires b < |q|
    ensures b % BPB < |BitsAt(q, b / BPB)| && BitsAt(q, b / BPB)[b % BPB] == q[b]
  {}

  lemma InodeIn(q: seq<Inode>, i: nat)
    requires i < |q|
    ensures i % IPB < |InodesAt(q, i / IPB)| && InodesAt(q, i / IPB)[i % IPB] == q[i]
  {}

  lemma SameBit(g: Geometry, s: DiskState, r: DiskState, b: nat)
    requires GeoOk(g) && SizesOk(g, s) && SizesOk(g, r) && b < g.size
    requires BlockAt(g, s, BBlock(g, b)) == BlockAt(g, r, BBlock(g, b))
    ensures s.bitmap[b] == r.bitmap[b]
  {
    hide BitsAt, InodesAt;
    MapBlockRange(g, b);
    BitIn(s.bitmap, b);
    BitIn(r.bitmap, b);
  }

  lemma SameInode(g: Geometry, s: DiskState, r: DiskState, i: nat)
    requires GeoOk(g) && SizesOk(g, s) && SizesOk(g, r) && i < g.ninodes && IBlock(g, i) < g.size
    requires BlockAt(g, s, IBlock(g, i)) == BlockAt(g, r, IBlock(g, i))
    ensures s.dinodes[i] == r.dinodes[i]
  {
    hide BitsAt, InodesAt;
    InodeBlockRange(g, i);
    InodeIn(s.dinodes, i);
    InodeIn(r.dinodes, i);
  }

  lemma SameAt(f: Format, d: Disk, s: DiskState, r: DiskState, x: nat)
    requires FormatOk(f) && Stored(f, d, s) && Stored(f, d, r) && f.g.inodestart <= x < f.g.size
    requires StateFits(f.g, s) && StateFits(f.g, r)
    ensures BlockAt(f.g, s, x) == BlockAt(f.g, r, x)
  {
    hide Encode, BitsAt, InodesAt;
    assert Encode(BlockAt(f.g, s, x)) == Encode(BlockAt(f.g, r, x));
    if x >= f.g.nmeta {
      DataRead(s.data[x], r.data[x]);
    } else if x >= f.g.bmapstart {
      SameLength(s.bitmap, r.bitmap, x - f.g.bmapstart);
      MapRead(BitsAt(s.bitmap, x - f.g.bmapstart), BitsAt(r.bitmap, x - f.g.bmapstart));
    } else {
      InodesFit(s.dinodes, r.dinodes, x - f.g.inodestart);
      InodesRead(InodesAt(s.dinodes, x - f.g.inodestart), InodesAt(r.dinodes, x - f.g.inodestart));
    }
  }

  lemma SameLength(p: seq<bool>, q: seq<bool>, k: nat)
    requires |p| == |q|
    ensures |BitsAt(p, k)| == |BitsAt(q, k)| <= BPB
  {}

  lemma InodesFit(p: seq<Inode>, q: seq<Inode>, k: nat)
    requires |p| == |q| && forall i :: 0 <= i < |p| ==> InodeFits(p[i]) && InodeFits(q[i])
    ensures |InodesAt(p, k)| == |InodesAt(q, k)| <= IPB
    ensures forall i :: 0 <= i < |InodesAt(p, k)| ==> InodeFits(InodesAt(p, k)[i]) && InodeFits(InodesAt(q, k)[i])
  {}

  lemma SameData(g: Geometry, s: DiskState, r: DiskState, b: nat)
    requires SizesOk(g, s) && SizesOk(g, r) && g.nmeta <= b < g.size && BlockAt(g, s, b) == BlockAt(g, r, b)
    ensures s.data[b] == r.data[b]
  {}

  /** No two file systems look the same on disk. */
  lemma StoredOnce(f: Format, d: Disk, s: DiskState, r: DiskState)
    requires FormatOk(f) && Stored(f, d, s) && Stored(f, d, r) && StateFits(f.g, s) && StateFits(f.g, r)
    ensures r.bitmap == s.bitmap && r.dinodes == s.dinodes
    ensures forall b: nat :: f.g.nmeta <= b < f.g.size ==> r.data[b] == s.data[b]
  {
    hide BlockAt, BBlock, IBlock;
    var g := f.g;
    assert GeoOk(g) && SizesOk(g, s) && SizesOk(g, r);
    hide FormatOk, Stored, StateFits;
    forall b: nat | b < g.size ensures s.bitmap[b] == r.bitmap[b] {
      MapBlockRange(g, b);
      SameAt(f, d, s, r, BBlock(g, b));
      SameBit(g, s, r, b);
    }
    forall i: nat | i < g.ninodes ensures s.dinodes[i] == r.dinodes[i] {
      InodeBlockRange(g, i);
      SameAt(f, d, s, r, IBlock(g, i));
      SameInode(g, s, r, i);
    }
    forall b: nat | g.nmeta <= b < g.size ensures r.data[b] == s.data[b] {
      SameAt(f, d, s, r, b);
      SameData(g, s, r, b);
    }
  }

  // Groups of operations

  /**
   The file systems before and after each of some groups of operations, one group for each commit. Each
   differs from the one before in the blocks that its group has logged.
   */
  ghost predicate Groups(g: Geometry, ss: seq<DiskState>, logs: seq<set<nat>>) {
    |ss| == |logs| + 1 && forall k :: 0 <= k < |logs| ==> Covered(g, ss[k], ss[k + 1], logs[k])
  }

  /** Nobody is at work, and the disk holds `s`. */
  ghost predicate Idle(f: Format, m: Machine, s: DiskState) {
    Inv(f.L, m) && m.phase.Up? && m.ops == map[] && m.blocks == [] && Stored(f, Durable(f.L, m.disk), s)
  }

  /** What a group leaves to the commit: the blocks in `log`, as they are in file system `r`. */
  ghost predicate Handed(f: Format, m: Machine, r: DiskState, log: set<nat>) {
    && SizesOk(f.g, r) && |m.mem| == f.g.size
    && (forall b :: b in m.blocks ==> b in log)
    && forall b: nat :: b in log && f.g.inodestart <= b < f.g.size ==> m.mem[b] == Encode(BlockAt(f.g, r, b))
  }

  /** How many groups have ended, and if the machine has crashed. */
  datatype Progress = Progress(k: nat, crashed: bool)

  predicate EndsGroup(m: Machine, e: Event) {
    e.End? && m.ops - {e.o} == map[]
  }

  function Advance(m: Machine, e: Event, p: Progress): Progress {
    if EndsGroup(m, e) then p.(k := p.k + 1) else if e.Crash? then p.(crashed := true) else p
  }

  /**
   Operations begin and end in any order and write what they like in between. A group ends with its last
   operation, which leaves memory as it should be. After a crash the programs are gone.
   */
  ghost predicate Proper(f: Format, m: Machine, e: Event, ss: seq<DiskState>, logs: seq<set<nat>>, p: Progress)
    requires |ss| == |logs| + 1
  {
    && (e.Begin? && m.ops == map[] ==> !p.crashed && p.k < |logs|)
    && (EndsGroup(m, e) ==> p.k < |logs| && Handed(f, m, ss[p.k + 1], logs[p.k]))
  }

  ghost predicate ProperRun(f: Format, m: Machine, es: seq<Event>, ss: seq<DiskState>, logs: seq<set<nat>>, p: Progress)
    requires Inv(f.L, m) && ValidRun(f.L, m, es) && |ss| == |logs| + 1
    decreases |es|
  {
    es == [] ||
    (&& Proper(f, m, es[0], ss, logs, p)
     && (StepInv(f.L, m, es[0]);
         ProperRun(f, Step(f.L, m, es[0]), es[1..], ss, logs, Advance(m, es[0], p))))
  }

  ghost function Reached(f: Format, m: Machine, es: seq<Event>, p: Progress): Progress
    requires Inv(f.L, m) && ValidRun(f.L, m, es)
    decreases |es|
  {
    if es == [] then p
    else
      StepInv(f.L, m, es[0]);
      Reached(f, Step(f.L, m, es[0]), es[1..], Advance(m, es[0], p))
  }

  /** The file system after so many groups, or the one before the last of them. */
  ghost predicate Near(f: Format, d: Disk, ss: seq<DiskState>, k: nat)
    requires k < |ss|
  {
    Stored(f, d, ss[k]) || (k > 0 && Stored(f, d, ss[k - 1]))
  }

  /** During a group the disk has the file system before it; otherwise memory has the one after it, until a crash. */
  ghost predicate Between(f: Format, m: Machine, ss: seq<DiskState>, p: Progress) {
    && Inv(f.L, m) && p.k < |ss|
    && Near(f, Abs(f.L, m).durable, ss, p.k)
    && (m.phase.Down? ==> p.crashed)
    && if m.ops != map[] then m.phase.Up? && !p.crashed && p.k + 1 < |ss| && Stored(f, Abs(f.L, m).durable, ss[p.k])
       else if p.crashed then Near(f, Abs(f.L, m).volatile, ss, p.k)
       else Stored(f, Abs(f.L, m).volatile, ss[p.k]) && (m.phase.Up? ==> m.blocks == [])
  }

  lemma ClearDisk(L: Layout, m: Machine)
    requires Inv(L, m) && m.phase.Up?
    ensures Durable(L, m.disk) == HomeOf(L, m.disk)
    ensures m.blocks == [] ==> HomeOf(L, m.mem) == HomeOf(L, m.disk)
  {}

  lemma IdleBetween(f: Format, m: Machine, ss: seq<DiskState>)
    requires |ss| > 0 && Idle(f, m, ss[0])
    ensures Between(f, m, ss, Progress(0, false))
  {
    ClearDisk(f.L, m);
  }

  /** When a group ends, memory holds the new file system: what was not logged has not changed. */
  lemma EndStored(f: Format, m: Machine, s: DiskState, r: DiskState, log: set<nat>)
    requires FormatOk(f) && Inv(f.L, m) && m.phase.Up? && Stored(f, Durable(f.L, m.disk), s)
    requires Covered(f.g, s, r, log) && Handed(f, m, r, log)
    ensures Stored(f, HomeOf(f.L, m.mem), r)
  {
    hide BlockAt, Encode, Covered;
    var h := HomeOf(f.L, m.mem);
    forall x: nat | f.g.inodestart <= x < f.g.size ensures h[x] == Encode(BlockAt(f.g, r, x)) {
      if x !in log {
        UnloggedSame(f.g, s, r, log, x);
        assert x !in m.blocks && m.mem[x] == m.disk[x];
        assert Durable(f.L, m.disk)[x] == m.disk[x];
      }
    }
  }

  lemma BetweenStep(f: Format, m: Machine, e: Event, ss: seq<DiskState>, logs: seq<set<nat>>, p: Progress)
    requires FormatOk(f) && Between(f, m, ss, p) && Enabled(f.L, m, e) && Groups(f.g, ss, logs)
    requires Proper(f, m, e, ss, logs, p)
    ensures Inv(f.L, Step(f.L, m, e)) && Between(f, Step(f.L, m, e), ss, Advance(m, e, p))
  {
    hide FormatOk, Stored, Covered, Handed, Durable, HomeOf;
    StepRefines(f.L, m, e);
    if EndsGroup(m, e) {
      EndStored(f, m, ss[p.k], ss[p.k + 1], logs[p.k]);
    } else if e.Begin? && m.ops == map[] {
      ClearDisk(f.L, m);
    }
  }

  /**
   Through any run over any number of groups, with a crash and then recoveries wherever they fall: the disk
   holds the file system after the last group that ended, or the one before that group. Memory holds the
   former when nobody is at work, until a crash.
   */
  lemma {:induction false} GroupsAtomic(f: Format, m: Machine, es: seq<Event>, ss: seq<DiskState>, logs: seq<set<nat>>,
      p: Progress)
    requires FormatOk(f) && Between(f, m, ss, p) && Groups(f.g, ss, logs)
    requires ValidRun(f.L, m, es) && ProperRun(f, m, es, ss, logs, p)
    ensures Between(f, Final(f.L, m, es), ss, Reached(f, m, es, p))
    decreases |es|
  {
    hide FormatOk, Between, Groups, Proper;
    if es != [] {
      BetweenIs(f, m, ss, p);
      BetweenStep(f, m, es[0], ss, logs, p);
      GroupsAtomic(f, Step(f.L, m, es[0]), es[1..], ss, logs, Advance(m, es[0], p));
    }
  }

  lemma BetweenIs(f: Format, m: Machine, ss: seq<DiskState>, p: Progress)
    requires Between(f, m, ss, p)
    ensures Inv(f.L, m) && p.k < |ss| && Near(f, Durable(f.L, m.disk), ss, p.k)
  {}

  /** From an idle file system: at most the last of the groups that have ended is missing on disk. */
  ghost predicate Atomic(f: Format, ss: seq<DiskState>, logs: seq<set<nat>>)
    requires |ss| == |logs| + 1
  {
    forall m, es :: Idle(f, m, ss[0]) && ValidRun(f.L, m, es) && ProperRun(f, m, es, ss, logs, Progress(0, false)) ==>
      AtLast(f, m, es, ss)
  }

  ghost predicate AtLast(f: Format, m: Machine, es: seq<Event>, ss: seq<DiskState>)
    requires Inv(f.L, m) && ValidRun(f.L, m, es)
  {
    var k := Reached(f, m, es, Progress(0, false)).k;
    k < |ss| && Near(f, Durable(f.L, Final(f.L, m, es).disk), ss, k)
  }

  lemma GroupsAreAtomic(f: Format, ss: seq<DiskState>, logs: seq<set<nat>>)
    requires FormatOk(f) && Groups(f.g, ss, logs)
    ensures Atomic(f, ss, logs)
  {
    hide FormatOk, Covered, Between, Near, ProperRun;
    forall m, es | Idle(f, m, ss[0]) && ValidRun(f.L, m, es) && ProperRun(f, m, es, ss, logs, Progress(0, false))
      ensures AtLast(f, m, es, ss)
    {
      IdleBetween(f, m, ss);
      GroupsAtomic(f, m, es, ss, logs, Progress(0, false));
      BetweenIs(f, Final(f.L, m, es), ss, Reached(f, m, es, Progress(0, false)));
    }
  }

  /** Without a crash the new file system gets to the disk, and the log is empty again. */
  lemma GroupCommits(f: Format, m: Machine, o: nat, s: DiskState, r: DiskState, log: set<nat>)
    requires FormatOk(f) && Inv(f.L, m) && m.phase.Up? && m.ops.Keys == {o} && Stored(f, Durable(f.L, m.disk), s)
    requires Covered(f.g, s, r, log) && Handed(f, m, r, log)
    ensures var t := Step(f.L, m, End(o));
      Inv(f.L, t) && Idle(f, RunEnd(f.L, t), r)
  {
    hide FormatOk, Covered, Handed, Stored, Durable, HomeOf, HeaderOk, Clean, BlocksOk, Logged, Installed;
    StepRefines(f.L, m, End(o));
    EndStored(f, m, s, r, log);
    var t := Step(f.L, m, End(o));
    assert t.ops.Keys == {} && t.ops == map[];
    if t.phase.Up? {
      ClearDisk(f.L, t);
    } else {
      RunEndIs(f.L, t);
      ClearDisk(f.L, RunEnd(f.L, t));
    }
  }
}
