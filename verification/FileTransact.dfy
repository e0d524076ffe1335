/**
 The file operations as transactions: what writei, iput and filewrite give to the log can be handed over and
 committed, and after a crash it is there or not, group by group.
 */
module FileTransact {
  import opened LogModel
  import opened CrashSafety
  import opened FsModel
  import opened FileBlocks
  import opened FileWrites
  import opened FileTrunc
  import opened FileSystem
  import opened DiskFormat
  import opened FileCrash
  import opened Seqs
  import LogDistinct
  import OpenFile

  // What fits into the log can be handed over

  /** The blocks lie behind the log. */
  ghost predicate InFiles(g: Geometry, log: set<nat>) {
    forall x :: x in log ==> g.inodestart <= x < g.size
  }

  ghost predicate FitsLog(L: Layout, log: set<nat>) {
    |log| <= LOGSIZE && |log| < L.size
  }

  /** Operation `o` has handed over these blocks so far, and the disk is as it was. */
  ghost predicate Handing(f: Format, m: Machine, o: nat, d: Disk, r: DiskState, done: set<nat>) {
    && Inv(f.L, m) && m.phase.Up? && m.ops.Keys == {o} && m.disk == d
    && Handed(f, m, r, done) && |m.blocks| <= |done|
  }

  lemma HandOne(f: Format, m: Machine, o: nat, d: Disk, r: DiskState, done: set<nat>, b: nat)
    requires FormatOk(f) && Handing(f, m, o, d, r, done) && b !in done && |done| < LOGSIZE && |done| + 1 < f.L.size
    requires f.g.inodestart <= b < f.g.size
    ensures var e := Write(o, b, Encode(BlockAt(f.g, r, b)));
      Enabled(f.L, m, e) && Handing(f, Step(f.L, m, e), o, d, r, done + {b})
  {
    hide BlockAt, Encode, Inv;
    var e := Write(o, b, Encode(BlockAt(f.g, r, b)));
    assert o in m.ops.Keys;
    assert Enabled(f.L, m, e);
    StepInv(f.L, m, e);
    assert Step(f.L, m, e).ops.Keys == {o};
  }

  lemma {:induction false} HandAll(f: Format, m: Machine, o: nat, d: Disk, r: DiskState, done: set<nat>, todo: set<nat>)
    returns (es: seq<Event>)
    requires FormatOk(f) && Handing(f, m, o, d, r, done) && done !! todo
    requires FitsLog(f.L, done + todo) && InFiles(f.g, todo)
    ensures ValidRun(f.L, m, es) && Handing(f, Final(f.L, m, es), o, d, r, done + todo)
    decreases todo
  {
    hide FormatOk, Handing, Inv, BlockAt, Encode, Step, Enabled;
    es := [];
    if todo == {} {
      assert done + todo == done;
    } else {
      var b :| b in todo;
      assert (done + {b}) + (todo - {b}) == done + todo;
      RoomFor(done, todo, b);
      HandingIs(f, m, o, d, r, done);
      HandOne(f, m, o, d, r, done, b);
      var e := Write(o, b, Encode(BlockAt(f.g, r, b)));
      StepInv(f.L, m, e);
      var rest := HandAll(f, Step(f.L, m, e), o, d, r, done + {b}, todo - {b});
      es := [e] + rest;
      assert es[1..] == rest;
    }
  }

  lemma RoomFor(done: set<nat>, todo: set<nat>, b: nat)
    requires b in todo && done !! todo
    ensures |done| < |done + todo|
  {
    assert |done + todo| == |done| + |todo|;
    assert todo == {b} + (todo - {b});
  }

  lemma HandingIs(f: Format, m: Machine, o: nat, d: Disk, r: DiskState, done: set<nat>)
    requires Handing(f, m, o, d, r, done)
    ensures Inv(f.L, m) && SizesOk(f.g, r)
  {}

  /** A run that begins an operation, hands over its blocks, ends it and commits. */
  ghost predicate Performs(f: Format, m: Machine, es: seq<Event>, r: DiskState, log: set<nat>)
    requires Inv(f.L, m)
  {
    && es != [] && es[0] == Begin(0) && ValidRun(f.L, m, es)
    && var t := Final(f.L, m, es);
       && t.phase.Up? && t.ops.Keys == {0} && Handed(f, t, r, log)
       && Inv(f.L, Step(f.L, t, End(0))) && Idle(f, RunEnd(f.L, Step(f.L, t, End(0))), r)
  }

  /** From every idle machine with `s` on the disk there is such a run to `r`. */
  ghost predicate Performable(f: Format, s: DiskState, r: DiskState, log: set<nat>) {
    forall m :: Idle(f, m, s) ==> exists es :: Performs(f, m, es, r, log)
  }

  lemma CanPerform(f: Format, s: DiskState, r: DiskState, log: set<nat>)
    requires FormatOk(f) && SizesOk(f.g, r) && Covered(f.g, s, r, log) && FitsLog(f.L, log) && InFiles(f.g, log)
    ensures Performable(f, s, r, log)
  {
    forall m | Idle(f, m, s) ensures exists es :: Performs(f, m, es, r, log) {
      var es := Perform(f, m, s, r, log);
    }
  }

  lemma Perform(f: Format, m: Machine, s: DiskState, r: DiskState, log: set<nat>) returns (es: seq<Event>)
    requires FormatOk(f) && SizesOk(f.g, r) && Covered(f.g, s, r, log) && FitsLog(f.L, log) && InFiles(f.g, log)
    requires Idle(f, m, s)
    ensures Performs(f, m, es, r, log)
  {
    hide FormatOk, Stored, Covered, FitsLog, InFiles, BlockAt, Encode;
    StepInv(f.L, m, Begin(0));
    var b := Step(f.L, m, Begin(0));
    assert b.ops.Keys == {0};
    assert {} + log == log;
    Unstarted(f, m, r);
    var ws := HandAll(f, b, 0, m.disk, r, {}, log);
    es := [Begin(0)] + ws;
    assert es[1..] == ws;
    var t := Final(f.L, b, ws);
    assert Final(f.L, m, es) == t;
    GroupCommits(f, t, 0, s, r, log);
  }

  lemma Unstarted(f: Format, m: Machine, r: DiskState)
    requires FormatOk(f) && Inv(f.L, m) && m.phase.Up? && m.ops == map[] && m.blocks == [] && SizesOk(f.g, r)
    requires Inv(f.L, Step(f.L, m, Begin(0)))
    ensures Handing(f, Step(f.L, m, Begin(0)), 0, m.disk, r, {})
  {
    hide BlockAt, Encode;
    assert Step(f.L, m, Begin(0)).ops.Keys == {0};
  }

  // What the operations give to the log

  ghost predicate SoundDisk(g: Geometry, s: DiskState) {
    exists owner :: Sound(g, OpenFile.OnDiskImage(s), owner)
  }

  /** The blocks a write logs are blocks of the file system, not of the log. */
  lemma LoggedRange(
      g: Geometry, im: Image, r: Image, owner: Owner, now: set<nat>, i: nat, off: nat, n: nat)
    requires Shape(g, im) && Owned(g, r, owner) && i < g.ninodes && NoHoles(g, r, i)
    requires off <= im.inodes[i].size <= MAXFILE * BSIZE
    requires off + n <= MAXFILE * BSIZE && 0 < n
    requires r.inodes[i].size == Max(im.inodes[i].size, off + n)
    requires WriteLogged(g, im, r, {}, now, i, off, n)
    ensures InFiles(g, now)
  {
    hide Owned, NoHoles, Holds, AddrSet, OpenFile.NewMaps, OpenFile.NewInd, WriteLogged, NBlocks, WrittenTo, IBlock;
    var size := im.inodes[i].size;
    var nb0, nb := NBlocks(size), NBlocks(Max(size, off + n));
    OwnedShape(g, r, owner);
    OpenFile.TouchedBlocks(size, off, n);
    OpenFile.GrowthBlocks(size, off + n);
    OpenFile.HoldsAll(g, r, i);
    OpenFile.NewMapsIn(g, r, owner, i, nb0, nb);
    InodeBlockRange(g, i);
    OpenFile.LogParts(g, im, r, now, i, off, n);
    var lo, hi := off / BSIZE, WrittenTo(off, n);
    BlockRange(g, r, owner, i, nb0, nb, lo, hi);
    var e: set<nat> := if off + n > size then {IBlock(g, i)} else {};
    PartsRange(g, AddrSet(g, r, i, lo, hi), OpenFile.NewMaps(g, r, i, nb0, nb), OpenFile.NewInd(r.inodes[i], nb0, nb),
      e);
  }

  lemma PartsRange(g: Geometry, a: set<nat>, m: set<nat>, d: set<nat>, e: set<nat>)
    requires GeoOk(g) && (forall x :: x in a ==> g.nmeta <= x < g.size)
      && (forall x :: x in d ==> g.nmeta <= x < g.size)
    requires forall x :: x in m ==> g.bmapstart <= x < g.nmeta
    requires forall x :: x in e ==> g.inodestart <= x < g.bmapstart
    ensures InFiles(g, a + m + d + e)
  {}

  lemma BlockRange(g: Geometry, r: Image, owner: Owner, i: nat, nb0: nat, nb: nat, lo: nat, hi: nat)
    requires Owned(g, r, owner) && i < g.ninodes && lo <= hi <= nb && Holds(g, r, i, nb)
    ensures forall x :: x in AddrSet(g, r, i, lo, hi) ==> g.nmeta <= x < g.size
    ensures forall x :: x in OpenFile.NewInd(r.inodes[i], nb0, nb) ==> g.nmeta <= x < g.size
  {
    hide Owned, AddrSet;
    OwnedShape(g, r, owner);
    if nb > NDIRECT {
      IndirectHeld(g, r, owner, i, nb);
    }
    forall x | x in AddrSet(g, r, i, lo, hi) ensures g.nmeta <= x < g.size {
      AddrMember(g, r, owner, i, nb, lo, hi, x);
      HeldRange(g, r, owner, x);
    }
  }

  lemma HeldRange(g: Geometry, im: Image, owner: Owner, b: nat)
    requires Owned(g, im, owner) && b in owner
    ensures b < g.size
  {
    assert OwnerOk(g, im, owner, b);
    var (i, k) := owner[b];
    SlotRange(g, im, owner, i, k);
  }

  lemma FreedRange(g: Geometry, im: Image, owner: Owner, i: nat)
    requires Owned(g, im, owner) && i < g.ninodes
    ensures InFiles(g, MapBlocks(g, BlocksOf(owner, i)) + {IBlock(g, i)})
    ensures g.size <= BPB ==> |MapBlocks(g, BlocksOf(owner, i)) + {IBlock(g, i)}| <= 2
  {
    InodeBlockRange(g, i);
    var ms := MapBlocks(g, BlocksOf(owner, i));
    forall x | x in ms ensures g.bmapstart <= x < g.nmeta && (g.size <= BPB ==> x == g.bmapstart) {
      FreedMap(g, im, owner, i, x);
    }
    hide Owned, MapBlocks, BlocksOf, IBlock;
    if g.size <= BPB {
      assert ms + {IBlock(g, i)} <= {g.bmapstart, IBlock(g, i)};
      CardSub(ms + {IBlock(g, i)}, {g.bmapstart, IBlock(g, i)});
    }
  }

  lemma FreedMap(g: Geometry, im: Image, owner: Owner, i: nat, x: nat)
    requires Owned(g, im, owner) && x in MapBlocks(g, BlocksOf(owner, i))
    ensures g.bmapstart <= x < g.nmeta && (g.size <= BPB ==> x == g.bmapstart)
  {
    var b :| b in BlocksOf(owner, i) && x == BBlock(g, b);
    HeldRange(g, im, owner, b);
    MapBlockRange(g, b);
  }

  lemma CardSub(a: set<nat>, b: set<nat>)
    requires a <= b
    ensures |a| <= |b|
  {
    assert b == a + (b - a);
  }

  // The code: file.c:138-143, 75-77, 116-153

  /** The group that started from `s0` has come to `s`, with these blocks logged. */
  ghost predicate InGroup(f: Format, s0: DiskState, s: DiskState, log: set<nat>) {
    Covered(f.g, s0, s, log) && InFiles(f.g, log)
  }

  lemma GroupFacts(f: Format, s0: DiskState, s: DiskState, log: set<nat>)
    requires FormatOk(f) && InGroup(f, s0, s, log) && SizesOk(f.g, s)
    ensures Atomic(f, [s0, s], [log])
    ensures FitsLog(f.L, log) ==> Performable(f, s0, s, log)
  {
    hide FormatOk, Covered, FitsLog, InFiles, Performable, Atomic;
    assert Groups(f.g, [s0, s], [log]);
    GroupsAreAtomic(f, [s0, s], [log]);
    if FitsLog(f.L, log) {
      CanPerform(f, s0, s, log);
    }
  }

  /** Attributes of inodes stay as they are, or are those of a free inode. */
  lemma AttrsKept(g: Geometry, im: Image, r: Image, i: nat)
    requires Shape(g, im) && Shape(g, r) && i < g.ninodes && OthersKept(g, im, r, i)
    requires AttrsAllFit(im.inodes) && AttrsFit(r.inodes[i])
    ensures AttrsAllFit(r.inodes)
  {
    forall x: nat | x < g.ninodes ensures AttrsFit(r.inodes[x]) {
      assert x != i ==> r.inodes[x] == im.inodes[x];
    }
  }

  /**
   writei as an operation of a group. After any crash and recovery the disk has the file system before the
   group or the sound one after the write; and if the blocks logged fit the log, the group can be committed.
   */
  method WriteTransaction(fs: FileSys, i: nat, src: seq<Byte>, off: nat, ghost f: Format, ghost s0: DiskState)
    returns (r: int)
    requires fs.Valid() && i < fs.g.ninodes && fs.inodes[i].typ != T_DEV && AttrsAllFit(fs.inodes)
    requires off < 0x1_0000_0000 && |src| < 0x1_0000_0000
    requires FormatOk(f) && f.g == fs.g && InGroup(f, s0, fs.OnDisk(), fs.logged)
    modifies fs
    ensures r == if Refused(old(fs.inodes[i].size), off, |src|) then -1 else |src|
    ensures r == -1 ==> fs.Img() == old(fs.Img()) && fs.logged == old(fs.logged)
    ensures !fs.panicked ==>
      && fs.Valid() && SoundDisk(f.g, fs.OnDisk()) && StateFits(f.g, fs.OnDisk()) && AttrsAllFit(fs.inodes)
      && InGroup(f, s0, fs.OnDisk(), fs.logged) && Atomic(f, [s0, fs.OnDisk()], [fs.logged])
      && (FitsLog(f.L, fs.logged) ==> Performable(f, s0, fs.OnDisk(), fs.logged))
    ensures r != -1 && !fs.panicked ==>
      && Contents(f.g, fs.Img(), fs.owner, i) == Splice(old(Contents(f.g, fs.Img(), fs.owner, i)), off, src)
      && (|src| > 0 && f.g.size <= BPB && old(fs.logged) == {} ==>
            |fs.logged| == OpenFile.SmallDiskCount(old(fs.inodes[i].size), off, |src|))
      && (0 < |src| <= OpenFile.LONGEST && f.g.size <= BPB && old(fs.logged) == {} ==> LogDistinct.LeanCalls(fs.calls))
  {
    hide Covered, Atomic, Performable, FitsLog, InFiles, FormatOk, Sound, Contents, OthersKept, WriteLogged, Refused,
      OpenFile.SmallDiskCount, StateFits, AttrsAllFit, LogDistinct.LeanCalls, LogCalls, InodeLast;
    ghost var im, was, d := fs.Img(), fs.logged, fs.OnDisk();
    SoundAt(f.g, im, fs.owner, i);
    RefusedExactly(fs.inodes[i].size, off, |src|);
    r := fs.Writei(i, src, off);
    if fs.panicked {
      return;
    }
    assert fs.Img() == OpenFile.OnDiskImage(fs.OnDisk());
    assert SoundDisk(f.g, fs.OnDisk());
    SoundAt(f.g, fs.Img(), fs.owner, i);
    if r != -1 {
      AfterWrite(f.g, im, fs.Img(), fs.owner, was, fs.logged, i, off, |src|);
      AttrsSame(f.g, im, fs.Img(), i);
      if 0 < |src| <= OpenFile.LONGEST && f.g.size <= BPB && was == {} {
        LeanWrite(fs.calls, fs.logged, im.inodes[i].size, off, |src|, IBlock(f.g, i));
      }
      CoveredTrans(f.g, s0, d, fs.OnDisk(), was, fs.logged);
    }
    SoundFits(f.g, fs.OnDisk(), fs.owner);
    FitsSizes(f.g, fs.OnDisk());
    GroupFacts(f, s0, fs.OnDisk(), fs.logged);
  }

  lemma FitsSizes(g: Geometry, s: DiskState)
    requires StateFits(g, s)
    ensures SizesOk(g, s)
  {}

  lemma AttrsSame(g: Geometry, im: Image, r: Image, i: nat)
    requires Shape(g, im) && Shape(g, r) && i < g.ninodes && OthersKept(g, im, r, i) && AttrsAllFit(im.inodes)
    requires r.inodes[i] == im.inodes[i].(size := r.inodes[i].size, addrs := r.inodes[i].addrs)
    ensures AttrsAllFit(r.inodes)
  {
    assert AttrsFit(im.inodes[i]);
    AttrsKept(g, im, r, i);
  }

  /** What a write adds to the log of its group. */
  lemma AfterWrite(g: Geometry, im: Image, r: Image, owner: Owner, was: set<nat>, now: set<nat>, i: nat, off: nat,
      n: nat)
    requires Shape(g, im) && Owned(g, r, owner) && i < g.ninodes && NoHoles(g, r, i)
    requires off <= im.inodes[i].size <= MAXFILE * BSIZE && off + n <= MAXFILE * BSIZE
    requires r.inodes[i].size == Max(im.inodes[i].size, off + n)
    requires WriteLogged(g, im, r, was, now, i, off, n) && InFiles(g, was)
    ensures was <= now && InFiles(g, now)
    ensures n > 0 && g.size <= BPB && was == {} ==> |now| == OpenFile.SmallDiskCount(im.inodes[i].size, off, n)
  {
    hide Owned, NoHoles, AddrSet, MapSet, IndLog, NBlocks, WrittenTo, IBlock, OpenFile.SmallDiskCount;
    OwnedShape(g, r, owner);
    var added := Added(g, im, r, i, off, n);
    assert now == was + added;
    if n > 0 {
      assert WriteLogged(g, im, r, {}, added, i, off, n);
      LoggedRange(g, im, r, owner, added, i, off, n);
      if g.size <= BPB && was == {} {
        assert {} + added == added;
        OpenFile.OperationFits(g, im, r, owner, added, i, off, n);
      }
    } else {
      NothingAdded(g, im, r, i, off);
    }
  }

  ghost function Added(g: Geometry, im: Image, r: Image, i: nat, off: nat, n: nat): set<nat>
    requires Shape(g, im) && Shape(g, r) && i < g.ninodes && off + n <= MAXFILE * BSIZE
    requires im.inodes[i].size <= MAXFILE * BSIZE
  {
    var size := im.inodes[i].size;
    var nb0, nb := NBlocks(size), NBlocks(Max(size, off + n));
    AddrSet(g, r, i, off / BSIZE, WrittenTo(off, n)) + MapSet(g, r, i, nb0, nb) + IndLog(g, r.inodes[i], nb0, nb)
      + (if off + n > size then {IBlock(g, i)} else {})
  }

  lemma NothingAdded(g: Geometry, im: Image, r: Image, i: nat, off: nat)
    requires Shape(g, im) && Shape(g, r) && i < g.ninodes && off <= im.inodes[i].size <= MAXFILE * BSIZE
    ensures Added(g, im, r, i, off, 0) == {}
  {
    var nb0 := NBlocks(im.inodes[i].size);
    assert Max(im.inodes[i].size, off) == im.inodes[i].size;
    NoBlocks(g, r, i, nb0);
    NoBlocks(g, r, i, off / BSIZE);
  }

  /** The last close of a file, as an operation of a group. On a disk with one map block it logs at most two. */
  method PutTransaction(fs: FileSys, i: nat, last: bool, ghost f: Format, ghost s0: DiskState)
    requires fs.Valid() && i < fs.g.ninodes && AttrsAllFit(fs.inodes)
    requires FormatOk(f) && f.g == fs.g && InGroup(f, s0, fs.OnDisk(), fs.logged)
    modifies fs
    ensures fs.Valid() && SoundDisk(f.g, fs.OnDisk()) && StateFits(f.g, fs.OnDisk()) && AttrsAllFit(fs.inodes)
    ensures InGroup(f, s0, fs.OnDisk(), fs.logged) && Atomic(f, [s0, fs.OnDisk()], [fs.logged])
    ensures FitsLog(f.L, fs.logged) ==> Performable(f, s0, fs.OnDisk(), fs.logged)
    ensures last && old(fs.inodes[i].nlink) == 0 ==> fs.inodes[i].typ == 0 && fs.owner == OwnersBut(old(fs.owner), i)
    ensures f.g.size <= BPB && old(fs.logged) == {} ==> |fs.logged| <= 2 && LogDistinct.LeanCalls(fs.calls)
  {
    hide Covered, Atomic, Performable, FitsLog, InFiles, FormatOk, Sound, OthersKept, StateFits, AttrsAllFit, MapBlocks,
      BlocksOf, OwnersBut, IBlock, LogDistinct.LeanCalls, LogCalls;
    ghost var im, was, d, own := fs.Img(), fs.logged, fs.OnDisk(), fs.owner;
    SoundAt(f.g, im, own, i);
    fs.Iput(i, last);
    assert fs.Img() == OpenFile.OnDiskImage(fs.OnDisk());
    assert SoundDisk(f.g, fs.OnDisk());
    SoundAt(f.g, fs.Img(), fs.owner, i);
    if last && im.inodes[i].nlink == 0 {
      FreedRange(f.g, im, own, i);
      ghost var added := MapBlocks(f.g, BlocksOf(own, i)) + {IBlock(f.g, i)};
      assert fs.logged == was + added;
      FilesJoin(f.g, was, added);
      assert was == {} ==> fs.logged == added;
      AttrsFreed(f.g, im, fs.Img(), i);
    }
    if |fs.logged| <= 2 {
      LeanFew(fs.calls, fs.logged);
    }
    CoveredTrans(f.g, s0, d, fs.OnDisk(), was, fs.logged);
    SoundFits(f.g, fs.OnDisk(), fs.owner);
    FitsSizes(f.g, fs.OnDisk());
    GroupFacts(f, s0, fs.OnDisk(), fs.logged);
  }

  /** Calls for fewer than MAXOPBLOCKS blocks. */
  lemma LeanFew(calls: seq<nat>, logged: set<nat>)
    requires LogCalls(calls, logged) && |logged| < MAXOPBLOCKS
    ensures LogDistinct.LeanCalls(calls)
  {
    forall k | 0 <= k < |calls| ensures |Elements(calls[..k])| < MAXOPBLOCKS {
      ElementsAre(calls[..k]);
      CardSub(Elements(calls[..k]), logged);
    }
  }

  /** Calls for one more, if the last one is for a block of its own. */
  lemma LeanLast(calls: seq<nat>, logged: set<nat>, b: nat)
    requires LogCalls(calls, logged) && |logged| <= MAXOPBLOCKS && InodeLast(calls, {}, b)
    ensures LogDistinct.LeanCalls(calls)
  {
    hide Elements;
    var rest := logged - {b};
    assert logged == rest + {b};
    forall k | 0 <= k < |calls| ensures |Elements(calls[..k])| < MAXOPBLOCKS {
      ElementsAre(calls[..k]);
      BeforeLast(calls, logged, b, k);
      CardSub(Elements(calls[..k]), rest);
    }
  }

  lemma BeforeLast(calls: seq<nat>, logged: set<nat>, b: nat, k: nat)
    requires LogCalls(calls, logged) && InodeLast(calls, {}, b) && k < |calls|
    ensures b in logged && forall x :: x in calls[..k] ==> x in logged && x != b
  {
    assert b in calls;
    forall x | x in calls[..k] ensures x in calls && x != b {
      var j :| 0 <= j < k && calls[j] == x;
      assert calls[..|calls| - 1][j] == x;
    }
  }

  /** A write of no more than the longest chunk logs fewer, or the inode block last. */
  lemma LeanWrite(calls: seq<nat>, logged: set<nat>, size: nat, off: nat, n: nat, b: nat)
    requires LogCalls(calls, logged) && 0 < n <= OpenFile.LONGEST && off <= size <= MAXFILE * BSIZE
    requires off + n <= MAXFILE * BSIZE && |logged| == OpenFile.SmallDiskCount(size, off, n)
    requires off + n > size ==> InodeLast(calls, {}, b)
    ensures LogDistinct.LeanCalls(calls)
  {
    hide LogCalls, InodeLast, LogDistinct.LeanCalls;
    OpenFile.LongestChunk(n);
    if off + n > size {
      LeanLast(calls, logged, b);
    } else {
      OpenFile.OverwriteCount(size, off, n);
      LeanFew(calls, logged);
    }
  }

  lemma FilesJoin(g: Geometry, a: set<nat>, b: set<nat>)
    requires InFiles(g, a) && InFiles(g, b)
    ensures InFiles(g, a + b)
  {}

  lemma AttrsFreed(g: Geometry, im: Image, r: Image, i: nat)
    requires Shape(g, im) && Shape(g, r) && i < g.ninodes && OthersKept(g, im, r, i) && AttrsAllFit(im.inodes)
    requires r.inodes[i] == Emptied(im.inodes[i]).(typ := 0)
    ensures AttrsAllFit(r.inodes)
  {
    assert AttrsFit(im.inodes[i]);
    AttrsKept(g, im, r, i);
  }

  /**
   filewrite: after a crash, however many chunks have been written, the disk has a sound file system in which
   the file has all of them, or all but the last, spliced in, and the other files are as they were.
   */
  method WriteFile(file: OpenFile.File, src: seq<Byte>, n: int, ghost f: Format)
      returns (r: int, ghost tr: OpenFile.Trail)
    requires file.Valid() && |src| == (if n < 0 then 0 else n) && FormatOk(f) && f.g == file.fs.g
    modifies file`off, file`panicked, file.fs
    ensures OpenFile.Chunked(f.g, tr, file.ip, old(file.Contents()), old(file.off), src)
    ensures tr.states[0] == old(file.fs.OnDisk()) && Atomic(f, tr.states, tr.logs)
  {
    hide Atomic, FormatOk, Sound, Covered, OpenFile.ChunksIn;
    r, tr := file.Write(src, n);
    assert Groups(f.g, tr.states, tr.logs);
    GroupsAreAtomic(f, tr.states, tr.logs);
  }
}
