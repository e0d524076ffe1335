/**
 filewrite of file.c: a long write goes into transactions of at most CHUNK bytes. Together they are one
 write, and each of them fits the log.
 */
module OpenFile {
  import opened FsModel
  import opened FileBlocks
  import opened FileWrites
  import opened FileSystem
  import LogModel

  const MAXOPBLOCKS := LogModel.MAXOPBLOCKS
  const LOGSIZE := LogModel.LOGSIZE
  const CHUNK := (LOGSIZE - 1 - 1 - 2) / 2 * 512

  // How much one transaction logs

  /** File blocks that a write of `n` bytes touches. */
  function Touched(off: nat, n: nat): nat {
    if n == 0 then 0 else NBlocks(off + n) - off / BSIZE
  }

  lemma ChunkBlocks(size: nat, off: nat, n: nat)
    requires off <= size && n <= CHUNK
    ensures Touched(off, n) <= 14
    ensures NBlocks(Max(size, off + n)) - NBlocks(size) <= 13
    ensures n > 0 ==> WrittenTo(off, n) == off / BSIZE + Touched(off, n) <= NBlocks(Max(size, off + n))
    ensures n == 0 ==> WrittenTo(off, n) == off / BSIZE
  {}

  lemma CardUnion(a: set<nat>, b: set<nat>)
    ensures |a + b| <= |a| + |b|
  {
    assert |a + b| == |a| + |b - a|;
    assert |b| == |b - a| + |b * a| by {
      assert b == (b - a) + (b * a) && (b - a) !! (b * a);
    }
  }

  lemma CardMinus(now: set<nat>, was: set<nat>, s: set<nat>)
    requires now == was + s
    ensures |now - was| <= |s|
  {
    assert now - was <= s;
    assert s == (now - was) + (s - (now - was));
  }

  /**
   At most 14 file blocks, as many map blocks, the indirect block and the inode block: one chunk adds no
   more than LOGSIZE blocks to the log.
   */
  lemma ChunkFitsLog(g: Geometry, im: Image, r: Image, owner: Owner, was: set<nat>, now: set<nat>, i: nat, off: nat,
      n: nat)
    requires Shape(g, im) && Owned(g, r, owner) && i < g.ninodes && NoHoles(g, r, i)
    requires off <= im.inodes[i].size <= MAXFILE * BSIZE && off + n <= MAXFILE * BSIZE && n <= CHUNK
    requires r.inodes[i].size == Max(im.inodes[i].size, off + n)
    requires WriteLogged(g, im, r, was, now, i, off, n)
    ensures |now - was| <= LOGSIZE
  {
    hide Owned, NoHoles, Holds, AddrSet, MapSet, NBlocks, WrittenTo;
    var size := im.inodes[i].size;
    var nb0, nb := NBlocks(size), NBlocks(Max(size, off + n));
    OwnedShape(g, r, owner);
    ChunkBlocks(size, off, n);
    GrowthBlocks(size, off + n);
    HoldsAll(g, r, i);
    var a := AddrSet(g, r, i, off / BSIZE, WrittenTo(off, n));
    var m := MapSet(g, r, i, nb0, nb);
    var d := IndLog(g, r.inodes[i], nb0, nb);
    var e: set<nat> := if off + n > size then {IBlock(g, i)} else {};
    assert |a| <= 14 by {
      if n > 0 {
        AddrSetSize(g, r, owner, i, nb, off / BSIZE, WrittenTo(off, n));
      } else {
        NoBlocks(g, r, i, off / BSIZE);
      }
    }
    MapSetSize(g, r, i, nb0, nb);
    CardUnion(a, m);
    CardUnion(a + m, d);
    CardUnion(a + m + d, e);
    IndLogSize(g, r.inodes[i], nb0, nb);
    assert now == was + (a + m + d + e);
    CardMinus(now, was, a + m + d + e);
  }

  lemma GrowthBlocks(size: nat, end: nat)
    requires size <= MAXFILE * BSIZE && end <= MAXFILE * BSIZE
    ensures NBlocks(size) <= NBlocks(Max(size, end)) <= MAXFILE
  {}

  lemma HoldsAll(g: Geometry, im: Image, i: nat)
    requires Shape(g, im) && i < g.ninodes && NoHoles(g, im, i)
    ensures Holds(g, im, i, NBlocks(im.inodes[i].size))
  {}

  lemma IndLogSize(g: Geometry, ino: Inode, nb0: nat, nb: nat)
    requires |ino.addrs| == NDIRECT + 1
    ensures |IndLog(g, ino, nb0, nb)| <= 2
  {}

  /** The map blocks with the bits of the new blocks, the indirect block included. */
  ghost function NewMaps(g: Geometry, r: Image, i: nat, nb0: nat, nb: nat): set<nat>
    requires Shape(g, r) && i < g.ninodes && nb <= MAXFILE
  {
    MapSet(g, r, i, nb0, nb) + (if nb0 <= NDIRECT < nb then {BBlock(g, r.inodes[i].addrs[NDIRECT])} else {})
  }

  /** What a write into an empty log adds: file blocks, map blocks, indirect block and inode block, all different. */
  lemma WriteLogCount(g: Geometry, im: Image, r: Image, owner: Owner, now: set<nat>, i: nat, off: nat, n: nat)
    requires Shape(g, im) && Owned(g, r, owner) && i < g.ninodes && NoHoles(g, r, i)
    requires off <= im.inodes[i].size <= MAXFILE * BSIZE && off + n <= MAXFILE * BSIZE && 0 < n
    requires r.inodes[i].size == Max(im.inodes[i].size, off + n)
    requires WriteLogged(g, im, r, {}, now, i, off, n)
    ensures var size := im.inodes[i].size;
      var nb0, nb := NBlocks(size), NBlocks(Max(size, off + n));
      && nb <= MAXFILE
      && |now| == Touched(off, n) + |NewMaps(g, r, i, nb0, nb)|
                + (if nb0 < nb && nb > NDIRECT then 1 else 0) + (if off + n > size then 1 else 0)
  {
    hide Owned, NoHoles, Holds, AddrSet, NewMaps, NewInd, WriteLogged, NBlocks, WrittenTo, Touched, IBlock;
    var size := im.inodes[i].size;
    var nb0, nb := NBlocks(size), NBlocks(Max(size, off + n));
    OwnedShape(g, r, owner);
    TouchedBlocks(size, off, n);
    GrowthBlocks(size, off + n);
    HoldsAll(g, r, i);
    var lo, hi := off / BSIZE, WrittenTo(off, n);
    var a, m, d := AddrSet(g, r, i, lo, hi), NewMaps(g, r, i, nb0, nb), NewInd(r.inodes[i], nb0, nb);
    var e: set<nat> := if off + n > size then {IBlock(g, i)} else {};
    AddrSetSize(g, r, owner, i, nb, lo, hi);
    NewMapsIn(g, r, owner, i, nb0, nb);
    DataApart(g, r, owner, i, nb0, nb, lo, hi);
    InodeBlockRange(g, i);
    LogParts(g, im, r, now, i, off, n);
    Apart4(g, a, m, d, e);
  }

  /** The indirect block, if the file has gained blocks that go through it. */
  ghost function NewInd(ip: Inode, nb0: nat, nb: nat): (s: set<nat>)
    requires |ip.addrs| == NDIRECT + 1
    ensures |s| == if nb0 < nb && nb > NDIRECT then 1 else 0
  {
    if nb0 < nb && nb > NDIRECT then {ip.addrs[NDIRECT]} else {}
  }

  lemma DataApart(g: Geometry, r: Image, owner: Owner, i: nat, nb0: nat, nb: nat, lo: nat, hi: nat)
    requires Owned(g, r, owner) && i < g.ninodes && lo <= hi <= nb && Holds(g, r, i, nb)
    ensures forall x :: x in AddrSet(g, r, i, lo, hi) ==> x >= g.nmeta
    ensures forall x :: x in NewInd(r.inodes[i], nb0, nb) ==> x >= g.nmeta
    ensures AddrSet(g, r, i, lo, hi) !! NewInd(r.inodes[i], nb0, nb)
  {
    hide Owned, AddrSet;
    OwnedShape(g, r, owner);
    if nb > NDIRECT {
      IndirectHeld(g, r, owner, i, nb);
    }
    forall x | x in AddrSet(g, r, i, lo, hi) ensures x >= g.nmeta && x !in NewInd(r.inodes[i], nb0, nb) {
      AddrMember(g, r, owner, i, nb, lo, hi, x);
    }
  }

  lemma LogParts(g: Geometry, im: Image, r: Image, now: set<nat>, i: nat, off: nat, n: nat)
    requires Shape(g, im) && Shape(g, r) && i < g.ninodes && off + n <= MAXFILE * BSIZE
    requires im.inodes[i].size <= MAXFILE * BSIZE
    requires WriteLogged(g, im, r, {}, now, i, off, n)
    ensures var size := im.inodes[i].size;
      var nb0, nb := NBlocks(size), NBlocks(Max(size, off + n));
      && nb <= MAXFILE && WrittenTo(off, n) <= MAXFILE
      && now == AddrSet(g, r, i, off / BSIZE, WrittenTo(off, n)) + NewMaps(g, r, i, nb0, nb)
              + NewInd(r.inodes[i], nb0, nb) + (if off + n > size then {IBlock(g, i)} else {})
  {
    hide AddrSet, MapSet, IBlock, BBlock;
  }

  lemma NewMapsIn(g: Geometry, r: Image, owner: Owner, i: nat, nb0: nat, nb: nat)
    requires Owned(g, r, owner) && i < g.ninodes && nb0 <= nb && Holds(g, r, i, nb)
    ensures forall x :: x in NewMaps(g, r, i, nb0, nb) ==> g.bmapstart <= x < g.nmeta
    ensures nb0 == nb ==> NewMaps(g, r, i, nb0, nb) == {}
  {
    forall x | x in NewMaps(g, r, i, nb0, nb) ensures g.bmapstart <= x < g.nmeta {
      if x in MapSet(g, r, i, nb0, nb) {
        MapMember(g, r, owner, i, nb, nb0, nb, x);
      } else {
        IndirectHeld(g, r, owner, i, nb);
        MapBlockRange(g, r.inodes[i].addrs[NDIRECT]);
      }
    }
    if nb0 == nb {
      NoBlocks(g, r, i, nb);
    }
  }

  /** Sets of blocks from different parts of the disk. */
  lemma Apart4(g: Geometry, a: set<nat>, m: set<nat>, d: set<nat>, e: set<nat>)
    requires a !! d && (forall x :: x in a ==> x >= g.nmeta) && (forall x :: x in d ==> x >= g.nmeta)
    requires (forall x :: x in m ==> g.bmapstart <= x < g.nmeta)
    requires (forall x :: x in e ==> x < g.bmapstart) && g.bmapstart <= g.nmeta
    ensures |a + m + d + e| == |a| + |m| + |d| + |e|
  {
    CardApart(a, m);
    CardApart(a + m, d);
    CardApart(a + m + d, e);
  }

  lemma CardApart(a: set<nat>, b: set<nat>)
    requires forall x :: x in a ==> x !in b
    ensures |a + b| == |a| + |b|
  {
    assert a * b == {};
  }

  lemma TouchedBlocks(size: nat, off: nat, n: nat)
    requires n > 0 && off <= size
    ensures off / BSIZE <= WrittenTo(off, n) == off / BSIZE + Touched(off, n) <= NBlocks(Max(size, off + n))
  {}

  /** The count where one block holds the whole free map. */
  function SmallDiskCount(size: nat, off: nat, n: nat): nat {
    var grows, nb := NBlocks(Max(size, off + n)) > NBlocks(size), NBlocks(Max(size, off + n));
    Touched(off, n) + (if grows then 1 else 0) + (if grows && nb > NDIRECT then 1 else 0)
      + (if off + n > size then 1 else 0)
  }

  /**
   On a disk whose free map fits one block, which is what mkfs makes, the size of the file, the offset and
   the length decide if a write stays within what begin_op reserves for an operation.
   */
  lemma OperationFits(g: Geometry, im: Image, r: Image, owner: Owner, now: set<nat>, i: nat, off: nat, n: nat)
    requires Shape(g, im) && Owned(g, r, owner) && i < g.ninodes && NoHoles(g, r, i) && g.size <= BPB
    requires off <= im.inodes[i].size <= MAXFILE * BSIZE && off + n <= MAXFILE * BSIZE && 0 < n
    requires r.inodes[i].size == Max(im.inodes[i].size, off + n)
    requires WriteLogged(g, im, r, {}, now, i, off, n)
    ensures |now| == SmallDiskCount(im.inodes[i].size, off, n)
    ensures |now| <= MAXOPBLOCKS <==> SmallDiskCount(im.inodes[i].size, off, n) <= MAXOPBLOCKS
  {
    hide Owned, NoHoles, Holds, NBlocks, MapSet, WriteLogged;
    var size := im.inodes[i].size;
    var nb0, nb := NBlocks(size), NBlocks(Max(size, off + n));
    OwnedShape(g, r, owner);
    WriteLogCount(g, im, r, owner, now, i, off, n);
    GrowthBlocks(size, off + n);
    HoldsAll(g, r, i);
    NewMapsIn(g, r, owner, i, nb0, nb);
    if nb0 < nb {
      OneMapBlock(g, r, owner, i, nb0, nb);
    }
  }

  lemma OneMapBlock(g: Geometry, r: Image, owner: Owner, i: nat, nb0: nat, nb: nat)
    requires Owned(g, r, owner) && i < g.ninodes && nb0 < nb && Holds(g, r, i, nb) && g.size <= BPB
    ensures NewMaps(g, r, i, nb0, nb) == {g.bmapstart}
  {
    var s := NewMaps(g, r, i, nb0, nb);
    forall x | x in MapSet(g, r, i, nb0, nb) ensures x == g.bmapstart {
      OneMapMember(g, r, owner, i, nb, nb0, nb, x);
    }
    if nb0 <= NDIRECT < nb {
      IndirectHeld(g, r, owner, i, nb);
    }
    SetsStep(g, r, i, nb0, nb - 1);
    var x := BBlock(g, Addr(g, r, i, nb - 1));
    assert x in MapSet(g, r, i, nb0, nb);
    assert x in s;
  }

  lemma {:induction false} OneMapMember(g: Geometry, im: Image, owner: Owner, i: nat, nb: nat, lo: nat, hi: nat, x: nat)
    requires Owned(g, im, owner) && i < g.ninodes && lo <= hi <= nb && Holds(g, im, i, nb) && g.size <= BPB
    requires x in MapSet(g, im, i, lo, hi)
    ensures x == g.bmapstart
    decreases hi
  {
    NewDataBlock(g, im, owner, i, nb, hi - 1);
    SlotRange(g, im, owner, i, DataSlot(hi - 1));
    if x != BBlock(g, Addr(g, im, i, hi - 1)) {
      OneMapMember(g, im, owner, i, nb, lo, hi - 1, x);
    }
  }

  /** A full chunk at the start of an empty file does not. */
  lemma ChunkOverOperation()
    ensures SmallDiskCount(0, 0, CHUNK) == 16 > MAXOPBLOCKS
  {}

  /** Without growth it stays well below. */
  lemma OverwriteCount(size: nat, off: nat, n: nat)
    requires n <= LONGEST && off + n <= size
    ensures SmallDiskCount(size, off, n) < MAXOPBLOCKS
  {}

  /** Wherever n bytes go, and whatever the size of the file, they are within the reservation. */
  ghost predicate FitsAnywhere(n: nat) {
    forall size: nat, off: nat | off <= size <= MAXFILE * BSIZE && off + n <= MAXFILE * BSIZE
      :: SmallDiskCount(size, off, n) <= MAXOPBLOCKS
  }

  /** The longest chunk that would have been right: six blocks and a byte. */
  const LONGEST := 6 * BSIZE + 1

  lemma LongestChunk(n: nat)
    requires n <= MAXFILE * BSIZE
    ensures FitsAnywhere(n) <==> n <= LONGEST
  {
    if n > LONGEST {
      var off := if (NDIRECT + 1) * BSIZE - 1 + n <= MAXFILE * BSIZE then (NDIRECT + 1) * BSIZE - 1 else 0;
      assert SmallDiskCount(off, off, n) > MAXOPBLOCKS;
    }
  }

  // The chunks

  /** What gets written: whole chunks, up to the first that would make the file too long. */
  function Accepted(size: nat, off: nat, n: nat): (w: nat)
    ensures w <= n
    decreases n
  {
    var n1 := Min(n, CHUNK);
    if n == 0 || Refused(size, off, n1) then 0 else n1 + Accepted(Max(size, off + n1), off + n1, n - n1)
  }

  /** All of it, exactly if the offset is in the file and the end within the largest size. */
  lemma {:induction false} AcceptedAll(size: nat, off: nat, n: nat)
    requires n > 0
    ensures Accepted(size, off, n) == n <==> !Refused(size, off, n)
    ensures Accepted(size, off, n) > 0 ==> off <= size && off + Accepted(size, off, n) <= MAXFILE * BSIZE
    decreases n
  {
    var n1 := Min(n, CHUNK);
    if !Refused(size, off, n1) && n > n1 {
      AcceptedAll(Max(size, off + n1), off + n1, n - n1);
    }
  }

  lemma SpliceTwice(c: seq<Byte>, off: nat, a: seq<Byte>, b: seq<Byte>)
    requires off <= |c|
    ensures Splice(Splice(c, off, a), off + |a|, b) == Splice(c, off, a + b)
  {
    var x, y := Splice(Splice(c, off, a), off + |a|, b), Splice(c, off, a + b);
    assert |x| == |y|;
    forall k | 0 <= k < |x| ensures x[k] == y[k] {
    }
  }

  lemma SpliceNone(c: seq<Byte>, off: nat)
    requires off <= |c|
    ensures Splice(c, off, []) == c
  {}

  /** Blocks needed add up. */
  lemma NeededSum(size: nat, off: nat, a: nat, b: nat)
    requires off <= size
    ensures Needed(size, off, a) + Needed(Max(size, off + a), off + a, b) == Needed(size, off, a + b)
  {
    MaxBlocks(size, off + a);
    MaxBlocks(size, off + a + b);
    MaxBlocks(Max(size, off + a), off + a + b);
    NBlocksUp(off + a, off + a + b);
  }

  lemma NBlocksUp(a: nat, b: nat)
    requires a <= b
    ensures NBlocks(a) <= NBlocks(b)
  {}

  /** The file system before and after each of some transactions, and what they gave to the log. */
  datatype Trail = Trail(states: seq<DiskState>, logs: seq<set<nat>>, owners: seq<Owner>)

  ghost function OnDiskImage(s: DiskState): Image {
    Image(s.bitmap, s.data, s.dinodes)
  }

  /** A sound file system in which the first `k` chunks of `src` are in the file and the other files are as in `s0`. */
  ghost predicate ChunksIn(g: Geometry, s0: DiskState, s: DiskState, owner: Owner, i: nat, c0: seq<Byte>, off: nat,
      src: seq<Byte>, k: nat) {
    && Sound(g, OnDiskImage(s), owner) && Shape(g, OnDiskImage(s0)) && i < g.ninodes
    && Written(c0, FsModel.Contents(g, OnDiskImage(s), owner, i), off, src[..Min(k * CHUNK, |src|)])
    && OthersKept(g, OnDiskImage(s0), OnDiskImage(s), i)
  }

  /** One chunk after the other, each in its own transaction. */
  ghost predicate Chunked(g: Geometry, tr: Trail, i: nat, c0: seq<Byte>, off: nat, src: seq<Byte>) {
    && |tr.states| == |tr.owners| == |tr.logs| + 1
    && (forall k :: 0 <= k < |tr.logs| ==>
          |tr.logs[k]| <= LOGSIZE && Covered(g, tr.states[k], tr.states[k + 1], tr.logs[k]))
    && (forall k :: 0 <= k <= |tr.logs| ==>
          ChunksIn(g, tr.states[0], tr.states[k], tr.owners[k], i, c0, off, src, k))
  }

  ghost predicate TrailFrom(tr: Trail, s0: DiskState, s: DiskState, owner: Owner) {
    && |tr.states| == |tr.owners| == |tr.logs| + 1 && tr.states[0] == s0
    && tr.states[|tr.logs|] == s && tr.owners[|tr.logs|] == owner
  }

  ghost function TrailOn(tr: Trail, s: DiskState, owner: Owner, log: set<nat>): Trail {
    Trail(tr.states + [s], tr.logs + [log], tr.owners + [owner])
  }

  lemma ChunkedStart(g: Geometry, s: DiskState, owner: Owner, i: nat, c: seq<Byte>, off: nat, src: seq<Byte>)
    requires Sound(g, OnDiskImage(s), owner) && i < g.ninodes && c == FsModel.Contents(g, OnDiskImage(s), owner, i)
    ensures var tr := Trail([s], [], [owner]);
      Chunked(g, tr, i, c, off, src) && TrailFrom(tr, s, s, owner)
  {
    AllKept(g, OnDiskImage(s), owner, i);
    hide Sound, FsModel.Contents, OthersKept, Shape;
    assert ChunksIn(g, s, s, owner, i, c, off, src, 0);
  }

  lemma ChunkedNext(g: Geometry, tr: Trail, s0: DiskState, s: DiskState, owner: Owner, i: nat, c0: seq<Byte>, off: nat,
      src: seq<Byte>, r: DiskState, owner': Owner, log: set<nat>)
    requires Chunked(g, tr, i, c0, off, src) && TrailFrom(tr, s0, s, owner)
    requires |log| <= LOGSIZE && Covered(g, s, r, log) && ChunksIn(g, s0, r, owner', i, c0, off, src, |tr.logs| + 1)
    ensures Chunked(g, TrailOn(tr, r, owner', log), i, c0, off, src)
      && TrailFrom(TrailOn(tr, r, owner', log), s0, r, owner')
  {
    hide Covered, ChunksIn;
  }

  /** What the last file system of the trail holds. */
  lemma ChunkedLast(g: Geometry, tr: Trail, s0: DiskState, s: DiskState, owner: Owner, i: nat, c0: seq<Byte>, off: nat,
      src: seq<Byte>, n: nat)
    requires Chunked(g, tr, i, c0, off, src) && TrailFrom(tr, s0, s, owner) && n == Min(|tr.logs| * CHUNK, |src|)
    ensures Sound(g, OnDiskImage(s), owner) && i < g.ninodes && Shape(g, OnDiskImage(s0)) && Shape(g, OnDiskImage(s))
    ensures Written(c0, FsModel.Contents(g, OnDiskImage(s), owner, i), off, src[..n])
    ensures OthersKept(g, OnDiskImage(s0), OnDiskImage(s), i)
  {
    assert ChunksIn(g, s0, s, owner, i, c0, off, src, |tr.logs|);
    hide Chunked, Covered, OthersKept, Written, FsModel.Contents;
  }

  /** Another chunk, in its own transaction. */
  lemma ChunkAdded(g: Geometry, tr: Trail, s0: DiskState, s: DiskState, owner: Owner, i: nat, c0: seq<Byte>, off: nat,
      src: seq<Byte>, n: nat, n1: nat, r: DiskState, owner': Owner, log: set<nat>)
    requires Chunked(g, tr, i, c0, off, src) && TrailFrom(tr, s0, s, owner) && n == Min(|tr.logs| * CHUNK, |src|)
    requires n < |src| && n1 == Min(CHUNK, |src| - n) && |log| <= LOGSIZE && Covered(g, s, r, log)
    requires Sound(g, OnDiskImage(s), owner) && i < g.ninodes && Shape(g, OnDiskImage(s)) && Shape(g, OnDiskImage(r))
    requires Sound(g, OnDiskImage(r), owner') && OthersKept(g, OnDiskImage(s), OnDiskImage(r), i)
    requires var c := FsModel.Contents(g, OnDiskImage(s), owner, i);
      && off <= |c0| && off + n <= |c|
      && FsModel.Contents(g, OnDiskImage(r), owner', i) == Splice(c, off + n, src[n..n + n1])
    ensures Chunked(g, TrailOn(tr, r, owner', log), i, c0, off, src)
      && TrailFrom(TrailOn(tr, r, owner', log), s0, r, owner')
    ensures Min(|TrailOn(tr, r, owner', log).logs| * CHUNK, |src|) == n + n1
  {
    hide Chunked, TrailFrom, Covered, OthersKept, Written, FsModel.Contents, Sound, Shape, Splice;
    ChunkedLast(g, tr, s0, s, owner, i, c0, off, src, n);
    SoundAt(g, OnDiskImage(s), owner, i);
    SoundAt(g, OnDiskImage(r), owner', i);
    hide Owned, NoHoles;
    WrittenMore(c0, FsModel.Contents(g, OnDiskImage(s), owner, i), off, src, n, n1);
    OthersTrans(g, OnDiskImage(s0), OnDiskImage(s), OnDiskImage(r), i);
    NextChunk(|tr.logs|, |src|);
    assert ChunksIn(g, s0, r, owner', i, c0, off, src, |tr.logs| + 1);
    ChunkedNext(g, tr, s0, s, owner, i, c0, off, src, r, owner', log);
  }

  lemma TrailStarts(tr: Trail, s0: DiskState, s: DiskState, owner: Owner)
    requires TrailFrom(tr, s0, s, owner)
    ensures |tr.states| > 0 && tr.states[0] == s0
  {}

  /** So many whole chunks, and then the rest. */
  lemma NextChunk(k: nat, n: nat)
    requires k * CHUNK < n
    ensures Min(k * CHUNK, n) == k * CHUNK && Min((k + 1) * CHUNK, n) == k * CHUNK + Min(CHUNK, n - k * CHUNK)
  {}

  /** Where a write started from. */
  datatype Start = Start(s: DiskState, c: seq<Byte>, size: nat, off: nat, free: nat)

  class File {
    const fs: FileSys
    const ip: nat
    const writable: bool
    var off: nat

    /** The panic for a short write. */
    var panicked: bool

    constructor (fs: FileSys, ip: nat, writable: bool)
      ensures this.fs == fs && this.ip == ip && this.writable == writable && off == 0 && !panicked
    {
      this.fs, this.ip, this.writable, off, panicked := fs, ip, writable, 0, false;
    }

    ghost predicate Valid()
      reads this, fs
    {
      fs.Valid() && ip < fs.g.ninodes && fs.inodes[ip].typ != T_DEV && off < 0x1_0000_0000 && !panicked
    }

    ghost function Contents(): seq<Byte>
      requires Valid()
      reads this, fs
    {
      FsModel.Contents(fs.g, fs.Img(), fs.owner, ip)
    }

    /** One transaction, which begins with an empty log. */
    method WriteChunk(src: seq<Byte>) returns (r: int)
      requires Valid() && 0 < |src| <= CHUNK
      modifies this`off, fs
      ensures r == if Refused(old(fs.inodes[ip].size), old(off), |src|) then -1 else |src|
      ensures r == -1 ==> Valid() && Contents() == old(Contents()) && off == old(off) && fs.Img() == old(fs.Img())
      ensures r == -1 ==> fs.OnDisk() == old(fs.OnDisk()) && fs.owner == old(fs.owner)
      ensures r != -1 ==>
        (fs.panicked <==> FreeCount(old(fs.bitmap), fs.g.size) < Needed(old(fs.inodes[ip].size), old(off), |src|))
      ensures r != -1 && !fs.panicked ==>
        && Valid() && off == old(off) + r
        && Contents() == Splice(old(Contents()), old(off), src)
        && OthersKept(fs.g, old(fs.Img()), fs.Img(), ip)
        && FreeCount(fs.bitmap, fs.g.size) ==
             FreeCount(old(fs.bitmap), fs.g.size) - Needed(old(fs.inodes[ip].size), old(off), |src|)
        && |fs.logged| <= LOGSIZE && Covered(fs.g, old(fs.OnDisk()), fs.OnDisk(), fs.logged)
    {
      hide Sound, Owned, FreeCount, Needed, WriteLogged, OthersKept, FsModel.Contents, Covered;
      ghost var im := fs.Img();
      SoundAt(fs.g, im, fs.owner, ip);
      fs.logged := {};
      fs.calls := [];
      r := fs.Writei(ip, src, off);
      if r == -1 || fs.panicked {
        return;
      }
      SoundAt(fs.g, fs.Img(), fs.owner, ip);
      ChunkFitsLog(fs.g, im, fs.Img(), fs.owner, {}, fs.logged, ip, off, |src|);
      assert fs.logged - {} == fs.logged;
      off := off + r;
    }

    /** The first `i` bytes have been written, of `w` that will be accepted, in the transactions of `tr`. */
    ghost predicate Midway(src: seq<Byte>, i: nat, tr: Trail, start: Start)
      reads this, fs
    {
      && i <= |src| && Valid() && |fs.inodes| == fs.g.ninodes && |fs.bitmap| == fs.g.size
      && |start.c| == start.size && off == start.off + i && (i > 0 ==> start.off <= start.size)
      && i == Min(|tr.logs| * CHUNK, |src|)
      && Chunked(fs.g, tr, ip, start.c, start.off, src) && TrailFrom(tr, start.s, fs.OnDisk(), fs.owner)
      && Accepted(start.size, start.off, |src|) == i + Accepted(fs.inodes[ip].size, off, |src| - i)
      && FreeCount(fs.bitmap, fs.g.size) == start.free - NeededFor(start.size, start.off, i)
    }

    /** One round of the loop. */
    method WriteRound(src: seq<Byte>, i: nat, n1: nat, ghost tr: Trail, ghost start: Start)
        returns (r: int, ghost tr': Trail)
      requires Midway(src, i, tr, start) && i < |src| && n1 == Min(CHUNK, |src| - i)
      modifies this`off, fs
      ensures Chunked(fs.g, tr', ip, start.c, start.off, src) && |tr'.states| > 0 && tr'.states[0] == start.s
      ensures r == -1 || r == n1
      ensures r == -1 ==> Midway(src, i, tr', start) && Accepted(start.size, start.off, |src|) == i
      ensures r != -1 && !fs.panicked ==> Midway(src, i + n1, tr', start)
      ensures fs.panicked ==>
        r != -1 && start.free < NeededFor(start.size, start.off, Accepted(start.size, start.off, |src|))
    {
      hide LogCalls, Chunked, TrailFrom, TrailOn, Covered, OthersKept, Sound, Owned, Shape, NoHoles, FreeCount, Needed,
        NeededFor, FsModel.Contents, Refused, Accepted, Splice, Written, Max;
      ghost var size, c, s, own := fs.inodes[ip].size, Contents(), fs.OnDisk(), fs.owner;
      tr' := tr;
      ChunkedLast(fs.g, tr, start.s, s, own, ip, start.c, start.off, src, i);
      TrailStarts(tr, start.s, s, own);
      r := WriteChunk(src[i..i + n1]);
      AcceptedStep(size, start.off + i, |src| - i, n1);
      if r < 0 {
        Sizes(fs.g, fs.Img(), fs.owner);
        return;
      }
      WrittenSize(start.c, c, start.off, src[..i]);
      NeededSteps(start.size, start.off, i, n1, Accepted(start.size, start.off, |src|));
      if fs.panicked {
        return;
      }
      Sizes(fs.g, fs.Img(), fs.owner);
      ChunkAdded(fs.g, tr, start.s, s, own, ip, start.c, start.off, src, i, n1, fs.OnDisk(), fs.owner, fs.logged);
      tr' := TrailOn(tr, fs.OnDisk(), fs.owner, fs.logged);
      TrailStarts(tr', start.s, fs.OnDisk(), fs.owner);
    }

    /**
     The chunks together are one write of what is accepted; "short filewrite" cannot happen, and no
     chunk gives more to the log than it can hold. `tr` are the transactions, one for each chunk.
     */
    method Write(src: seq<Byte>, n: int) returns (r: int, ghost tr: Trail)
      requires Valid() && |src| == (if n < 0 then 0 else n)
      modifies this`off, this`panicked, fs
      ensures !panicked
      ensures !writable ==>
        r == -1 && Valid() && fs.Img() == old(fs.Img()) && Contents() == old(Contents()) && off == old(off)
      ensures writable ==>
        var w := Accepted(old(fs.inodes[ip].size), old(off), |src|);
        && (fs.panicked <==> FreeCount(old(fs.bitmap), fs.g.size) < NeededFor(old(fs.inodes[ip].size), old(off), w))
        && (!fs.panicked ==> Valid() && Written(old(Contents()), Contents(), old(off), src[..w]) && off == old(off) + w)
        && (!fs.panicked ==> r == (if w == n then n else -1))
        && (!fs.panicked ==> OthersKept(fs.g, old(fs.Img()), fs.Img(), ip))
        && (!fs.panicked ==>
           TrailFrom(tr, old(fs.OnDisk()), fs.OnDisk(), fs.owner) && Min(|tr.logs| * CHUNK, |src|) == w)
      ensures Chunked(fs.g, tr, ip, old(Contents()), old(off), src) && tr.states[0] == old(fs.OnDisk())
    {
      hide LogCalls, Chunked, TrailFrom, TrailOn, Covered, OthersKept, Sound, Owned, Shape, NoHoles, FreeCount, Needed,
        NeededFor, FsModel.Contents, Refused, Accepted, Splice, Written, Max;
      Sizes(fs.g, fs.Img(), fs.owner);
      ghost var start := Start(fs.OnDisk(), Contents(), fs.inodes[ip].size, off, FreeCount(fs.bitmap, fs.g.size));
      ChunkedStart(fs.g, start.s, fs.owner, ip, start.c, off, src);
      tr := Trail([start.s], [], [fs.owner]);
      if !writable {
        return -1, tr;
      }
      var i := 0;
      NothingYet(start.size, off, start.c, src);
      while i < n
        invariant 0 <= i <= |src| && !panicked && Midway(src, i, tr, start)
      {
        var n1 := n - i;
        if n1 > CHUNK {
          n1 := CHUNK;
        }
        r, tr := WriteRound(src, i, n1, tr, start);
        if r < 0 {
          break;
        }
        if fs.panicked {
          return;
        }
        panicked := panicked || r != n1;
        i := i + r;
      }
      ChunkedLast(fs.g, tr, start.s, fs.OnDisk(), fs.owner, ip, start.c, start.off, src, i);
      TrailStarts(tr, start.s, fs.OnDisk(), fs.owner);
      AcceptedNone(fs.inodes[ip].size, off);
      r := if i == n then n else -1;
    }
  }

  function NeededFor(size: nat, off: nat, w: nat): nat {
    if w == 0 then 0 else Needed(size, off, w)
  }

  /** The file after a write that may be empty. */
  ghost predicate Written(c0: seq<Byte>, c: seq<Byte>, off: nat, s: seq<Byte>) {
    if s == [] then c == c0 else off <= |c0| && c == Splice(c0, off, s)
  }

  lemma Sizes(g: Geometry, im: Image, owner: Owner)
    requires Sound(g, im, owner)
    ensures |im.inodes| == g.ninodes && |im.bitmap| == g.size && Shape(g, im)
  {}

  lemma AllKept(g: Geometry, im: Image, owner: Owner, i: nat)
    requires Sound(g, im, owner) && i < g.ninodes
    ensures Shape(g, im) && OthersKept(g, im, im, i)
  {
    KeptRefl(g, im, owner, i);
  }

  lemma NothingYet(size: nat, off: nat, c: seq<Byte>, src: seq<Byte>)
    ensures Written(c, c, off, src[..0]) && NeededFor(size, off, 0) == 0
  {}

  lemma AcceptedNone(size: nat, off: nat)
    ensures Accepted(size, off, 0) == 0
  {}

  lemma AcceptedStep(size: nat, off: nat, n: nat, n1: nat)
    requires 0 < n && n1 == Min(n, CHUNK)
    ensures Refused(size, off, n1) ==> Accepted(size, off, n) == 0
    ensures !Refused(size, off, n1) ==>
      && off <= size && off + n1 <= MAXFILE * BSIZE
      && Accepted(size, off, n) == n1 + Accepted(Max(size, off + n1), off + n1, n - n1)
  {}

  lemma WrittenSize(c0: seq<Byte>, c: seq<Byte>, off: nat, s: seq<Byte>)
    requires Written(c0, c, off, s) && off + |s| <= |c|
    ensures off <= |c0| && |c| == Max(|c0|, off + |s|)
  {}

  lemma WrittenMore(c0: seq<Byte>, c: seq<Byte>, off: nat, src: seq<Byte>, i: nat, n: nat)
    requires i + n <= |src| && 0 < n && off <= |c0| && Written(c0, c, off, src[..i]) && off + i <= |c|
    ensures Written(c0, Splice(c, off + i, src[i..i + n]), off, src[..i + n])
  {
    assert src[..i] + src[i..i + n] == src[..i + n];
    SpliceTwice(c0, off, src[..i], src[i..i + n]);
    SpliceNone(c0, off);
  }

  lemma NeededSteps(size: nat, off: nat, i: nat, n: nat, w: nat)
    requires off <= size && 0 < n && i + n <= w
    ensures NeededFor(size, off, i) + Needed(Max(size, off + i), off + i, n) ==
      NeededFor(size, off, i + n) <= NeededFor(size, off, w)
  {
    hide Needed;
    NeededSum(size, off, i, n);
    NeededSum(size, off, i + n, w - i - n);
    NeededNone(size, off);
  }

  lemma NeededNone(size: nat, off: nat)
    requires off <= size
    ensures Needed(size, off, 0) == 0
  {}
}
