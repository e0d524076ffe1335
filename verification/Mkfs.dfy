/**
 mkfs.c: the file system image is built by giving out inodes and blocks in order. What it leaves on
 disk is a sound file system, the starting point of everything in FileSystem.
 */
module Mkfs {
  import opened FsModel
  import opened FileBlocks
  import opened FileWrites
  import opened FileTrunc
  import opened FileSystem

  /** The free map with the first `n` blocks in use. */
  function MapBelow(n: nat, size: nat): (m: seq<bool>)
    ensures |m| == size && forall b :: 0 <= b < size ==> m[b] == (b < n)
  {
    seq(size, b => b < n)
  }

  /** Boot block, superblock, log, inodes, free map, data: mkfs.c:23-30, 93-103. */
  function DiskLayout(fssize: nat, ninodes: nat, nlog: nat): (g: Geometry)
    requires 2 + nlog + (ninodes / IPB + 1) + (fssize / BPB + 1) <= fssize < 0x1_0000_0000
    ensures GeoOk(g) && g.size == fssize && g.ninodes == ninodes
    ensures forall i: nat :: i < ninodes ==> 2 + nlog <= IBlock(g, i) < g.bmapstart
    ensures forall b: nat :: b < fssize ==> g.bmapstart <= BBlock(g, b) < g.nmeta
  {
    var inodestart, bmapstart := 2 + nlog, 2 + nlog + (ninodes / IPB + 1);
    Geometry(fssize, bmapstart + (fssize / BPB + 1), ninodes, inodestart, bmapstart)
  }

  function NoInode(): Inode {
    Inode(0, 0, 0, 0, 0, 0, 0, 0, NoAddrs())
  }

  // param.h
  const DEFAULTUID := 0
  const DEFAULTGID := 0
  const DEFAULTMODE := 0x1ED

  function NewInode(typ: int): Inode {
    Inode(typ, 0, 0, 1, DEFAULTUID, DEFAULTGID, DEFAULTMODE, 0, NoAddrs())
  }

  /** The size of the root directory at the end: the next multiple of the block size. */
  function RoundUp(size: nat): nat {
    (size / BSIZE + 1) * BSIZE
  }

  /**
   Rounding up the size of a file leaves it without holes exactly if the size was not a multiple of the
   block size; otherwise the last block is missing.
   */
  lemma RoundingHoles(g: Geometry, im: Image, owner: Owner, i: nat)
    requires Owned(g, im, owner) && i < g.ninodes && NoHoles(g, im, i)
    ensures var r := Resized(im, i, RoundUp(im.inodes[i].size));
      Owned(g, r, owner) && (NoHoles(g, r, i) <==> im.inodes[i].size % BSIZE != 0)
  {
    var size := im.inodes[i].size;
    var r := Resized(im, i, RoundUp(size));
    ResizedSlot(g, im, owner, i, RoundUp(size));
    KeptHolds(g, im, r, i, NBlocks(size));
    RoundedBlocks(size);
    var nb := NBlocks(size);
    if size % BSIZE == 0 && nb < MAXFILE {
      assert BlockIn(g, r, i, nb, nb);
      var nb1 := nb + 1;
      assert !BlockIn(g, r, i, nb, nb1);
    }
  }

  lemma RoundedBlocks(size: nat)
    ensures NBlocks(RoundUp(size)) == NBlocks(size) + (if size % BSIZE == 0 then 1 else 0)
    ensures size % BSIZE != 0 && size <= MAXFILE * BSIZE ==> RoundUp(size) <= MAXFILE * BSIZE
    ensures size <= MAXFILE * BSIZE ==> (NBlocks(size) < MAXFILE <==> size <= (MAXFILE - 1) * BSIZE)
    ensures size == MAXFILE * BSIZE ==> RoundUp(size) > MAXFILE * BSIZE
  {}

  class Disk {
    const g: Geometry
    var data: seq<Block>
    var inodes: seq<Inode>
    var freeinode: nat
    var freeblock: nat

    /** An assert of the program failed, or a block or inode number went past its table. */
    var aborted: bool

    ghost var owner: Owner

    ghost function ImgWith(inum: nat, din: Inode): Image
      requires inum < |inodes|
      reads this
    {
      Image(MapBelow(freeblock, g.size), data, inodes[inum := din])
    }

    ghost function Img(): Image
      reads this
    {
      Image(MapBelow(freeblock, g.size), data, inodes)
    }

    /** Blocks not given out yet are zero. */
    ghost predicate Blank()
      reads this
    {
      && freeblock <= g.size == |data| && |inodes| == g.ninodes
      && forall b :: freeblock <= b < g.size ==> data[b] == Zero()
    }

    ghost predicate Unused()
      reads this
    {
      forall i :: freeinode <= i < |inodes| ==> inodes[i] == NoInode()
    }

    ghost predicate Valid()
      reads this
    {
      Sound(g, Img(), owner) && Blank() && Unused() && !aborted
    }

    /** Everything zero: mkfs.c:97-113. */
    constructor (geo: Geometry)
      requires GeoOk(geo)
      ensures Valid() && g == geo && freeinode == 1 && freeblock == g.nmeta && owner == map[]
      ensures inodes == seq(g.ninodes, i => NoInode())
    {
      g := geo;
      data := seq(geo.size, b => Zero());
      inodes := seq(geo.ninodes, i => NoInode());
      freeinode, freeblock, aborted := 1, geo.nmeta, false;
      owner := map[];
      new;
      EmptySound(g, Img());
    }

    /** ialloc: mkfs.c:223-240. */
    method Ialloc(typ: int) returns (inum: nat)
      requires Valid()
      modifies this`inodes, this`freeinode, this`aborted
      ensures inum == old(freeinode) && freeinode == inum + 1
      ensures aborted <==> inum >= g.ninodes
      ensures !aborted ==>
        && Valid() && |inodes| == g.ninodes && inodes == old(inodes)[inum := NewInode(typ)]
        && FsModel.Contents(g, Img(), owner, inum) == []
        && OthersKept(g, old(Img()), Img(), inum)
      ensures !aborted ==>
        var ip := inodes[inum];
        && ip.typ == typ && ip.nlink == 1 && ip.size == 0 && ip.major == ip.minor == 0
        && ip.uid == 0 && ip.gid == 0 && ip.mode == 7 * 64 + 5 * 8 + 5
        && |ip.addrs| == NDIRECT + 1 && forall k :: 0 <= k <= NDIRECT ==> ip.addrs[k] == 0
    {
      hide OthersKept, FsModel.Contents;
      ghost var im := Img();
      inum := freeinode;
      freeinode := freeinode + 1;
      if inum >= |inodes| {
        aborted := true;
        return;
      }
      inodes := inodes[inum := NewInode(typ)];
      FreshInode(g, im, Img(), owner, inum);
    }

    /** The next block, entered into an empty slot of an inode. */
    method Enter(inum: nat, din: Inode, k: nat) returns (b: nat, din': Inode)
      requires inum < |inodes| && Owned(g, ImgWith(inum, din), owner) && Blank() && !aborted
      requires k < NSLOTS && Slot(g, ImgWith(inum, din), inum, k) == 0
      requires k > NDIRECT ==> din.addrs[NDIRECT] != 0
      modifies this`data, this`freeblock, this`aborted, this`owner
      ensures aborted <==> old(freeblock) == g.size
      ensures !aborted ==>
        && CanAlloc(g, old(ImgWith(inum, din)), old(owner), inum, k, b)
        && (k > NDIRECT ==> din.addrs[NDIRECT] < g.size)
        && ImgWith(inum, din') == AllocSlot(g, old(ImgWith(inum, din)), inum, k, b)
        && owner == old(owner)[b := (inum, k)] && Owned(g, ImgWith(inum, din'), owner)
        && Blank() && b == old(freeblock) == freeblock - 1
    {
      hide Owned, Slot;
      ghost var im := ImgWith(inum, din);
      OwnedShape(g, im, owner);
      b, din' := freeblock, din;
      if freeblock >= g.size {
        aborted := true;
        return;
      }
      AllocOwned(g, im, owner, inum, k, b);
      assert MapBelow(b, g.size)[b := true] == MapBelow(b + 1, g.size);
      assert data[b := Zero()] == data;
      freeblock := freeblock + 1;
      if k <= NDIRECT {
        din' := din.(addrs := din.addrs[k := b]);
      } else {
        IndirectUsed(g, im, owner, inum);
        var ind := din.addrs[NDIRECT];
        data := data[ind := SetWord(data[ind], k - NDIRECT - 1, b)];
      }
      owner := owner[b := (inum, k)];
    }

    /** The block for the fbn-th part of a file, as in bmap. */
    method BlockFor(inum: nat, din: Inode, fbn: nat, ghost nb: nat) returns (x: nat, din': Inode)
      requires inum < |inodes| && Owned(g, ImgWith(inum, din), owner) && Blank() && !aborted
      requires Holds(g, ImgWith(inum, din), inum, nb) && fbn <= nb && fbn < MAXFILE
      modifies this`data, this`freeblock, this`aborted, this`owner
      ensures aborted <==> fbn == nb && old(freeblock) + NewBlocks(nb, nb + 1) > g.size
      ensures !aborted ==>
        && freeblock == old(freeblock) + (if fbn < nb then 0 else NewBlocks(nb, nb + 1))
        && Grown(g, old(ImgWith(inum, din)), ImgWith(inum, din'), owner, inum, if fbn < nb then nb else nb + 1)
        && x == Addr(g, ImgWith(inum, din'), inum, fbn) && 0 < x < g.size && x < freeblock
        && Blank()
    {
      hide Owned, Slot, MapBelow, Grown;
      ghost var im := ImgWith(inum, din);
      OwnedShape(g, im, owner);
      BlockState(g, im, owner, inum, fbn, nb);
      GrownSame(g, im, owner, inum, nb);
      din' := din;
      if fbn < NDIRECT {
        x := din.addrs[fbn];
        if x == 0 {
          x, din' := Enter(inum, din, fbn);
          if !aborted {
            GrownDirect(g, im, ImgWith(inum, din'), old(owner), owner, inum, nb, x);
          }
        }
      } else if din.addrs[NDIRECT] == 0 {
        x, din' := Enter(inum, din, NDIRECT);
        if aborted {
          return;
        }
        AllocIndirect(g, im, old(owner), inum, x);
        ghost var mid, midOwner := ImgWith(inum, din'), owner;
        AllocKept(g, im, old(owner), inum, NDIRECT, x);
        x, din' := Enter(inum, din', DataSlot(fbn));
        if !aborted {
          GrownEntry(g, im, mid, ImgWith(inum, din'), midOwner, owner, inum, nb, x);
        }
      } else {
        EntryState(g, im, owner, inum, fbn);
        x := Word(data[din.addrs[NDIRECT]], fbn - NDIRECT);
        if x == 0 {
          KeptRefl(g, im, owner, inum);
          x, din' := Enter(inum, din, DataSlot(fbn));
          if !aborted {
            GrownEntry(g, im, im, ImgWith(inum, din'), old(owner), owner, inum, nb, x);
          }
        }
      }
      if !aborted {
        InUse(g, ImgWith(inum, din'), owner, inum, fbn);
      }
    }

    /** One round of iappend's loop. */
    method AppendPiece(inum: nat, din: Inode, p: seq<Byte>, off: nat, tot: nat, ghost im: Image, ghost nb: nat)
      returns (din': Inode, m: nat, ghost nb': nat)
      requires inum < |inodes| && Blank() && !aborted && tot < |p| && (off + tot) / BSIZE < MAXFILE
      requires Writing(g, im, ImgWith(inum, din), owner, inum, off, p[..tot], tot, nb)
      requires off == im.inodes[inum].size
      modifies this`data, this`freeblock, this`aborted, this`owner
      ensures m == Piece(off, p, tot)
      ensures aborted <==> (off + tot) / BSIZE == nb && old(freeblock) + NewBlocks(nb, nb + 1) > g.size
      ensures nb' == if (off + tot) / BSIZE < nb then nb else nb + 1
      ensures !aborted ==>
        && freeblock == old(freeblock) + NewBlocks(nb, nb')
        && Blank() && off + tot + m <= MAXFILE * BSIZE
        && Writing(g, im, ImgWith(inum, din'), owner, inum, off, p[..tot + m], tot + m, nb')
    {
      hide Owned, Holds, FileKept, OthersKept, Writing, Addr, NBlocks, Slot;
      ghost var r, own := ImgWith(inum, din), owner;
      m := Piece(off, p, tot);
      AppendFacts(g, im, r, owner, inum, off, p, tot, nb);
      nb' := if (off + tot) / BSIZE < nb then nb else nb + 1;
      var x;
      x, din' := BlockFor(inum, din, (off + tot) / BSIZE, nb);
      if aborted {
        return;
      }
      ghost var mid := ImgWith(inum, din');
      WritingStep(g, im, r, mid, own, owner, inum, off, p[..tot + m], tot, nb, nb');
      OwnedShape(g, mid, owner);
      data := data[x := Patch(data[x], (off + tot) % BSIZE, p[tot..tot + m])];
      assert p[..tot + m][tot..tot + m] == p[tot..tot + m];
    }

    /**
     iappend: the bytes are added at the end of the file. It gives up exactly if the file gets too long
     or the disk has fewer blocks left than it needs.
     */
    method Iappend(inum: nat, p: seq<Byte>)
      requires Valid() && inum < freeinode && inum < |inodes|
      modifies this`data, this`inodes, this`freeblock, this`aborted, this`owner
      ensures aborted <==> var size := old(inodes[inum].size);
        size + |p| > MAXFILE * BSIZE || old(freeblock) + Needed(size, size, |p|) > g.size
      ensures !aborted ==>
        && Valid() && |inodes| == |old(inodes)|
        && FsModel.Contents(g, Img(), owner, inum) == old(FsModel.Contents(g, Img(), owner, inum)) + p
        && OthersKept(g, old(Img()), Img(), inum)
        && inodes[inum].typ == old(inodes[inum].typ)
    {
      hide Sound, Owned, OthersKept, Writing, NBlocks, NoHoles, FsModel.Contents, Slot, NewBlocks, Needed;
      ghost var im, own := Img(), owner;
      SoundAt(g, im, owner, inum);
      var din := inodes[inum];
      var off := din.size;
      ghost var nb := NBlocks(off);
      assert ImgWith(inum, din) == im;
      NothingNew(off);
      WritingStart(g, im, owner, inum, off, p[..0]);
      var tot := 0;
      while tot < |p|
        modifies this`data, this`freeblock, this`aborted, this`owner
        invariant 0 <= tot <= |p| && !aborted && Blank() && off + tot <= MAXFILE * BSIZE
        invariant Writing(g, im, ImgWith(inum, din), owner, inum, off, p[..tot], tot, nb)
        invariant freeblock == old(freeblock) + NewBlocks(NBlocks(off), nb)
      {
        WritingBlocks(g, im, ImgWith(inum, din), owner, inum, off, p, tot, nb);
        if (off + tot) / BSIZE >= MAXFILE {
          TooLong(off, tot, |p|);
          aborted := true;
          return;
        }
        var m;
        if off + |p| <= MAXFILE * BSIZE {
          WriteBlocks(off, off, p, tot, nb);
        }
        din, m, nb := AppendPiece(inum, din, p, off, tot, im, nb);
        if aborted {
          return;
        }
        tot := tot + m;
      }
      WritingBlocks(g, im, ImgWith(inum, din), owner, inum, off, p, tot, nb);
      NeededAtEnd(off, off, |p|);
      assert p[..tot] == p;
      ghost var q := ImgWith(inum, din);
      AppendDone(g, im, q, own, owner, inum, off, p, nb);
      din := din.(size := off + |p|);
      inodes := inodes[inum := din];
      assert Img() == Resized(q, inum, off + |p|);
    }

    /** balloc: mark the first `used` blocks, all in one block of the map. */
    method Balloc(used: nat) returns (bitmap: seq<bool>, ok: bool)
      ensures ok <==> used < BPB
      ensures ok && used <= g.size ==> bitmap == MapBelow(used, g.size)
    {
      bitmap := seq(g.size, b => false);
      ok := used < BPB;
      if !ok {
        return;
      }
      var i := 0;
      while i < used && i < g.size
        invariant 0 <= i <= used && |bitmap| == g.size
        invariant forall b :: 0 <= b < g.size ==> bitmap[b] == (b < i)
      {
        bitmap := bitmap[i := true];
        i := i + 1;
      }
    }

    /**
     The end of main: round up the size of the root directory and write the free map. The image is a
     sound file system exactly if the size was not a multiple of the block size.
     */
    method Finish(rootino: nat) returns (bitmap: seq<bool>, ok: bool)
      requires Valid() && rootino < |inodes|
      modifies this`inodes
      ensures ok <==> freeblock < BPB
      ensures inodes == old(inodes)[rootino := old(inodes[rootino]).(size := RoundUp(old(inodes[rootino].size)))]
      ensures ok ==> bitmap == MapBelow(freeblock, g.size)
      ensures ok ==> (Sound(g, Image(bitmap, data, inodes), owner) <==> old(inodes[rootino].size) % BSIZE != 0)
    {
      hide Owned, NoHoles, Slot;
      ghost var im := Img();
      SoundAt(g, im, owner, rootino);
      RoundingHoles(g, im, owner, rootino);
      RoundingOthers(g, im, owner, rootino);
      inodes := inodes[rootino := inodes[rootino].(size := RoundUp(inodes[rootino].size))];
      assert Img() == Resized(im, rootino, RoundUp(im.inodes[rootino].size));
      bitmap, ok := Balloc(freeblock);
    }
  }

  lemma RoundingOthers(g: Geometry, im: Image, owner: Owner, i: nat)
    requires Sound(g, im, owner) && i < g.ninodes
    ensures var r := Resized(im, i, RoundUp(im.inodes[i].size));
      && Owned(g, r, owner) && forall x: nat :: x < g.ninodes && x != i ==> NoHoles(g, r, x)
  {
    var size := RoundUp(im.inodes[i].size);
    var r := Resized(im, i, size);
    ResizedSlot(g, im, owner, i, size);
    forall x: nat | x < g.ninodes && x != i ensures NoHoles(g, r, x) {
      assert NoHoles(g, im, x) && SlotsKept(g, im, r, x);
      KeptHolds(g, im, r, x, NBlocks(im.inodes[x].size));
    }
  }

  /** A block that a slot holds is in use. */
  lemma InUse(g: Geometry, im: Image, owner: Owner, i: nat, bn: nat)
    requires Owned(g, im, owner) && i < g.ninodes && bn < MAXFILE && Addr(g, im, i, bn) != 0
    ensures Addr(g, im, i, bn) < g.size && im.bitmap[Addr(g, im, i, bn)]
  {
    assert SlotOk(g, im, owner, i, DataSlot(bn));
    assert BitOk(g, im, owner, Addr(g, im, i, bn));
  }

  lemma IndirectUsed(g: Geometry, im: Image, owner: Owner, i: nat)
    requires Owned(g, im, owner) && i < g.ninodes && im.inodes[i].addrs[NDIRECT] != 0
    ensures im.inodes[i].addrs[NDIRECT] < g.size && im.bitmap[im.inodes[i].addrs[NDIRECT]]
  {
    assert SlotOk(g, im, owner, i, NDIRECT);
    assert BitOk(g, im, owner, im.inodes[i].addrs[NDIRECT]);
  }

  /** The write so far, seen as a write of one piece more. */
  lemma AppendFacts(g: Geometry, im: Image, r: Image, owner: Owner, i: nat, off: nat, p: seq<Byte>, tot: nat, nb: nat)
    requires tot < |p| && Writing(g, im, r, owner, i, off, p[..tot], tot, nb) && (off + tot) / BSIZE < MAXFILE
    ensures var m := Piece(off, p, tot);
      && off + tot + m <= MAXFILE * BSIZE
      && m == Piece(off, p[..tot + m], tot)
      && Writing(g, im, r, owner, i, off, p[..tot + m], tot, nb)
    ensures Owned(g, r, owner) && Shape(g, r) && Holds(g, r, i, nb) && (off + tot) / BSIZE <= nb
  {
    hide Owned, Holds, OthersKept, Addr, ByteAt;
    var m := Piece(off, p, tot);
    var s := p[..tot + m];
    OwnedShape(g, r, owner);
    AppendRoom(im.inodes[i].size, off, tot, m, nb);
    assert m == Piece(off, s, tot);
    forall q: nat | q < Max(im.inodes[i].size, off + tot) ensures ByteWritten(g, im, r, i, off, s, tot, q) {
      assert ByteWritten(g, im, r, i, off, p[..tot], tot, q);
    }
  }

  lemma WritingBlocks(g: Geometry, im: Image, r: Image, owner: Owner, i: nat, off: nat, p: seq<Byte>, tot: nat, nb: nat)
    requires tot <= |p| && Writing(g, im, r, owner, i, off, p[..tot], tot, nb) && off == im.inodes[i].size
    ensures nb == Max(NBlocks(off), NBlocks(off + tot)) && NBlocks(off) <= nb
    ensures forall nb': nat :: nb <= nb' ==>
      NewBlocks(NBlocks(off), nb) + NewBlocks(nb, nb') == NewBlocks(NBlocks(off), nb')
  {}

  lemma NothingNew(size: nat)
    ensures NewBlocks(NBlocks(size), NBlocks(size)) == 0
  {}

  lemma TooLong(off: nat, tot: nat, n: nat)
    requires (off + tot) / BSIZE >= MAXFILE && tot < n
    ensures off + n > MAXFILE * BSIZE
  {}

  lemma AppendRoom(size: nat, off: nat, tot: nat, m: nat, nb: nat)
    requires off <= size && (off + tot) / BSIZE < MAXFILE && nb == Max(NBlocks(size), NBlocks(off + tot))
    requires (off + tot) % BSIZE + m <= BSIZE
    ensures off + tot + m <= MAXFILE * BSIZE && (off + tot) / BSIZE <= nb
  {}

  lemma AppendDone(g: Geometry, im: Image, r: Image, owner: Owner, owner': Owner, i: nat, off: nat, p: seq<Byte>,
      nb: nat)
    requires Sound(g, im, owner) && i < g.ninodes && off == im.inodes[i].size
    requires Writing(g, im, r, owner', i, off, p, |p|, nb)
    ensures var q := Resized(r, i, off + |p|);
      && Sound(g, q, owner') && OthersKept(g, im, q, i) && q.inodes == im.inodes[i := q.inodes[i]]
      && FsModel.Contents(g, q, owner', i) == FsModel.Contents(g, im, owner, i) + p
      && q.inodes[i].typ == im.inodes[i].typ
  {
    assert NoHoles(g, im, i);
    WritingEnd(g, im, r, owner', i, off, p, nb);
    WritingContents(g, im, r, owner, owner', i, off, p, nb);
    OthersSound(g, im, Resized(r, i, off + |p|), owner, owner', i);
  }

  lemma EmptySound(g: Geometry, im: Image)
    requires GeoOk(g) && |im.data| == g.size && |im.inodes| == g.ninodes && im.bitmap == MapBelow(g.nmeta, g.size)
    requires forall b :: 0 <= b < g.size ==> im.data[b] == Zero()
    requires forall i :: 0 <= i < g.ninodes ==> im.inodes[i] == NoInode()
    ensures Sound(g, im, map[])
  {
    assert Shape(g, im);
    forall i: nat | i < g.ninodes ensures NoHoles(g, im, i) {
      forall bn: nat | bn < MAXFILE ensures BlockIn(g, im, i, bn, 0) {
      }
    }
  }

  /** An unused inode that gets a type is an empty file. */
  lemma FreshInode(g: Geometry, im: Image, r: Image, owner: Owner, i: nat)
    requires Sound(g, im, owner) && i < g.ninodes && im.inodes[i] == NoInode()
    requires |r.inodes| == g.ninodes && r == im.(inodes := im.inodes[i := r.inodes[i]])
    requires r.inodes[i].addrs == NoAddrs() && r.inodes[i].size == 0
    ensures Sound(g, r, owner) && OthersKept(g, im, r, i) && FsModel.Contents(g, r, owner, i) == []
  {
    assert Shape(g, r);
    forall x: nat, k: nat | x < g.ninodes && k < NSLOTS ensures SameSlot(g, im, r, x, k) && SlotOk(g, r, owner, x, k) {
      assert SlotOk(g, im, owner, x, k);
    }
    forall b | b in owner ensures OwnerOk(g, r, owner, b) {
      assert OwnerOk(g, im, owner, b);
      assert SameSlot(g, im, r, owner[b].0, owner[b].1);
    }
    forall b: nat | b < g.size ensures BitOk(g, r, owner, b) {
      assert BitOk(g, im, owner, b);
    }
    assert NoHoles(g, im, i);
    forall bn: nat | bn < MAXFILE ensures BlockIn(g, r, i, bn, 0) {
      assert SameSlot(g, im, r, i, DataSlot(bn));
    }
    KeptSame(g, im, r, owner, i);
    OthersSound(g, im, r, owner, owner, i);
  }

  ghost predicate SameSlot(g: Geometry, im: Image, r: Image, x: nat, k: nat)
    requires Shape(g, im) && Shape(g, r) && x < g.ninodes && k < NSLOTS
  {
    Slot(g, r, x, k) == Slot(g, im, x, k)
  }
}
