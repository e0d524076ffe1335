/**
 Blocks, inodes and block ownership of fs.c: which slot of which inode holds which block, and the byte
 sequence a file is.
 */
module FsModel {
  // fs.h with CS333_P5 and param.h
  const BSIZE := 512
  const NDIRECT := 10
  const NINDIRECT := BSIZE / 4
  const MAXFILE := NDIRECT + NINDIRECT
  const BPB := BSIZE * 8
  const IPB := 8

  type Byte = b: int | 0 <= b < 256
  type Block = seq<Byte>

  // Words of a block, little-endian as on the machine

  function Word(d: Block, j: nat): (w: nat)
    requires |d| == BSIZE && j < NINDIRECT
  {
    (d[4 * j] as int) + 0x100 * (d[4 * j + 1] as int) + 0x1_0000 * (d[4 * j + 2] as int)
      + 0x100_0000 * (d[4 * j + 3] as int)
  }

  function SetWord(d: Block, j: nat, w: nat): (r: Block)
    requires |d| == BSIZE && j < NINDIRECT && w < 0x1_0000_0000
    ensures |r| == BSIZE
  {
    d[4 * j := w % 0x100]
     [4 * j + 1 := w / 0x100 % 0x100]
     [4 * j + 2 := w / 0x1_0000 % 0x100]
     [4 * j + 3 := w / 0x100_0000]
  }

  lemma Bytes4(w: nat)
    requires w < 0x1_0000_0000
    ensures w == w % 0x100 + 0x100 * (w / 0x100 % 0x100) + 0x1_0000 * (w / 0x1_0000 % 0x100)
      + 0x100_0000 * (w / 0x100_0000)
  {
    var a, b := w / 0x100, w / 0x1_0000;
    assert b == a / 0x100;
    assert w / 0x100_0000 == b / 0x100;
  }

  lemma WordSet(d: Block, j: nat, w: nat, k: nat)
    requires |d| == BSIZE && j < NINDIRECT && k < NINDIRECT && w < 0x1_0000_0000
    ensures Word(SetWord(d, j, w), k) == if k == j then w else Word(d, k)
  {
    if k == j {
      Bytes4(w);
    }
  }

  function Zero(): (z: Block)
    ensures |z| == BSIZE
  {
    seq(BSIZE, i => 0)
  }

  // The image

  const T_DEV := 3

  /** struct dinode. */
  datatype Inode = Inode(
    typ: int, major: int, minor: int, nlink: int, uid: int, gid: int, mode: int, size: nat, addrs: seq<nat>)

  /** The free map, the block contents and the inodes. */
  datatype Image = Image(bitmap: seq<bool>, data: seq<Block>, inodes: seq<Inode>)

  /** From the superblock: number of blocks and inodes, metadata blocks, and where the tables start. */
  datatype Geometry = Geometry(size: nat, nmeta: nat, ninodes: nat, inodestart: nat, bmapstart: nat)

  ghost predicate GeoOk(g: Geometry) {
    && 0 < g.nmeta <= g.size < 0x1_0000_0000
    && g.inodestart + g.ninodes / IPB < g.bmapstart
    && g.bmapstart + g.size / BPB < g.nmeta
  }

  ghost predicate Shape(g: Geometry, im: Image) {
    && GeoOk(g)
    && |im.bitmap| == |im.data| == g.size
    && |im.inodes| == g.ninodes
    && (forall b :: 0 <= b < g.size ==> |im.data[b]| == BSIZE)
    && (forall i :: 0 <= i < g.ninodes ==> |im.inodes[i].addrs| == NDIRECT + 1)
  }

  // Slots: direct entries, then the indirect block, then its entries

  const NSLOTS := NDIRECT + 1 + NINDIRECT

  function Slot(g: Geometry, im: Image, i: nat, k: nat): (a: nat)
    requires Shape(g, im) && i < g.ninodes && k < NSLOTS
  {
    var ad := im.inodes[i].addrs;
    if k <= NDIRECT then ad[k]
    else if ad[NDIRECT] == 0 || ad[NDIRECT] >= g.size then 0
    else Word(im.data[ad[NDIRECT]], k - NDIRECT - 1)
  }

  /** The slot of the n-th block of a file. */
  function DataSlot(bn: nat): nat {
    if bn < NDIRECT then bn else bn + 1
  }

  type Owner = map<nat, (nat, nat)>

  ghost predicate SlotOk(g: Geometry, im: Image, owner: Owner, i: nat, k: nat)
    requires Shape(g, im) && i < g.ninodes && k < NSLOTS
  {
    var a := Slot(g, im, i, k);
    a != 0 ==> g.nmeta <= a < g.size && a in owner && owner[a] == (i, k)
  }

  ghost predicate OwnerOk(g: Geometry, im: Image, owner: Owner, b: nat)
    requires Shape(g, im) && b in owner
  {
    var (i, k) := owner[b];
    b != 0 && i < g.ninodes && k < NSLOTS && Slot(g, im, i, k) == b
  }

  ghost predicate BitOk(g: Geometry, im: Image, owner: Owner, b: nat)
    requires Shape(g, im) && b < g.size
  {
    im.bitmap[b] <==> b < g.nmeta || b in owner
  }

  /**
   Block ownership: a bit is set exactly for metadata and for blocks held by a slot, and no block is
   held by two slots.
   */
  ghost predicate Owned(g: Geometry, im: Image, owner: Owner) {
    && Shape(g, im)
    && (forall i: nat, k: nat :: i < g.ninodes && k < NSLOTS ==> SlotOk(g, im, owner, i, k))
    && (forall b :: b in owner ==> OwnerOk(g, im, owner, b))
    && (forall b: nat :: b < g.size ==> BitOk(g, im, owner, b))
  }

  /** No block is held twice. */
  lemma SlotsDisjoint(g: Geometry, im: Image, owner: Owner, i: nat, k: nat, i': nat, k': nat)
    requires Owned(g, im, owner) && i < g.ninodes && k < NSLOTS && i' < g.ninodes && k' < NSLOTS
    requires Slot(g, im, i, k) == Slot(g, im, i', k') != 0
    ensures i == i' && k == k'
  {
    assert SlotOk(g, im, owner, i, k) && SlotOk(g, im, owner, i', k');
  }

  /** Where an owned slot points. */
  lemma SlotRange(g: Geometry, im: Image, owner: Owner, i: nat, k: nat)
    requires Owned(g, im, owner) && i < g.ninodes && k < NSLOTS
    ensures Slot(g, im, i, k) != 0 ==> g.nmeta <= Slot(g, im, i, k) < g.size
  {
    assert SlotOk(g, im, owner, i, k);
  }

  // A fresh block put into an empty slot

  /** balloc zeroes the block; then the slot gets its number. */
  function AllocSlot(g: Geometry, im: Image, i: nat, k: nat, b: nat): (r: Image)
    requires Shape(g, im) && i < g.ninodes && k < NSLOTS && b < g.size
    requires k > NDIRECT ==> im.inodes[i].addrs[NDIRECT] < g.size
    ensures Shape(g, r)
  {
    var data := im.data[b := Zero()];
    var ad := im.inodes[i].addrs;
    if k <= NDIRECT then
      Image(im.bitmap[b := true], data, im.inodes[i := im.inodes[i].(addrs := ad[k := b])])
    else
      Image(im.bitmap[b := true], data[ad[NDIRECT] := SetWord(data[ad[NDIRECT]], k - NDIRECT - 1, b)], im.inodes)
  }

  ghost predicate CanAlloc(g: Geometry, im: Image, owner: Owner, i: nat, k: nat, b: nat) {
    && Owned(g, im, owner) && i < g.ninodes && k < NSLOTS && b < g.size
    && !im.bitmap[b]
    && Slot(g, im, i, k) == 0
    && (k > NDIRECT ==> im.inodes[i].addrs[NDIRECT] != 0)
  }

  /** A free block is in no slot. */
  lemma FreeUnowned(g: Geometry, im: Image, owner: Owner, b: nat)
    requires Owned(g, im, owner) && b < g.size && !im.bitmap[b]
    ensures b >= g.nmeta && b !in owner
    ensures forall i: nat, k: nat :: i < g.ninodes && k < NSLOTS ==> Slot(g, im, i, k) != b
  {
    assert BitOk(g, im, owner, b);
    forall i: nat, k: nat | i < g.ninodes && k < NSLOTS ensures Slot(g, im, i, k) != b {
      assert SlotOk(g, im, owner, i, k);
    }
  }

  lemma AllocSlotAt(g: Geometry, im: Image, owner: Owner, i: nat, k: nat, b: nat, i': nat, k': nat)
    requires CanAlloc(g, im, owner, i, k, b) && i' < g.ninodes && k' < NSLOTS
    requires k > NDIRECT ==> im.inodes[i].addrs[NDIRECT] < g.size
    ensures Slot(g, AllocSlot(g, im, i, k, b), i', k') == if i' == i && k' == k then b else Slot(g, im, i', k')
  {
    FreeUnowned(g, im, owner, b);
    var ind, ind' := im.inodes[i].addrs[NDIRECT], im.inodes[i'].addrs[NDIRECT];
    assert ind == Slot(g, im, i, NDIRECT) && ind' == Slot(g, im, i', NDIRECT);
    SlotRange(g, im, owner, i', NDIRECT);
    if k' > NDIRECT {
      if k > NDIRECT {
        if ind == ind' {
          SlotsDisjoint(g, im, owner, i, NDIRECT, i', NDIRECT);
          WordSet(im.data[ind], k - NDIRECT - 1, b, k' - NDIRECT - 1);
        }
      } else if k == NDIRECT && i' == i {
        assert Word(Zero(), k' - NDIRECT - 1) == 0;
      }
    }
  }

  lemma AllocOwned(g: Geometry, im: Image, owner: Owner, i: nat, k: nat, b: nat)
    requires CanAlloc(g, im, owner, i, k, b)
    ensures k > NDIRECT ==> im.inodes[i].addrs[NDIRECT] < g.size
    ensures Owned(g, AllocSlot(g, im, i, k, b), owner[b := (i, k)])
  {
    SlotRange(g, im, owner, i, NDIRECT);
    assert im.inodes[i].addrs[NDIRECT] == Slot(g, im, i, NDIRECT);
    FreeUnowned(g, im, owner, b);
    var r, owner' := AllocSlot(g, im, i, k, b), owner[b := (i, k)];
    forall i': nat, k': nat | i' < g.ninodes && k' < NSLOTS ensures SlotOk(g, r, owner', i', k') {
      assert SlotOk(g, im, owner, i', k');
      AllocSlotAt(g, im, owner, i, k, b, i', k');
    }
    forall x | x in owner' ensures OwnerOk(g, r, owner', x) {
      if x == b {
        AllocSlotAt(g, im, owner, i, k, b, i, k);
      } else {
        assert OwnerOk(g, im, owner, x);
        AllocSlotAt(g, im, owner, i, k, b, owner[x].0, owner[x].1);
      }
    }
    forall x: nat | x < g.size ensures BitOk(g, r, owner', x) {
      assert BitOk(g, im, owner, x);
    }
  }

  // Overwriting a data block

  function PutData(im: Image, a: nat, v: Block): Image
    requires a < |im.data|
  {
    im.(data := im.data[a := v])
  }

  lemma PutDataSlot(g: Geometry, im: Image, owner: Owner, i: nat, k: nat, v: Block, i': nat, k': nat)
    requires Owned(g, im, owner) && i < g.ninodes && k < NSLOTS && k != NDIRECT && |v| == BSIZE
    requires 0 < Slot(g, im, i, k) < g.size && i' < g.ninodes && k' < NSLOTS
    ensures Shape(g, PutData(im, Slot(g, im, i, k), v))
    ensures Slot(g, PutData(im, Slot(g, im, i, k), v), i', k') == Slot(g, im, i', k')
  {
    assert im.inodes[i'].addrs[NDIRECT] == Slot(g, im, i', NDIRECT);
    if im.inodes[i'].addrs[NDIRECT] == Slot(g, im, i, k) {
      SlotsDisjoint(g, im, owner, i, k, i', NDIRECT);
    }
  }

  lemma PutDataOwned(g: Geometry, im: Image, owner: Owner, i: nat, k: nat, v: Block)
    requires Owned(g, im, owner) && i < g.ninodes && k < NSLOTS && k != NDIRECT && |v| == BSIZE
    requires 0 < Slot(g, im, i, k) < g.size
    ensures Owned(g, PutData(im, Slot(g, im, i, k), v), owner)
  {
    var r := PutData(im, Slot(g, im, i, k), v);
    forall i': nat, k': nat | i' < g.ninodes && k' < NSLOTS ensures SlotOk(g, r, owner, i', k') {
      assert SlotOk(g, im, owner, i', k');
      PutDataSlot(g, im, owner, i, k, v, i', k');
    }
    forall x | x in owner ensures OwnerOk(g, r, owner, x) {
      assert OwnerOk(g, im, owner, x);
      PutDataSlot(g, im, owner, i, k, v, owner[x].0, owner[x].1);
    }
    forall x: nat | x < g.size ensures BitOk(g, r, owner, x) {
      assert BitOk(g, im, owner, x);
    }
  }

  // Files

  function NBlocks(n: nat): nat {
    (n + BSIZE - 1) / BSIZE
  }

  function Addr(g: Geometry, im: Image, i: nat, bn: nat): nat
    requires Shape(g, im) && i < g.ninodes && bn < MAXFILE
  {
    Slot(g, im, i, DataSlot(bn))
  }

  ghost predicate BlockIn(g: Geometry, im: Image, i: nat, bn: nat, nb: nat)
    requires Shape(g, im) && i < g.ninodes && bn < MAXFILE
  {
    Addr(g, im, i, bn) != 0 <==> bn < nb
  }

  /** The inode holds exactly its first `nb` blocks, and an indirect block exactly if they need one. */
  ghost predicate Holds(g: Geometry, im: Image, i: nat, nb: nat)
    requires Shape(g, im) && i < g.ninodes
  {
    && nb <= MAXFILE
    && (im.inodes[i].addrs[NDIRECT] != 0 <==> nb > NDIRECT)
    && forall bn: nat :: bn < MAXFILE ==> BlockIn(g, im, i, bn, nb)
  }

  /** No holes: exactly the blocks below the size are there. */
  ghost predicate NoHoles(g: Geometry, im: Image, i: nat)
    requires Shape(g, im) && i < g.ninodes
  {
    im.inodes[i].size <= MAXFILE * BSIZE && Holds(g, im, i, NBlocks(im.inodes[i].size))
  }

  ghost predicate Sound(g: Geometry, im: Image, owner: Owner) {
    Owned(g, im, owner) && forall i: nat :: i < g.ninodes ==> NoHoles(g, im, i)
  }

  /** The p-th byte of a file. */
  function ByteAt(g: Geometry, im: Image, i: nat, p: nat): Byte
    requires Shape(g, im) && i < g.ninodes && p / BSIZE < MAXFILE && Addr(g, im, i, p / BSIZE) < g.size
  {
    im.data[Addr(g, im, i, p / BSIZE)][p % BSIZE]
  }

  lemma ByteThere(g: Geometry, im: Image, owner: Owner, i: nat, nb: nat, p: nat)
    requires Owned(g, im, owner) && i < g.ninodes && Holds(g, im, i, nb) && p < nb * BSIZE
    ensures p / BSIZE < nb <= MAXFILE && 0 < Addr(g, im, i, p / BSIZE) < g.size
  {
    assert BlockIn(g, im, i, p / BSIZE, nb);
    SlotRange(g, im, owner, i, DataSlot(p / BSIZE));
  }

  lemma SizeInBlocks(n: nat, p: nat)
    requires p < n
    ensures p < NBlocks(n) * BSIZE
  {}

  /** The file as a byte sequence. */
  ghost function Contents(g: Geometry, im: Image, owner: Owner, i: nat): (c: seq<Byte>)
    requires Owned(g, im, owner) && i < g.ninodes && NoHoles(g, im, i)
    ensures |c| == im.inodes[i].size
  {
    seq(im.inodes[i].size, p requires 0 <= p < im.inodes[i].size =>
      SizeInBlocks(im.inodes[i].size, p);
      ByteThere(g, im, owner, i, NBlocks(im.inodes[i].size), p);
      ByteAt(g, im, i, p))
  }

  lemma ContentsByte(g: Geometry, im: Image, owner: Owner, i: nat, p: nat)
    requires Owned(g, im, owner) && i < g.ninodes && NoHoles(g, im, i) && p < im.inodes[i].size
    ensures p / BSIZE < NBlocks(im.inodes[i].size) <= MAXFILE && 0 < Addr(g, im, i, p / BSIZE) < g.size
    ensures Contents(g, im, owner, i)[p] == ByteAt(g, im, i, p)
  {
    SizeInBlocks(im.inodes[i].size, p);
    ByteThere(g, im, owner, i, NBlocks(im.inodes[i].size), p);
  }

  lemma OwnedShape(g: Geometry, im: Image, owner: Owner)
    requires Owned(g, im, owner)
    ensures Shape(g, im)
  {}
}
