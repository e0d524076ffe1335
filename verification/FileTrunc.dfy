/**
 Truncation and reading: what itrunc gives back, and that a file read block by block is the file's
 byte sequence.
 */
module FileTrunc {
  import opened FsModel
  import opened FileBlocks

  /** Every block of the file is free, the rest of the map is as it was. */
  ghost function MapWithout(im: Image, freed: set<nat>): (m: seq<bool>)
    ensures |m| == |im.bitmap|
  {
    seq(|im.bitmap|, b requires 0 <= b < |im.bitmap| => im.bitmap[b] && b !in freed)
  }

  ghost function BlocksOf(owner: Owner, i: nat): set<nat> {
    set b | b in owner && owner[b].0 == i
  }

  function NoAddrs(): (a: seq<nat>)
    ensures |a| == NDIRECT + 1 && forall k :: 0 <= k <= NDIRECT ==> a[k] == 0
  {
    seq(NDIRECT + 1, k => 0)
  }

  function Emptied(ino: Inode): Inode {
    ino.(addrs := NoAddrs(), size := 0)
  }

  ghost function Truncated(im: Image, owner: Owner, i: nat): Image
    requires i < |im.inodes|
  {
    Image(MapWithout(im, BlocksOf(owner, i)), im.data, im.inodes[i := Emptied(im.inodes[i])])
  }

  ghost function OwnersBut(owner: Owner, i: nat): Owner {
    map b | b in owner && owner[b].0 != i :: owner[b]
  }

  lemma TruncatedSlots(g: Geometry, im: Image, owner: Owner, i: nat, x: nat, k: nat)
    requires Shape(g, im) && i < g.ninodes && x < g.ninodes && k < NSLOTS
    ensures Shape(g, Truncated(im, owner, i))
    ensures Slot(g, Truncated(im, owner, i), x, k) == if x == i then 0 else Slot(g, im, x, k)
  {}

  lemma TruncatedOwned(g: Geometry, im: Image, owner: Owner, i: nat)
    requires Owned(g, im, owner) && i < g.ninodes
    ensures Owned(g, Truncated(im, owner, i), OwnersBut(owner, i))
  {
    var r, owner' := Truncated(im, owner, i), OwnersBut(owner, i);
    TruncatedSlots(g, im, owner, i, i, 0);
    forall x: nat, k: nat | x < g.ninodes && k < NSLOTS ensures SlotOk(g, r, owner', x, k) {
      TruncatedSlots(g, im, owner, i, x, k);
      assert SlotOk(g, im, owner, x, k);
    }
    forall b | b in owner' ensures OwnerOk(g, r, owner', b) {
      assert OwnerOk(g, im, owner, b);
      TruncatedSlots(g, im, owner, i, owner[b].0, owner[b].1);
    }
    forall b: nat | b < g.size ensures BitOk(g, r, owner', b) {
      TruncatedBit(g, im, owner, i, b);
    }
  }

  lemma TruncatedBit(g: Geometry, im: Image, owner: Owner, i: nat, b: nat)
    requires Owned(g, im, owner) && i < g.ninodes && b < g.size
    ensures Shape(g, Truncated(im, owner, i)) && BitOk(g, Truncated(im, owner, i), OwnersBut(owner, i), b)
  {
    TruncatedSlots(g, im, owner, i, i, 0);
    assert BitOk(g, im, owner, b);
    if b in owner {
      assert OwnerOk(g, im, owner, b);
      assert SlotOk(g, im, owner, owner[b].0, owner[b].1);
    }
  }

  /** The file is empty, and no other file is touched. */
  lemma TruncatedFiles(g: Geometry, im: Image, owner: Owner, i: nat)
    requires Owned(g, im, owner) && i < g.ninodes
    ensures Shape(g, Truncated(im, owner, i))
    ensures NoHoles(g, Truncated(im, owner, i), i)
    ensures OthersKept(g, im, Truncated(im, owner, i), i)
  {
    var r := Truncated(im, owner, i);
    TruncatedSlots(g, im, owner, i, i, 0);
    forall bn: nat | bn < MAXFILE ensures BlockIn(g, r, i, bn, 0) {
      TruncatedSlots(g, im, owner, i, i, DataSlot(bn));
    }
    forall x: nat | x < g.ninodes && x != i
      ensures r.inodes[x] == im.inodes[x] && SlotsKept(g, im, r, x) && FileKept(g, im, r, x)
    {
      forall k: nat | k < NSLOTS ensures Slot(g, r, x, k) == Slot(g, im, x, k) {
        TruncatedSlots(g, im, owner, i, x, k);
      }
      forall bn: nat | bn < MAXFILE ensures BlockKept(g, im, r, x, bn) {
        TruncatedSlots(g, im, owner, i, x, DataSlot(bn));
        SlotRange(g, im, owner, x, DataSlot(bn));
      }
    }
  }

  // The loops of itrunc

  /** The block is in one of the first `d` direct slots or the first `e` entries of the indirect block. */
  ghost predicate Gone(owner: Owner, i: nat, d: nat, e: nat, b: nat) {
    b in owner && owner[b].0 == i && (owner[b].1 < d || NDIRECT < owner[b].1 <= NDIRECT + e)
  }

  ghost predicate FreedTo(im: Image, bitmap: seq<bool>, owner: Owner, i: nat, d: nat, e: nat, freed: set<nat>) {
    && bitmap == MapWithout(im, freed)
    && forall b :: b in freed <==> Gone(owner, i, d, e, b)
  }

  /** The map blocks with the bits of some blocks. */
  ghost function MapBlocks(g: Geometry, s: set<nat>): set<nat> {
    set b | b in s :: BBlock(g, b)
  }

  lemma MapBlocksAdd(g: Geometry, s: set<nat>, b: nat)
    ensures MapBlocks(g, s + {b}) == MapBlocks(g, s) + {BBlock(g, b)}
  {}

  /** The slot after those done so far: if it is in use, its block is still marked so. */
  lemma NextSlot(g: Geometry, im: Image, bitmap: seq<bool>, owner: Owner, i: nat, d: nat, e: nat, freed: set<nat>,
      k: nat)
    requires Owned(g, im, owner) && i < g.ninodes && FreedTo(im, bitmap, owner, i, d, e, freed)
    requires k < NSLOTS && k >= d && !(NDIRECT < k <= NDIRECT + e)
    ensures var a := Slot(g, im, i, k);
      && (a != 0 ==> a < g.size && a < |bitmap| && bitmap[a] && a !in freed)
      && InSlot(owner, i, k, a)
    ensures bitmap == MapWithout(im, freed)
  {
    assert SlotOk(g, im, owner, i, k);
    var a := Slot(g, im, i, k);
    forall b | b in owner && owner[b] == (i, k) ensures b == a && a != 0 {
      assert OwnerOk(g, im, owner, b);
    }
    if a != 0 {
      assert OwnerOk(g, im, owner, a) && BitOk(g, im, owner, a);
    }
  }

  /** The slot holds block `a`, or nothing if that is 0. */
  ghost predicate InSlot(owner: Owner, i: nat, k: nat, a: nat) {
    forall b :: b in owner && owner[b] == (i, k) <==> b == a && a != 0
  }

  lemma FreedStep(im: Image, bitmap: seq<bool>, bitmap': seq<bool>, owner: Owner, i: nat, d: nat, e: nat, d': nat,
      e': nat, freed: set<nat>, freed': set<nat>, k: nat, a: nat)
    requires FreedTo(im, bitmap, owner, i, d, e, freed) && InSlot(owner, i, k, a)
    requires || (d' == d + 1 <= NDIRECT && e' == e && k == d)
             || (d' == d && e' == e + 1 && k == NDIRECT + 1 + e)
    requires if a == 0 then freed' == freed && bitmap' == bitmap
      else freed' == freed + {a} && bitmap' == MapWithout(im, freed')
    ensures FreedTo(im, bitmap', owner, i, d', e', freed')
  {
    forall b ensures b in freed' <==> Gone(owner, i, d', e', b) {
      assert b in freed <==> Gone(owner, i, d, e, b);
    }
  }

  lemma FreedOne(im: Image, bitmap: seq<bool>, freed: set<nat>, a: nat)
    requires bitmap == MapWithout(im, freed) && a < |bitmap|
    ensures bitmap[a := false] == MapWithout(im, freed + {a})
  {}

  lemma FreeCountClear(bitmap: seq<bool>, n: nat, b: nat)
    requires b < n <= |bitmap| && bitmap[b]
    ensures FreeCount(bitmap[b := false], n) == FreeCount(bitmap, n) + 1
  {
    FreeCountSet(bitmap[b := false], n, b);
    assert bitmap[b := false][b := true] == bitmap;
  }

  /** The whole file is gone when all slots are. */
  lemma AllGone(g: Geometry, im: Image, owner: Owner, i: nat, freed: set<nat>, ind: nat)
    requires Owned(g, im, owner) && i < g.ninodes && ind == im.inodes[i].addrs[NDIRECT]
    requires forall b :: b in freed <==> Gone(owner, i, NDIRECT, if ind == 0 then 0 else NINDIRECT, b)
    ensures BlocksOf(owner, i) == freed + (if ind == 0 then {} else {ind})
  {
    assert Slot(g, im, i, NDIRECT) == ind && SlotOk(g, im, owner, i, NDIRECT);
    forall b | b in owner && owner[b].0 == i && b !in freed
      ensures ind != 0 && b == ind
    {
      assert OwnerOk(g, im, owner, b);
      assert Slot(g, im, i, owner[b].1) == b;
    }
    forall b | b in freed ensures b in owner && owner[b].0 == i {
      assert Gone(owner, i, NDIRECT, if ind == 0 then 0 else NINDIRECT, b);
    }
  }

  lemma {:induction false} AddrInSet(g: Geometry, im: Image, i: nat, hi: nat, bn: nat)
    requires Shape(g, im) && i < g.ninodes && bn < hi <= MAXFILE
    ensures Addr(g, im, i, bn) in AddrSet(g, im, i, 0, hi)
    decreases hi
  {
    if bn < hi - 1 {
      AddrInSet(g, im, i, hi - 1, bn);
    }
  }

  /** A file holds as many blocks as its size needs, counting the indirect block. */
  lemma BlocksHeld(g: Geometry, im: Image, owner: Owner, i: nat)
    requires Owned(g, im, owner) && i < g.ninodes && NoHoles(g, im, i)
    ensures |BlocksOf(owner, i)| == NewBlocks(0, NBlocks(im.inodes[i].size))
  {
    var nb, ind := NBlocks(im.inodes[i].size), im.inodes[i].addrs[NDIRECT];
    hide NBlocks, Slot;
    AddrSetSize(g, im, owner, i, nb, 0, nb);
    var a := AddrSet(g, im, i, 0, nb);
    var s: set<nat> := if ind == 0 then {} else {ind};
    IndirectSlot(g, im, i);
    assert SlotOk(g, im, owner, i, NDIRECT);
    forall b | b in a ensures b in BlocksOf(owner, i) && b !in s {
      AddrMember(g, im, owner, i, nb, 0, nb, b);
    }
    forall b | b in BlocksOf(owner, i) ensures b in a + s {
      HeldSlot(g, im, owner, i, nb, b);
    }
    assert BlocksOf(owner, i) == a + s && a !! s;
  }

  lemma IndirectSlot(g: Geometry, im: Image, i: nat)
    requires Shape(g, im) && i < g.ninodes
    ensures Slot(g, im, i, NDIRECT) == im.inodes[i].addrs[NDIRECT]
  {}

  lemma HeldSlot(g: Geometry, im: Image, owner: Owner, i: nat, nb: nat, b: nat)
    requires Owned(g, im, owner) && i < g.ninodes && Holds(g, im, i, nb) && b in owner && owner[b].0 == i
    ensures b in AddrSet(g, im, i, 0, nb) || b == im.inodes[i].addrs[NDIRECT] != 0
  {
    assert OwnerOk(g, im, owner, b);
    var k := owner[b].1;
    if k != NDIRECT {
      var bn := if k < NDIRECT then k else k - 1;
      assert DataSlot(bn) == k;
      assert BlockIn(g, im, i, bn, nb);
      AddrInSet(g, im, i, nb, bn);
    }
  }

  // Reading

  lemma InBlock(p: nat, q: nat)
    requires p <= q && p % BSIZE + (q - p) < BSIZE
    ensures q / BSIZE == p / BSIZE && q % BSIZE == p % BSIZE + (q - p)
  {}

  /** Bytes next to each other in a block are next to each other in the file. */
  lemma ReadPiece(g: Geometry, im: Image, owner: Owner, i: nat, p: nat, m: nat)
    requires Owned(g, im, owner) && i < g.ninodes && NoHoles(g, im, i)
    requires 0 < m && p + m <= im.inodes[i].size && p % BSIZE + m <= BSIZE
    ensures p / BSIZE < NBlocks(im.inodes[i].size) <= MAXFILE && 0 < Addr(g, im, i, p / BSIZE) < g.size
    ensures im.data[Addr(g, im, i, p / BSIZE)][p % BSIZE..p % BSIZE + m] == Contents(g, im, owner, i)[p..p + m]
  {
    hide Owned, NoHoles, NBlocks, Addr, Contents;
    ContentsByte(g, im, owner, i, p);
    OwnedShape(g, im, owner);
    var d, c := im.data[Addr(g, im, i, p / BSIZE)], Contents(g, im, owner, i);
    forall q | p <= q < p + m ensures c[q] == d[p % BSIZE + (q - p)] {
      ContentsByte(g, im, owner, i, q);
      InBlock(p, q);
    }
  }
}
