/**
 What allocating and writing blocks does to the files: their byte sequences change only where they
 are written.
 */
module FileBlocks {
  import opened FsModel

  /** A file block that was there is still there, with the same contents. */
  ghost predicate BlockKept(g: Geometry, im: Image, r: Image, i: nat, bn: nat)
    requires Shape(g, im) && Shape(g, r) && i < g.ninodes && bn < MAXFILE
  {
    var a := Addr(g, im, i, bn);
    a != 0 ==> Addr(g, r, i, bn) == a && a < g.size && r.data[a] == im.data[a]
  }

  ghost predicate FileKept(g: Geometry, im: Image, r: Image, i: nat)
    requires Shape(g, im) && Shape(g, r) && i < g.ninodes
  {
    forall bn: nat :: bn < MAXFILE ==> BlockKept(g, im, r, i, bn)
  }

  /** Every other file keeps its inode and its blocks. */
  ghost predicate OthersKept(g: Geometry, im: Image, r: Image, i: nat)
    requires Shape(g, im) && Shape(g, r)
  {
    forall x: nat :: x < g.ninodes && x != i ==>
      r.inodes[x] == im.inodes[x] && SlotsKept(g, im, r, x) && FileKept(g, im, r, x)
  }

  ghost predicate SlotsKept(g: Geometry, im: Image, r: Image, i: nat)
    requires Shape(g, im) && Shape(g, r) && i < g.ninodes
  {
    forall k: nat :: k < NSLOTS ==> Slot(g, r, i, k) == Slot(g, im, i, k)
  }

  lemma KeptTrans(g: Geometry, a: Image, b: Image, c: Image, i: nat)
    requires Shape(g, a) && Shape(g, b) && Shape(g, c) && i < g.ninodes && FileKept(g, a, b, i) && FileKept(g, b, c, i)
    ensures FileKept(g, a, c, i)
  {
    forall bn: nat | bn < MAXFILE ensures BlockKept(g, a, c, i, bn) {
      assert BlockKept(g, a, b, i, bn) && BlockKept(g, b, c, i, bn);
    }
  }

  lemma OthersTrans(g: Geometry, a: Image, b: Image, c: Image, i: nat)
    requires Shape(g, a) && Shape(g, b) && Shape(g, c) && OthersKept(g, a, b, i) && OthersKept(g, b, c, i)
    ensures OthersKept(g, a, c, i)
  {
    forall x: nat | x < g.ninodes && x != i
      ensures c.inodes[x] == a.inodes[x] && SlotsKept(g, a, c, x) && FileKept(g, a, c, x)
    {
      KeptTrans(g, a, b, c, x);
      assert SlotsKept(g, a, b, x) && SlotsKept(g, b, c, x);
      forall k: nat | k < NSLOTS ensures Slot(g, c, x, k) == Slot(g, a, x, k) {
        assert Slot(g, b, x, k) == Slot(g, a, x, k);
      }
    }
  }

  // Allocation

  lemma AllocBlockKept(g: Geometry, im: Image, owner: Owner, i: nat, k: nat, b: nat, x: nat, bn: nat)
    requires CanAlloc(g, im, owner, i, k, b) && x < g.ninodes && bn < MAXFILE
    requires k > NDIRECT ==> im.inodes[i].addrs[NDIRECT] < g.size
    ensures BlockKept(g, im, AllocSlot(g, im, i, k, b), x, bn)
  {
    FreeUnowned(g, im, owner, b);
    AllocSlotAt(g, im, owner, i, k, b, x, DataSlot(bn));
    var a := Addr(g, im, x, bn);
    SlotRange(g, im, owner, x, DataSlot(bn));
    if a != 0 && k > NDIRECT && a == im.inodes[i].addrs[NDIRECT] {
      assert a == Slot(g, im, i, NDIRECT);
      SlotsDisjoint(g, im, owner, x, DataSlot(bn), i, NDIRECT);
    }
  }

  lemma AllocKept(g: Geometry, im: Image, owner: Owner, i: nat, k: nat, b: nat)
    requires CanAlloc(g, im, owner, i, k, b)
    requires k > NDIRECT ==> im.inodes[i].addrs[NDIRECT] < g.size
    ensures FileKept(g, im, AllocSlot(g, im, i, k, b), i)
    ensures OthersKept(g, im, AllocSlot(g, im, i, k, b), i)
  {
    var r := AllocSlot(g, im, i, k, b);
    forall x: nat | x < g.ninodes ensures FileKept(g, im, r, x) && (x != i ==> SlotsKept(g, im, r, x)) {
      forall bn: nat | bn < MAXFILE ensures BlockKept(g, im, r, x, bn) {
        AllocBlockKept(g, im, owner, i, k, b, x, bn);
      }
      if x != i {
        forall s: nat | s < NSLOTS ensures Slot(g, r, x, s) == Slot(g, im, x, s) {
          AllocSlotAt(g, im, owner, i, k, b, x, s);
        }
      }
    }
  }

  /** The next block of a file: only that block is added to what the inode holds. */
  lemma AllocHolds(g: Geometry, im: Image, owner: Owner, i: nat, nb: nat, b: nat)
    requires i < g.ninodes && nb < MAXFILE && CanAlloc(g, im, owner, i, DataSlot(nb), b)
    requires forall bn: nat :: bn < MAXFILE ==> BlockIn(g, im, i, bn, nb)
    requires nb >= NDIRECT ==> im.inodes[i].addrs[NDIRECT] < g.size
    requires nb < NDIRECT ==> im.inodes[i].addrs[NDIRECT] == 0
    ensures Holds(g, AllocSlot(g, im, i, DataSlot(nb), b), i, nb + 1)
    ensures Addr(g, AllocSlot(g, im, i, DataSlot(nb), b), i, nb) == b
  {
    FreeUnowned(g, im, owner, b);
    var r := AllocSlot(g, im, i, DataSlot(nb), b);
    var nb1 := nb + 1;
    forall bn: nat | bn < MAXFILE ensures BlockIn(g, r, i, bn, nb1) {
      assert BlockIn(g, im, i, bn, nb);
      AllocSlotAt(g, im, owner, i, DataSlot(nb), b, i, DataSlot(bn));
    }
    AllocSlotAt(g, im, owner, i, DataSlot(nb), b, i, DataSlot(nb));
    AllocSlotAt(g, im, owner, i, DataSlot(nb), b, i, NDIRECT);
  }

  /** The indirect block itself: no file block changes. */
  lemma AllocIndirect(g: Geometry, im: Image, owner: Owner, i: nat, b: nat)
    requires i < g.ninodes && CanAlloc(g, im, owner, i, NDIRECT, b) && Holds(g, im, i, NDIRECT)
    ensures var r := AllocSlot(g, im, i, NDIRECT, b);
      && r.inodes[i].addrs[NDIRECT] == b != 0
      && Slot(g, r, i, DataSlot(NDIRECT)) == 0
      && forall bn: nat :: bn < MAXFILE ==> BlockIn(g, r, i, bn, NDIRECT)
  {
    FreeUnowned(g, im, owner, b);
    var r := AllocSlot(g, im, i, NDIRECT, b);
    forall bn: nat | bn < MAXFILE ensures BlockIn(g, r, i, bn, NDIRECT) {
      assert BlockIn(g, im, i, bn, NDIRECT);
      AllocSlotAt(g, im, owner, i, NDIRECT, b, i, DataSlot(bn));
    }
    assert BlockIn(g, r, i, NDIRECT, NDIRECT);
  }

  lemma KeptHolds(g: Geometry, im: Image, r: Image, i: nat, nb: nat)
    requires Shape(g, im) && Shape(g, r) && i < g.ninodes && SlotsKept(g, im, r, i) && Holds(g, im, i, nb)
    ensures Holds(g, r, i, nb)
  {
    assert Slot(g, r, i, NDIRECT) == Slot(g, im, i, NDIRECT);
    forall bn: nat | bn < MAXFILE ensures BlockIn(g, r, i, bn, nb) {
      assert BlockIn(g, im, i, bn, nb);
      assert Slot(g, r, i, DataSlot(bn)) == Slot(g, im, i, DataSlot(bn));
    }
  }

  // Writing into a block

  function Patch(d: Block, o: nat, s: seq<Byte>): (r: Block)
    requires |d| == BSIZE && o + |s| <= BSIZE
    ensures |r| == BSIZE
  {
    d[..o] + s + d[o + |s|..]
  }

  /** The image after writing `s` at offset `o` of the bn-th block. */
  function PatchBlock(g: Geometry, im: Image, i: nat, bn: nat, o: nat, s: seq<Byte>): Image
    requires Shape(g, im) && i < g.ninodes && bn < MAXFILE && o + |s| <= BSIZE && Addr(g, im, i, bn) < g.size
  {
    PutData(im, Addr(g, im, i, bn), Patch(im.data[Addr(g, im, i, bn)], o, s))
  }

  lemma PatchOwned(g: Geometry, im: Image, owner: Owner, i: nat, bn: nat, o: nat, s: seq<Byte>)
    requires Owned(g, im, owner) && i < g.ninodes && bn < MAXFILE && o + |s| <= BSIZE
    requires 0 < Addr(g, im, i, bn) < g.size
    ensures Owned(g, PatchBlock(g, im, i, bn, o, s), owner)
    ensures forall x: nat :: x < g.ninodes ==> SlotsKept(g, im, PatchBlock(g, im, i, bn, o, s), x)
    ensures OthersKept(g, im, PatchBlock(g, im, i, bn, o, s), i)
  {
    var v := Patch(im.data[Addr(g, im, i, bn)], o, s);
    PutDataOwned(g, im, owner, i, DataSlot(bn), v);
    var r := PatchBlock(g, im, i, bn, o, s);
    forall x: nat | x < g.ninodes ensures SlotsKept(g, im, r, x) {
      forall k: nat | k < NSLOTS ensures Slot(g, r, x, k) == Slot(g, im, x, k) {
        PutDataSlot(g, im, owner, i, DataSlot(bn), v, x, k);
      }
    }
    forall x: nat | x < g.ninodes && x != i ensures r.inodes[x] == im.inodes[x] && SlotsKept(g, im, r, x)
        && FileKept(g, im, r, x) {
      forall c: nat | c < MAXFILE ensures BlockKept(g, im, r, x, c) {
        PutDataSlot(g, im, owner, i, DataSlot(bn), v, x, DataSlot(c));
        SlotRange(g, im, owner, x, DataSlot(c));
        if Addr(g, im, x, c) == Addr(g, im, i, bn) {
          SlotsDisjoint(g, im, owner, x, DataSlot(c), i, DataSlot(bn));
        }
      }
    }
  }

  /** Byte by byte: the patched range has the new bytes, everything else the old ones. */
  lemma PatchByte(g: Geometry, im: Image, owner: Owner, i: nat, nb: nat, bn: nat, o: nat, s: seq<Byte>, p: nat)
    requires Owned(g, im, owner) && i < g.ninodes && Holds(g, im, i, nb) && bn < nb && o + |s| <= BSIZE
    requires p < nb * BSIZE
    ensures 0 < Addr(g, im, i, bn) < g.size
    ensures var r := PatchBlock(g, im, i, bn, o, s);
      && Shape(g, r) && p / BSIZE < MAXFILE && 0 < Addr(g, r, i, p / BSIZE) < g.size
         && 0 < Addr(g, im, i, p / BSIZE) < g.size
      && ByteAt(g, r, i, p) == if bn * BSIZE + o <= p < bn * BSIZE + o + |s| then s[p - bn * BSIZE - o]
         else ByteAt(g, im, i, p)
  {
    ByteThere(g, im, owner, i, nb, bn * BSIZE);
    assert bn * BSIZE / BSIZE == bn;
    ByteThere(g, im, owner, i, nb, p);
    PatchOwned(g, im, owner, i, bn, o, s);
    var r := PatchBlock(g, im, i, bn, o, s);
    assert SlotsKept(g, im, r, i);
    var c := p / BSIZE;
    assert Slot(g, r, i, DataSlot(c)) == Slot(g, im, i, DataSlot(c));
    if c != bn && Addr(g, im, i, c) == Addr(g, im, i, bn) {
      SlotsDisjoint(g, im, owner, i, DataSlot(c), i, DataSlot(bn));
    }
  }

  /** A kept block has the same bytes. */
  lemma KeptByte(g: Geometry, im: Image, r: Image, owner: Owner, i: nat, nb: nat, p: nat)
    requires Owned(g, im, owner) && Shape(g, r) && i < g.ninodes && Holds(g, im, i, nb) && p < nb * BSIZE
    requires FileKept(g, im, r, i)
    ensures p / BSIZE < MAXFILE && 0 < Addr(g, im, i, p / BSIZE) < g.size
      && Addr(g, r, i, p / BSIZE) == Addr(g, im, i, p / BSIZE)
    ensures ByteAt(g, r, i, p) == ByteAt(g, im, i, p)
  {
    ByteThere(g, im, owner, i, nb, p);
    assert BlockKept(g, im, r, i, p / BSIZE);
  }

  // Counting

  /** Free blocks of the first `n`. */
  ghost function FreeCount(bitmap: seq<bool>, n: nat): (c: nat)
    requires n <= |bitmap|
  {
    if n == 0 then 0 else FreeCount(bitmap, n - 1) + (if bitmap[n - 1] then 0 else 1)
  }

  lemma {:induction false} FreeCountSet(bitmap: seq<bool>, n: nat, b: nat)
    requires n <= |bitmap| && b < |bitmap| && !bitmap[b]
    ensures FreeCount(bitmap[b := true], n) == FreeCount(bitmap, n) - (if b < n then 1 else 0)
  {
    if n > 0 {
      FreeCountSet(bitmap, n - 1, b);
    }
  }

  lemma {:induction false} FreeCountZero(bitmap: seq<bool>, n: nat)
    requires n <= |bitmap|
    ensures FreeCount(bitmap, n) == 0 <==> forall b :: 0 <= b < n ==> bitmap[b]
  {
    if n > 0 {
      FreeCountZero(bitmap, n - 1);
    }
  }

  /** Blocks to allocate, indirect block included, for a file to grow from `nb` to `nb'` blocks. */
  function NewBlocks(nb: nat, nb': nat): nat {
    if nb' <= nb then 0 else nb' - nb + (if nb <= NDIRECT < nb' then 1 else 0)
  }

  /** The block of the free map with the bit of block `b`, and the block with inode `i`. */
  function BBlock(g: Geometry, b: nat): nat {
    b / BPB + g.bmapstart
  }

  function IBlock(g: Geometry, i: nat): nat {
    i / IPB + g.inodestart
  }

  ghost function AddrSet(g: Geometry, im: Image, i: nat, lo: nat, hi: nat): set<nat>
    requires Shape(g, im) && i < g.ninodes && hi <= MAXFILE
  {
    if hi <= lo then {} else AddrSet(g, im, i, lo, hi - 1) + {Addr(g, im, i, hi - 1)}
  }

  ghost function MapSet(g: Geometry, im: Image, i: nat, lo: nat, hi: nat): set<nat>
    requires Shape(g, im) && i < g.ninodes && hi <= MAXFILE
  {
    if hi <= lo then {} else MapSet(g, im, i, lo, hi - 1) + {BBlock(g, Addr(g, im, i, hi - 1))}
  }

  lemma {:induction false} AddrSetKept(g: Geometry, im: Image, r: Image, i: nat, nb: nat, lo: nat, hi: nat)
    requires Shape(g, im) && Shape(g, r) && i < g.ninodes && hi <= nb && Holds(g, im, i, nb) && FileKept(g, im, r, i)
    ensures AddrSet(g, r, i, lo, hi) == AddrSet(g, im, i, lo, hi) && MapSet(g, r, i, lo, hi) == MapSet(g, im, i, lo, hi)
    decreases hi
  {
    if hi > lo {
      AddrSetKept(g, im, r, i, nb, lo, hi - 1);
      assert BlockIn(g, im, i, hi - 1, nb) && BlockKept(g, im, r, i, hi - 1);
    }
  }

  lemma {:induction false} SameAddrSets(g: Geometry, im: Image, r: Image, i: nat, lo: nat, hi: nat)
    requires Shape(g, im) && Shape(g, r) && i < g.ninodes && hi <= MAXFILE && SlotsKept(g, im, r, i)
    ensures AddrSet(g, r, i, lo, hi) == AddrSet(g, im, i, lo, hi) && MapSet(g, r, i, lo, hi) == MapSet(g, im, i, lo, hi)
    decreases hi
  {
    if hi > lo {
      SameAddrSets(g, im, r, i, lo, hi - 1);
      assert Slot(g, r, i, DataSlot(hi - 1)) == Slot(g, im, i, DataSlot(hi - 1));
    }
  }

  /** The block belongs to one of the first `hi` blocks of the file. */
  ghost predicate DataBlock(g: Geometry, owner: Owner, i: nat, hi: nat, a: nat) {
    a >= g.nmeta && a in owner && owner[a].0 == i && owner[a].1 != NDIRECT && owner[a].1 < DataSlot(hi)
  }

  lemma NewDataBlock(g: Geometry, im: Image, owner: Owner, i: nat, nb: nat, bn: nat)
    requires Owned(g, im, owner) && i < g.ninodes && bn < nb && Holds(g, im, i, nb)
    ensures DataBlock(g, owner, i, bn + 1, Addr(g, im, i, bn)) && !DataBlock(g, owner, i, bn, Addr(g, im, i, bn))
  {
    assert BlockIn(g, im, i, bn, nb);
    assert SlotOk(g, im, owner, i, DataSlot(bn));
  }

  lemma {:induction false} AddrMember(g: Geometry, im: Image, owner: Owner, i: nat, nb: nat, lo: nat, hi: nat, a: nat)
    requires Owned(g, im, owner) && i < g.ninodes && lo <= hi <= nb && Holds(g, im, i, nb)
    requires a in AddrSet(g, im, i, lo, hi)
    ensures DataBlock(g, owner, i, hi, a)
    decreases hi
  {
    NewDataBlock(g, im, owner, i, nb, hi - 1);
    hide Owned, Holds, Addr;
    if a != Addr(g, im, i, hi - 1) {
      AddrMember(g, im, owner, i, nb, lo, hi - 1, a);
    }
  }

  /** The blocks of a file are different from each other. */
  lemma {:induction false} AddrSetSize(g: Geometry, im: Image, owner: Owner, i: nat, nb: nat, lo: nat, hi: nat)
    requires Owned(g, im, owner) && i < g.ninodes && lo <= hi <= nb && Holds(g, im, i, nb)
    ensures |AddrSet(g, im, i, lo, hi)| == hi - lo
    decreases hi
  {
    hide Owned, BlockIn, Addr, AddrSet, DataBlock;
    OwnedShape(g, im, owner);
    if hi > lo {
      AddrSetSize(g, im, owner, i, nb, lo, hi - 1);
      SetsStep(g, im, i, lo, hi - 1);
      NewDataBlock(g, im, owner, i, nb, hi - 1);
      if Addr(g, im, i, hi - 1) in AddrSet(g, im, i, lo, hi - 1) {
        AddrMember(g, im, owner, i, nb, lo, hi - 1, Addr(g, im, i, hi - 1));
      }
    } else {
      NoBlocks(g, im, i, lo);
    }
  }

  lemma NoBlocks(g: Geometry, im: Image, i: nat, lo: nat)
    requires Shape(g, im) && i < g.ninodes && lo <= MAXFILE
    ensures AddrSet(g, im, i, lo, lo) == {} && MapSet(g, im, i, lo, lo) == {}
  {}

  lemma SetsStep(g: Geometry, im: Image, i: nat, lo: nat, hi: nat)
    requires Shape(g, im) && i < g.ninodes && lo <= hi < MAXFILE
    ensures AddrSet(g, im, i, lo, hi + 1) == AddrSet(g, im, i, lo, hi) + {Addr(g, im, i, hi)}
    ensures MapSet(g, im, i, lo, hi + 1) == MapSet(g, im, i, lo, hi) + {BBlock(g, Addr(g, im, i, hi))}
  {}

  lemma {:induction false} MapSetSize(g: Geometry, im: Image, i: nat, lo: nat, hi: nat)
    requires Shape(g, im) && i < g.ninodes && lo <= hi <= MAXFILE
    ensures |MapSet(g, im, i, lo, hi)| <= hi - lo
    decreases hi
  {
    if hi > lo {
      MapSetSize(g, im, i, lo, hi - 1);
    }
  }
}
