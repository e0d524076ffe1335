/**
 One block's worth of writei: how far the write has come, in terms of bytes, blocks and log entries.
 */
module FileWrites {
  import opened FsModel
  import opened FileBlocks

  function Max(a: nat, b: nat): nat {
    if a < b then b else a
  }

  function Min(a: nat, b: nat): nat {
    if a < b then a else b
  }

  /** Overwriting from `off` on, and extending if need be. */
  function Splice(c: seq<Byte>, off: nat, s: seq<Byte>): (r: seq<Byte>)
    requires off <= |c|
    ensures |r| == Max(|c|, off + |s|)
  {
    c[..off] + s + (if off + |s| < |c| then c[off + |s|..] else [])
  }

  /** A byte of the file after the first `tot` bytes of `s` have been written at `off`. */
  ghost predicate ByteWritten(g: Geometry, im: Image, r: Image, i: nat, off: nat, s: seq<Byte>, tot: nat, p: nat)
    requires Shape(g, im) && Shape(g, r) && i < g.ninodes && tot <= |s|
  {
    && p / BSIZE < MAXFILE
    && 0 < Addr(g, r, i, p / BSIZE) < g.size
    && (!(off <= p < off + tot) ==> Addr(g, im, i, p / BSIZE) < g.size)
    && ByteAt(g, r, i, p) == if off <= p < off + tot then s[p - off] else ByteAt(g, im, i, p)
  }

  ghost predicate BytesWritten(g: Geometry, im: Image, r: Image, i: nat, off: nat, s: seq<Byte>, tot: nat)
    requires Shape(g, im) && Shape(g, r) && i < g.ninodes && tot <= |s|
  {
    forall p: nat :: p < Max(im.inodes[i].size, off + tot) ==> ByteWritten(g, im, r, i, off, s, tot, p)
  }

  /** The state of a write that has done `tot` bytes; the file holds `nb` blocks now. */
  ghost predicate Writing(g: Geometry, im: Image, r: Image, owner: Owner, i: nat, off: nat, s: seq<Byte>, tot: nat,
      nb: nat) {
    && Shape(g, im) && Owned(g, r, owner) && i < g.ninodes && tot <= |s|
    && off <= im.inodes[i].size <= MAXFILE * BSIZE && off + |s| <= MAXFILE * BSIZE
    && nb == Max(NBlocks(im.inodes[i].size), NBlocks(off + tot))
    && Holds(g, r, i, nb)
    && OthersKept(g, im, r, i)
    && r.inodes[i] == im.inodes[i].(addrs := r.inodes[i].addrs)
    && BytesWritten(g, im, r, i, off, s, tot)
  }

  lemma WritingStart(g: Geometry, im: Image, owner: Owner, i: nat, off: nat, s: seq<Byte>)
    requires Owned(g, im, owner) && i < g.ninodes && NoHoles(g, im, i)
    requires off <= im.inodes[i].size && off + |s| <= MAXFILE * BSIZE
    ensures Writing(g, im, im, owner, i, off, s, 0, NBlocks(im.inodes[i].size))
  {
    var size := im.inodes[i].size;
    forall x: nat, bn: nat | x < g.ninodes && bn < MAXFILE ensures BlockKept(g, im, im, x, bn) {
      SlotRange(g, im, owner, x, DataSlot(bn));
    }
    forall p: nat | p < size ensures ByteWritten(g, im, im, i, off, s, 0, p) {
      SizeInBlocks(size, p);
      ByteThere(g, im, owner, i, NBlocks(size), p);
    }
  }

  /** The size of the next piece, and where it goes. */
  function Piece(off: nat, s: seq<Byte>, tot: nat): (m: nat)
    requires tot < |s|
    ensures 0 < m <= |s| - tot && (off + tot) % BSIZE + m <= BSIZE
  {
    Min(|s| - tot, BSIZE - (off + tot) % BSIZE)
  }

  lemma PieceBlocks(size: nat, off: nat, s: seq<Byte>, tot: nat, nb: nat)
    requires tot < |s| && off <= size && nb == Max(NBlocks(size), NBlocks(off + tot)) && off + |s| <= MAXFILE * BSIZE
    ensures var bn := (off + tot) / BSIZE;
      var m := Piece(off, s, tot);
      && bn <= nb && bn < MAXFILE
      && NBlocks(off + tot + m) == bn + 1
      && Max(NBlocks(size), NBlocks(off + tot + m)) == (if bn < nb then nb else nb + 1)
      && bn * BSIZE + (off + tot) % BSIZE == off + tot
  {}

  lemma MaxBlocks(a: nat, b: nat)
    ensures NBlocks(Max(a, b)) == Max(NBlocks(a), NBlocks(b))
  {}

  lemma PieceByte(g: Geometry, im: Image, r: Image, mid: Image, owner: Owner, owner': Owner,
                  i: nat, off: nat, s: seq<Byte>, tot: nat, nb: nat, nb': nat, p: nat)
    requires tot < |s| && Writing(g, im, r, owner, i, off, s, tot, nb)
    requires nb' == (if (off + tot) / BSIZE < nb then nb else nb + 1)
    requires Owned(g, mid, owner') && Holds(g, mid, i, nb') && FileKept(g, r, mid, i)
    requires p < Max(im.inodes[i].size, off + tot + Piece(off, s, tot))
    ensures var bn, o, m := (off + tot) / BSIZE, (off + tot) % BSIZE, Piece(off, s, tot);
      && bn < MAXFILE && 0 < Addr(g, mid, i, bn) < g.size
      && Shape(g, PatchBlock(g, mid, i, bn, o, s[tot..tot + m]))
      && ByteWritten(g, im, PatchBlock(g, mid, i, bn, o, s[tot..tot + m]), i, off, s, tot + m, p)
  {
    hide ByteAt, Addr, Slot, PatchBlock, NBlocks;
    var size := im.inodes[i].size;
    PieceBlocks(size, off, s, tot, nb);
    var bn, o, m := (off + tot) / BSIZE, (off + tot) % BSIZE, Piece(off, s, tot);
    MaxBlocks(size, off + tot + m);
    MaxBlocks(size, off + tot);
    SizeInBlocks(Max(size, off + tot + m), p);
    PatchByte(g, mid, owner', i, nb', bn, o, s[tot..tot + m], p);
    if !(off + tot <= p < off + tot + m) {
      assert p < Max(size, off + tot);
      assert ByteWritten(g, im, r, i, off, s, tot, p);
      SizeInBlocks(Max(size, off + tot), p);
      KeptByte(g, r, mid, owner, i, nb, p);
    }
  }

  lemma PieceBytes(g: Geometry, im: Image, r: Image, mid: Image, owner: Owner, owner': Owner,
                   i: nat, off: nat, s: seq<Byte>, tot: nat, nb: nat, nb': nat)
    requires tot < |s| && Writing(g, im, r, owner, i, off, s, tot, nb)
    requires nb' == (if (off + tot) / BSIZE < nb then nb else nb + 1)
    requires Owned(g, mid, owner') && Holds(g, mid, i, nb') && FileKept(g, r, mid, i)
    ensures var bn, o, m := (off + tot) / BSIZE, (off + tot) % BSIZE, Piece(off, s, tot);
      && bn < MAXFILE && 0 < Addr(g, mid, i, bn) < g.size
      && Shape(g, PatchBlock(g, mid, i, bn, o, s[tot..tot + m]))
      && BytesWritten(g, im, PatchBlock(g, mid, i, bn, o, s[tot..tot + m]), i, off, s, tot + m)
  {
    var size := im.inodes[i].size;
    var bn, o, m := (off + tot) / BSIZE, (off + tot) % BSIZE, Piece(off, s, tot);
    hide Writing, Owned, Holds, FileKept, ByteWritten, Addr, PatchBlock;
    PieceByte(g, im, r, mid, owner, owner', i, off, s, tot, nb, nb', off + tot);
    var q, tot' := PatchBlock(g, mid, i, bn, o, s[tot..tot + m]), tot + m;
    forall p: nat | p < Max(size, off + tot') ensures ByteWritten(g, im, q, i, off, s, tot', p) {
      PieceByte(g, im, r, mid, owner, owner', i, off, s, tot, nb, nb', p);
    }
  }

  /** bmap, then memmove into the block: the write has come one piece further. */
  lemma WritingStep(g: Geometry, im: Image, r: Image, mid: Image, owner: Owner, owner': Owner,
                    i: nat, off: nat, s: seq<Byte>, tot: nat, nb: nat, nb': nat)
    requires tot < |s| && Writing(g, im, r, owner, i, off, s, tot, nb)
    requires nb' == (if (off + tot) / BSIZE < nb then nb else nb + 1)
    requires Owned(g, mid, owner') && Holds(g, mid, i, nb') && FileKept(g, r, mid, i) && OthersKept(g, r, mid, i)
    requires mid.inodes[i] == r.inodes[i].(addrs := mid.inodes[i].addrs)
    ensures var bn, o, m := (off + tot) / BSIZE, (off + tot) % BSIZE, Piece(off, s, tot);
      && bn < MAXFILE && 0 < Addr(g, mid, i, bn) < g.size
      && Writing(g, im, PatchBlock(g, mid, i, bn, o, s[tot..tot + m]), owner', i, off, s, tot + m, nb')
      && SlotsKept(g, mid, PatchBlock(g, mid, i, bn, o, s[tot..tot + m]), i)
  {
    var size := im.inodes[i].size;
    PieceBlocks(size, off, s, tot, nb);
    var bn, o, m := (off + tot) / BSIZE, (off + tot) % BSIZE, Piece(off, s, tot);
    hide NBlocks, Slot, ByteAt, BytesWritten, Owned, Holds, OthersKept, SlotsKept, FileKept, Addr, PatchBlock;
    OwnedShape(g, r, owner);
    OwnedShape(g, mid, owner');
    ByteThere(g, mid, owner', i, nb', bn * BSIZE);
    assert bn * BSIZE / BSIZE == bn;
    PatchOwned(g, mid, owner', i, bn, o, s[tot..tot + m]);
    var q := PatchBlock(g, mid, i, bn, o, s[tot..tot + m]);
    OwnedShape(g, q, owner');
    SameInodes(g, mid, i, bn, o, s[tot..tot + m]);
    KeptHolds(g, mid, q, i, nb');
    OthersTrans(g, im, r, mid, i);
    OthersTrans(g, im, mid, q, i);
    PieceBytes(g, im, r, mid, owner, owner', i, off, s, tot, nb, nb');
  }

  lemma SameInodes(g: Geometry, im: Image, i: nat, bn: nat, o: nat, s: seq<Byte>)
    requires Shape(g, im) && i < g.ninodes && bn < MAXFILE && o + |s| <= BSIZE && Addr(g, im, i, bn) < g.size
    ensures PatchBlock(g, im, i, bn, o, s).inodes == im.inodes
  {}

  /** A finished write, with the size brought up to date. */
  function Resized(im: Image, i: nat, size: nat): (r: Image)
    requires i < |im.inodes|
  {
    im.(inodes := im.inodes[i := im.inodes[i].(size := size)])
  }

  lemma ResizedSlotAt(g: Geometry, im: Image, i: nat, size: nat, x: nat, k: nat)
    requires Shape(g, im) && i < g.ninodes && x < g.ninodes && k < NSLOTS
    ensures Shape(g, Resized(im, i, size)) && Slot(g, Resized(im, i, size), x, k) == Slot(g, im, x, k)
  {}

  lemma ResizedSlot(g: Geometry, im: Image, owner: Owner, i: nat, size: nat)
    requires Owned(g, im, owner) && i < g.ninodes
    ensures Owned(g, Resized(im, i, size), owner)
    ensures forall x: nat :: x < g.ninodes ==>
      SlotsKept(g, im, Resized(im, i, size), x) && FileKept(g, im, Resized(im, i, size), x)
  {
    var r := Resized(im, i, size);
    forall x: nat, k: nat | x < g.ninodes && k < NSLOTS ensures SlotOk(g, r, owner, x, k) {
      assert SlotOk(g, im, owner, x, k);
      ResizedSlotAt(g, im, i, size, x, k);
    }
    forall x: nat | x < g.ninodes ensures SlotsKept(g, im, r, x) && FileKept(g, im, r, x) {
      forall k: nat | k < NSLOTS ensures Slot(g, r, x, k) == Slot(g, im, x, k) {
        ResizedSlotAt(g, im, i, size, x, k);
      }
      forall bn: nat | bn < MAXFILE ensures BlockKept(g, im, r, x, bn) {
        SlotRange(g, im, owner, x, DataSlot(bn));
        ResizedSlotAt(g, im, i, size, x, DataSlot(bn));
      }
    }
    forall b | b in owner ensures OwnerOk(g, r, owner, b) {
      assert OwnerOk(g, im, owner, b);
      ResizedSlotAt(g, im, i, size, owner[b].0, owner[b].1);
    }
    forall b: nat | b < g.size ensures BitOk(g, r, owner, b) {
      assert BitOk(g, im, owner, b);
    }
  }

  lemma WritingEnd(g: Geometry, im: Image, r: Image, owner: Owner, i: nat, off: nat, s: seq<Byte>, nb: nat)
    requires Writing(g, im, r, owner, i, off, s, |s|, nb)
    ensures var size := Max(im.inodes[i].size, off + |s|);
      Owned(g, Resized(r, i, size), owner) && NoHoles(g, Resized(r, i, size), i)
        && OthersKept(g, im, Resized(r, i, size), i)
  {
    var size := Max(im.inodes[i].size, off + |s|);
    ResizedSlot(g, r, owner, i, size);
    var q := Resized(r, i, size);
    KeptHolds(g, r, q, i, nb);
    assert OthersKept(g, r, q, i);
    OthersTrans(g, im, r, q, i);
  }

  lemma ResizedByte(g: Geometry, im: Image, i: nat, size: nat, p: nat)
    requires Shape(g, im) && i < g.ninodes && p / BSIZE < MAXFILE && Addr(g, im, i, p / BSIZE) < g.size
    ensures var q := Resized(im, i, size);
      Shape(g, q) && Addr(g, q, i, p / BSIZE) == Addr(g, im, i, p / BSIZE) && ByteAt(g, q, i, p) == ByteAt(g, im, i, p)
  {
    ResizedSlotAt(g, im, i, size, i, DataSlot(p / BSIZE));
  }

  lemma SpliceAt(c: seq<Byte>, off: nat, s: seq<Byte>, p: nat)
    requires off <= |c| && p < |Splice(c, off, s)|
    ensures off <= p < off + |s| ==> Splice(c, off, s)[p] == s[p - off]
    ensures !(off <= p < off + |s|) ==> p < |c| && Splice(c, off, s)[p] == c[p]
  {}

  /** The file is the old one with the new bytes spliced in. */
  lemma WritingContents(g: Geometry, im: Image, r: Image, owner0: Owner, owner: Owner, i: nat, off: nat, s: seq<Byte>,
      nb: nat)
    requires Owned(g, im, owner0) && i < g.ninodes && NoHoles(g, im, i) && Writing(g, im, r, owner, i, off, s, |s|, nb)
    ensures var q := Resized(r, i, Max(im.inodes[i].size, off + |s|));
      && Owned(g, q, owner) && NoHoles(g, q, i)
      && Contents(g, q, owner, i) == Splice(Contents(g, im, owner0, i), off, s)
  {
    WritingEnd(g, im, r, owner, i, off, s, nb);
    hide Owned, NoHoles, Holds, OthersKept, Contents, ByteAt, Addr, Splice, NBlocks;
    var size := Max(im.inodes[i].size, off + |s|);
    var q := Resized(r, i, size);
    var c, c' := Contents(g, im, owner0, i), Contents(g, q, owner, i);
    var d := Splice(c, off, s);
    forall p: nat | p < size ensures c'[p] == d[p] {
      assert ByteWritten(g, im, r, i, off, s, |s|, p);
      ContentsByte(g, q, owner, i, p);
      ResizedByte(g, r, i, size, p);
      SpliceAt(c, off, s, p);
      if p < im.inodes[i].size {
        ContentsByte(g, im, owner0, i, p);
      }
    }
  }

  lemma KeptContents(g: Geometry, im: Image, r: Image, owner: Owner, owner': Owner, i: nat)
    requires Owned(g, im, owner) && Owned(g, r, owner') && i < g.ninodes && NoHoles(g, im, i)
    requires r.inodes[i] == im.inodes[i] && SlotsKept(g, im, r, i) && FileKept(g, im, r, i)
    ensures NoHoles(g, r, i) && Contents(g, r, owner', i) == Contents(g, im, owner, i)
  {
    var nb := NBlocks(im.inodes[i].size);
    KeptHolds(g, im, r, i, nb);
    var c, c' := Contents(g, im, owner, i), Contents(g, r, owner', i);
    forall p: nat | p < |c| ensures c'[p] == c[p] {
      SizeInBlocks(|c|, p);
      KeptByte(g, im, r, owner, i, nb, p);
    }
  }

  // Which blocks a write gives to the log

  /** The indirect block, and the block with its bit if it is new, once an entry has been added. */
  ghost function IndLog(g: Geometry, ino: Inode, nb0: nat, nb: nat): set<nat>
    requires |ino.addrs| == NDIRECT + 1
  {
    var ind := ino.addrs[NDIRECT];
    if nb <= nb0 || nb <= NDIRECT then {} else if nb0 <= NDIRECT then {BBlock(g, ind), ind} else {ind}
  }

  /** Logged so far: file blocks [bn0, bn1), the map blocks of the new ones [nb0, nb), the indirect block. */
  ghost predicate LoggedAs(g: Geometry, r: Image, i: nat, was: set<nat>, now: set<nat>, bn0: nat, bn1: nat, nb0: nat,
      nb: nat)
    requires Shape(g, r) && i < g.ninodes && bn1 <= MAXFILE && nb <= MAXFILE
  {
    now == was + AddrSet(g, r, i, bn0, bn1) + MapSet(g, r, i, nb0, nb) + IndLog(g, r.inodes[i], nb0, nb)
  }

  /** Rewriting a block that is there logs just that block. */
  lemma LoggedOld(g: Geometry, r: Image, q: Image, i: nat, was: set<nat>, now: set<nat>, bn0: nat, bn: nat, nb0: nat,
      nb: nat)
    requires Shape(g, r) && Shape(g, q) && i < g.ninodes && bn0 <= bn < nb <= MAXFILE
    requires SlotsKept(g, r, q, i) && q.inodes[i] == r.inodes[i]
    requires LoggedAs(g, r, i, was, now, bn0, bn, nb0, nb)
    ensures LoggedAs(g, q, i, was, now + {Addr(g, q, i, bn)}, bn0, bn + 1, nb0, nb)
  {
    hide AddrSet, MapSet, SlotsKept, Addr, IndLog;
    SameAddrSets(g, r, q, i, bn0, bn);
    SameAddrSets(g, r, q, i, nb0, nb);
    SetsStep(g, q, i, bn0, bn);
  }

  lemma IndLogStep(g: Geometry, ino: Inode, was: Inode, nb0: nat, nb: nat, extra: set<nat>)
    requires |ino.addrs| == |was.addrs| == NDIRECT + 1 && nb0 <= nb
      && (nb > NDIRECT ==> ino.addrs[NDIRECT] == was.addrs[NDIRECT])
    requires extra == (if nb < NDIRECT then {} else if nb == NDIRECT
      then {BBlock(g, ino.addrs[NDIRECT]), ino.addrs[NDIRECT]} else {ino.addrs[NDIRECT]})
    ensures IndLog(g, ino, nb0, nb + 1) == IndLog(g, was, nb0, nb) + extra
  {}

  lemma Regroup(was: set<nat>, x: set<nat>, y: set<nat>, z: set<nat>, a: nat, b: nat, extra: set<nat>)
    ensures was + x + y + z + {b, a} + extra + {a} == was + (x + {a}) + (y + {b}) + (z + extra)
  {}

  /** Adding the next block logs it, its map block, and what belongs to the indirect block. */
  lemma LoggedNew(g: Geometry, r: Image, mid: Image, q: Image, i: nat, was: set<nat>, now: set<nat>, extra: set<nat>,
                  bn0: nat, nb0: nat, nb: nat)
    requires Shape(g, r) && Shape(g, mid) && Shape(g, q) && i < g.ninodes && bn0 <= nb && nb0 <= nb < MAXFILE
    requires Holds(g, r, i, nb) && FileKept(g, r, mid, i) && SlotsKept(g, mid, q, i) && q.inodes[i] == mid.inodes[i]
    requires nb > NDIRECT ==> mid.inodes[i].addrs[NDIRECT] == r.inodes[i].addrs[NDIRECT]
    requires LoggedAs(g, r, i, was, now, bn0, nb, nb0, nb)
    requires extra == (if nb < NDIRECT then {} else if nb == NDIRECT
      then {BBlock(g, mid.inodes[i].addrs[NDIRECT]), mid.inodes[i].addrs[NDIRECT]} else {mid.inodes[i].addrs[NDIRECT]})
    ensures var a := Addr(g, q, i, nb);
      LoggedAs(g, q, i, was, now + {BBlock(g, a), a} + extra + {a}, bn0, nb + 1, nb0, nb + 1)
  {
    hide AddrSet, MapSet, SlotsKept, FileKept, Holds, Addr, IndLog, BBlock;
    AddrSetKept(g, r, mid, i, nb, bn0, nb);
    AddrSetKept(g, r, mid, i, nb, nb0, nb);
    SameAddrSets(g, mid, q, i, bn0, nb);
    SameAddrSets(g, mid, q, i, nb0, nb);
    SetsStep(g, q, i, bn0, nb);
    SetsStep(g, q, i, nb0, nb);
    IndLogStep(g, q.inodes[i], r.inodes[i], nb0, nb, extra);
    var a := Addr(g, q, i, nb);
    Regroup(was, AddrSet(g, r, i, bn0, nb), MapSet(g, r, i, nb0, nb), IndLog(g, r.inodes[i], nb0, nb), a, BBlock(g, a),
      extra);
  }
}
