/**
 fs.c in its own form: the free map, block contents and inodes are changed in place. Files behave as
 byte sequences, and no block is ever lost, shared or freed twice.
 */
module FileSystem {
  import opened FsModel
  import opened FileBlocks
  import opened FileWrites
  import opened FileTrunc

  class FileSys {
    const g: Geometry
    var bitmap: seq<bool>
    var data: seq<Block>

    /** The in-memory inodes, and the copies on disk. */
    var inodes: seq<Inode>
    var dinodes: seq<Inode>

    /** The blocks given to log_write in the current transaction. */
    var logged: set<nat>
    var panicked: bool

    /** The calls of log_write themselves, in their order. */
    ghost var calls: seq<nat>

    ghost var owner: Owner

    ghost function Img(): Image
      reads this
    {
      Image(bitmap, data, inodes)
    }

    /** What the blocks of the disk hold, as the log sees them. */
    ghost function OnDisk(): DiskState
      reads this
    {
      DiskState(bitmap, data, dinodes)
    }

    /** Between calls: sound, and the inodes on disk are up to date. */
    ghost predicate Valid()
      reads this
    {
      Sound(g, Img(), owner) && dinodes == inodes && !panicked && LogCalls(calls, logged)
    }

    constructor (geo: Geometry, im: Image, ghost own: Owner)
      requires Sound(geo, im, own)
      ensures Valid() && g == geo && Img() == im && owner == own && logged == {} && calls == []
    {
      g, bitmap, data, inodes, dinodes := geo, im.bitmap, im.data, im.inodes, im.inodes;
      logged, panicked, owner, calls := {}, false, own, [];
    }

    // balloc and bfree: fs.c:38-93

    method Balloc() returns (r: nat)
      requires Shape(g, Img()) && !panicked
      requires LogCalls(calls, logged)
      modifies this`bitmap, this`data, this`logged, this`calls, this`panicked
      ensures LogCalls(calls, logged)
      ensures panicked <==> FreeCount(old(bitmap), g.size) == 0
      ensures panicked ==> bitmap == old(bitmap) && data == old(data)
      ensures !panicked ==>
        && r < g.size && !old(bitmap)[r] && (forall x :: 0 <= x < r ==> old(bitmap)[x])
        && bitmap == old(bitmap)[r := true] && data == old(data)[r := Zero()]
        && FreeCount(bitmap, g.size) == FreeCount(old(bitmap), g.size) - 1
        && logged == old(logged) + {BBlock(g, r), r}
        && Covered(g, old(OnDisk()), OnDisk(), logged)
    {
      hide FreeCount, Covered, LogCalls;
      FreeCountZero(bitmap, g.size);
      var b := 0;
      ghost var j := 0;
      while b < g.size
        invariant 0 <= j && b == j * BPB
        invariant forall x :: 0 <= x < b && x < g.size ==> bitmap[x]
        invariant unchanged(this)
      {
        var bi := 0;
        while bi < BPB && b + bi < g.size
          invariant 0 <= bi <= BPB
          invariant forall x :: 0 <= x < b + bi && x < g.size ==> bitmap[x]
          invariant unchanged(this)
        {
          if !bitmap[b + bi] {
            r := b + bi;
            FreeCountSet(bitmap, g.size, r);
            bitmap := bitmap[r := true];
            logged := logged + {b / BPB + g.bmapstart};
            calls := calls + [b / BPB + g.bmapstart];
            data := data[r := Zero()];
            logged := logged + {r};
            calls := calls + [r];
            SameMapBlock(j, bi);
            AllocCovered(g, old(OnDisk()), r, old(logged));
            TwoCalls(old(calls), old(logged), BBlock(g, r), r);
            return;
          }
          bi := bi + 1;
        }
        b := b + BPB;
        j := j + 1;
      }
      panicked := true;
      r := 0;
    }

    method Bfree(b: nat)
      requires |bitmap| == g.size && b < g.size
      requires LogCalls(calls, logged)
      modifies this`bitmap, this`logged, this`calls, this`panicked
      ensures LogCalls(calls, logged)
      ensures panicked == (old(panicked) || !old(bitmap[b]))
      ensures old(bitmap[b]) ==> bitmap == old(bitmap)[b := false] && logged == old(logged) + {BBlock(g, b)}
      ensures !old(bitmap[b]) ==> bitmap == old(bitmap) && logged == old(logged)
      ensures Covered(g, old(OnDisk()), OnDisk(), logged)
    {
      if !bitmap[b] {
        panicked := true;
        return;
      }
      bitmap := bitmap[b := false];
      logged := logged + {b / BPB + g.bmapstart};
      calls := calls + [b / BPB + g.bmapstart];
    }

    // bmap: fs.c:374-402

    /** Allocate a block and enter it into an empty slot. */
    method AllocInto(i: nat, k: nat) returns (b: nat)
      requires Owned(g, Img(), owner) && !panicked && i < g.ninodes && k < NSLOTS && Slot(g, Img(), i, k) == 0
      requires k > NDIRECT ==> inodes[i].addrs[NDIRECT] != 0
      requires LogCalls(calls, logged)
      modifies this`bitmap, this`data, this`inodes, this`logged, this`calls, this`panicked, this`owner
      ensures LogCalls(calls, logged)
      ensures panicked <==> FreeCount(old(bitmap), g.size) == 0
      ensures !panicked ==>
        && CanAlloc(g, old(Img()), old(owner), i, k, b)
        && (k > NDIRECT ==> old(inodes[i].addrs[NDIRECT]) < g.size)
        && Img() == AllocSlot(g, old(Img()), i, k, b)
        && owner == old(owner)[b := (i, k)] && Owned(g, Img(), owner)
        && FreeCount(bitmap, g.size) == FreeCount(old(bitmap), g.size) - 1
        && logged == old(logged) + {BBlock(g, b), b} + (if k > NDIRECT then {inodes[i].addrs[NDIRECT]} else {})
        && Covered(g, old(OnDisk()), OnDisk(), logged)
    {
      hide Owned, Slot, Covered;
      ghost var im := Img();
      OwnedShape(g, im, owner);
      b := Balloc();
      if panicked {
        return;
      }
      AllocOwned(g, im, owner, i, k, b);
      FreeUnowned(g, im, owner, b);
      if k <= NDIRECT {
        inodes := inodes[i := inodes[i].(addrs := inodes[i].addrs[k := b])];
      } else {
        var ind := inodes[i].addrs[NDIRECT];
        ghost var was, s := logged, OnDisk();
        data := data[ind := SetWord(data[ind], k - NDIRECT - 1, b)];
        logged := logged + {ind};
        calls := calls + [ind];
        CoveredBlock(g, old(OnDisk()), s, was, ind, data[ind]);
      }
      owner := owner[b := (i, k)];
    }

    /**
     The address of the bn-th block, allocating it (and the indirect block before it) when it is the
     next one. Out of blocks exactly when there are fewer free ones than needed.
     */
    method Bmap(i: nat, bn: nat, ghost nb: nat) returns (addr: nat)
      requires Owned(g, Img(), owner) && !panicked && i < g.ninodes && Holds(g, Img(), i, nb) && bn <= nb
      requires bn < MAXFILE
      requires LogCalls(calls, logged)
      modifies this`bitmap, this`data, this`inodes, this`logged, this`calls, this`panicked, this`owner
      ensures LogCalls(calls, logged)
      ensures panicked <==> bn == nb && FreeCount(old(bitmap), g.size) < NewBlocks(nb, nb + 1)
      ensures bn < nb ==> Img() == old(Img()) && logged == old(logged) && owner == old(owner)
      ensures !panicked ==>
        && Grown(g, old(Img()), Img(), owner, i, if bn < nb then nb else nb + 1)
        && addr == Addr(g, Img(), i, bn) && 0 < addr < g.size
      ensures !panicked && bn == nb ==>
        && FreeCount(bitmap, g.size) == FreeCount(old(bitmap), g.size) - NewBlocks(nb, nb + 1)
        && logged == old(logged) + {BBlock(g, addr), addr} + IndirectLogged(g, inodes[i], nb)
      ensures !panicked ==> Covered(g, old(OnDisk()), OnDisk(), logged) && old(logged) <= logged
    {
      hide Owned, Slot, FreeCount, Covered;
      CoveredSame(g, OnDisk(), logged);
      ghost var im := Img();
      OwnedShape(g, im, owner);
      BlockState(g, im, owner, i, bn, nb);
      GrownSame(g, im, owner, i, nb);
      if bn < NDIRECT {
        addr := inodes[i].addrs[bn];
        if addr == 0 {
          addr := AllocInto(i, bn);
          if !panicked {
            GrownDirect(g, im, Img(), old(owner), owner, i, nb, addr);
          }
        }
        return;
      }
      addr := inodes[i].addrs[NDIRECT];
      if addr == 0 {
        addr := AllocInto(i, NDIRECT);
        if panicked {
          return;
        }
        AllocIndirect(g, im, old(owner), i, addr);
        ghost var mid, midOwner, s, was := Img(), owner, OnDisk(), logged;
        AllocKept(g, im, old(owner), i, NDIRECT, addr);
        addr := AllocInto(i, DataSlot(bn));
        if !panicked {
          CoveredTrans(g, old(OnDisk()), s, OnDisk(), was, logged);
          GrownEntry(g, im, mid, Img(), midOwner, owner, i, nb, addr);
        }
      } else {
        EntryState(g, im, owner, i, bn);
        addr := Word(data[addr], bn - NDIRECT);
        if addr == 0 {
          KeptRefl(g, im, owner, i);
          addr := AllocInto(i, DataSlot(bn));
          if !panicked {
            GrownEntry(g, im, im, Img(), old(owner), owner, i, nb, addr);
          }
        }
      }
    }

    // iupdate: fs.c:198-219

    method Iupdate(i: nat)
      requires |inodes| == |dinodes| == g.ninodes && i < g.ninodes
      requires LogCalls(calls, logged)
      modifies this`dinodes, this`logged, this`calls
      ensures LogCalls(calls, logged)
      ensures dinodes == old(dinodes)[i := inodes[i]] && logged == old(logged) + {IBlock(g, i)}
      ensures calls == old(calls) + [IBlock(g, i)]
      ensures Covered(g, old(OnDisk()), OnDisk(), logged)
    {
      dinodes := dinodes[i := inodes[i]];
      logged := logged + {i / IPB + g.inodestart};
      calls := calls + [i / IPB + g.inodestart];
    }

    // writei: fs.c:483-513

    /** One round of writei's loop. */
    method WritePiece(i: nat, src: seq<Byte>, off: nat, tot: nat, ghost w: WriteState) returns (m: nat, ghost nb': nat)
      requires !panicked && tot < |src| && InWrite(g, Img(), owner, logged, i, src, off, tot, w)
      requires LogCalls(calls, logged)
      modifies this`bitmap, this`data, this`inodes, this`logged, this`calls, this`panicked, this`owner
      ensures LogCalls(calls, logged)
      ensures m == Piece(off, src, tot)
      ensures panicked <==> (off + tot) / BSIZE == w.nb && FreeCount(old(bitmap), g.size) < NewBlocks(w.nb, w.nb + 1)
      ensures !panicked ==>
        && nb' == (if (off + tot) / BSIZE < w.nb then w.nb else w.nb + 1)
        && InWrite(g, Img(), owner, logged, i, src, off, tot + m, w.(nb := nb'))
        && FreeCount(bitmap, g.size) == FreeCount(old(bitmap), g.size) - NewBlocks(w.nb, nb')
        && (nb' == w.nb ==> inodes == old(inodes))
        && Covered(g, old(OnDisk()), OnDisk(), logged) && old(logged) <= logged
    {
      hide Owned, Holds, FileKept, OthersKept, Writing, LoggedAs, Addr, FreeCount, NBlocks, Slot, Covered;
      ghost var r, own := Img(), owner;
      InWriteFacts(g, r, owner, logged, i, src, off, tot, w);
      var addr := Bmap(i, (off + tot) / BSIZE, w.nb);
      m := Piece(off, src, tot);
      nb' := if (off + tot) / BSIZE < w.nb then w.nb else w.nb + 1;
      if panicked {
        return;
      }
      ghost var mid, now, disk := Img(), logged, OnDisk();
      WritingStep(g, w.im, r, mid, own, owner, i, off, src, tot, w.nb, nb');
      OwnedShape(g, mid, owner);
      data := data[addr := Patch(data[addr], (off + tot) % BSIZE, src[tot..tot + m])];
      logged := logged + {addr};
      calls := calls + [addr];
      CoveredBlock(g, old(OnDisk()), disk, now, addr, data[addr]);
      LoggedPiece(g, r, mid, Img(), own, owner, old(logged), now, i, src, off, tot, w, nb');
    }

    /** The loop of writei: everything but the new size. */
    method WriteAll(i: nat, src: seq<Byte>, off: nat) returns (ghost w: WriteState)
      requires Valid() && i < g.ninodes && !Refused(inodes[i].size, off, |src|)
      modifies this`bitmap, this`data, this`inodes, this`logged, this`calls, this`panicked, this`owner
      ensures LogCalls(calls, logged)
      ensures panicked <==> FreeCount(old(bitmap), g.size) < Needed(old(inodes[i].size), off, |src|)
      ensures !panicked ==>
        && InWrite(g, Img(), owner, logged, i, src, off, |src|, w)
        && w.im == old(Img()) && w.was == old(logged)
        && (w.nb == w.nb0 ==> inodes == old(inodes))
        && Covered(g, old(OnDisk()), OnDisk(), logged) && old(logged) <= logged
        && FreeCount(bitmap, g.size) == FreeCount(old(bitmap), g.size) - Needed(old(inodes[i].size), off, |src|)
    {
      hide Sound, Owned, InWrite, FreeCount, NBlocks, NewBlocks, Slot, Needed, NoHoles, Covered;
      ghost var im := Img();
      CoveredSame(g, OnDisk(), logged);
      SoundAt(g, im, owner, i);
      ghost var size0 := inodes[i].size;
      w := WriteState(im, logged, NBlocks(size0), NBlocks(size0));
      StartWrite(g, im, owner, logged, i, src, off);
      var tot := 0;
      while tot < |src|
        invariant 0 <= tot <= |src| && !panicked && Shape(g, Img())
        invariant InWrite(g, Img(), owner, logged, i, src, off, tot, w)
          && w == WriteState(im, old(logged), NBlocks(size0), w.nb)
        invariant FreeCount(bitmap, g.size) == FreeCount(im.bitmap, g.size) - NewBlocks(w.nb0, w.nb)
        invariant w.nb0 <= w.nb && (w.nb == w.nb0 ==> inodes == im.inodes) && LogCalls(calls, logged)
        invariant Covered(g, old(OnDisk()), OnDisk(), logged) && old(logged) <= logged
      {
        ghost var disk, now := OnDisk(), logged;
        InWriteInode(g, Img(), owner, logged, i, src, off, tot, w);
        WriteBlocks(size0, off, src, tot, w.nb);
        ghost var nb';
        var m;
        m, nb' := WritePiece(i, src, off, tot, w);
        if panicked {
          return;
        }
        CoveredTrans(g, old(OnDisk()), disk, OnDisk(), now, logged);
        w := w.(nb := nb');
        tot := tot + m;
        InWriteInode(g, Img(), owner, logged, i, src, off, tot, w);
      }
      InWriteInode(g, Img(), owner, logged, i, src, off, tot, w);
      NeededAtEnd(size0, off, |src|);
    }

    /**
     Write the bytes at an offset inside the file or at its end. Everything but the panic for lack of
     blocks leaves the file system sound, with the inode on disk up to date.
     */
    method Writei(i: nat, src: seq<Byte>, off: nat) returns (r: int)
      requires Valid() && i < g.ninodes && inodes[i].typ != T_DEV && off < 0x1_0000_0000 && |src| < 0x1_0000_0000
      modifies this`bitmap, this`data, this`inodes, this`dinodes, this`logged, this`calls, this`panicked, this`owner
      ensures r == if Refused(old(inodes[i].size), off, |src|) then -1 else |src|
      ensures r == -1 ==> Valid() && Img() == old(Img()) && owner == old(owner) && logged == old(logged)
      ensures r != -1 ==> (panicked <==> FreeCount(old(bitmap), g.size) < Needed(old(inodes[i].size), off, |src|))
      ensures r != -1 && !panicked ==>
        && Valid()
        && Contents(g, Img(), owner, i) == Splice(old(Contents(g, Img(), owner, i)), off, src)
        && OthersKept(g, old(Img()), Img(), i)
        && inodes[i] == old(inodes[i]).(size := Max(old(inodes[i].size), off + |src|), addrs := inodes[i].addrs)
        && Covered(g, old(OnDisk()), OnDisk(), logged)
        && WriteLogged(g, old(Img()), Img(), old(logged), logged, i, off, |src|)
        && (off + |src| > old(inodes[i].size) ==> InodeLast(calls, old(logged), IBlock(g, i)))
        && FreeCount(bitmap, g.size) == FreeCount(old(bitmap), g.size) - Needed(old(inodes[i].size), off, |src|)
    {
      hide LogCalls, InodeLast, IBlock, AddU, Refused, Sound, Owned, OthersKept, InWrite, WriteLogged, FreeCount,
        NBlocks, NewBlocks, Slot, Needed, NoHoles, Contents, Covered;
      ghost var im, own := Img(), owner;
      SoundAt(g, im, owner, i);
      RefusedExactly(inodes[i].size, off, |src|);
      var end := AddU(off, |src|);
      if off > inodes[i].size || end < off {
        return -1;
      }
      if end > MAXFILE * BSIZE {
        return -1;
      }
      ghost var w := WriteAll(i, src, off);
      r := |src|;
      if panicked {
        return;
      }
      ghost var q := Img();
      InWriteInode(g, q, owner, logged, i, src, off, |src|, w);
      WriteDone(g, q, own, owner, logged, i, src, off, w);
      ghost var size := inodes[i].size;
      ghost var r0 := Resized(q, i, Max(size, off + |src|));
      if |src| > 0 && off + |src| > inodes[i].size {
        ghost var disk, now, made := OnDisk(), logged, calls;
        if IBlock(g, i) !in old(logged) {
          NoInodeYet(g, q, owner, logged, i, src, off, |src|, w);
        }
        inodes := inodes[i := inodes[i].(size := off + |src|)];
        Iupdate(i);
        LastCall(calls, made, now, old(logged), IBlock(g, i));
        CoveredTrans(g, old(OnDisk()), disk, OnDisk(), now, logged);
        assert Img() == r0;
      } else {
        SameBlocks(size, off + |src|);
        assert logged + {} == logged;
        assert r0.inodes == q.inodes && Img() == r0;
      }
      assert dinodes == inodes;
    }

    // readi: fs.c:456-480

    /** Part of one block. */
    method ReadBlock(i: nat, p: nat, m: nat) returns (s: seq<Byte>)
      requires Valid() && i < g.ninodes && 0 < m && p + m <= inodes[i].size && p % BSIZE + m <= BSIZE
      modifies this`bitmap, this`data, this`inodes, this`logged, this`calls, this`panicked, this`owner
      ensures Valid() && Img() == old(Img()) && owner == old(owner) && logged == old(logged)
      ensures s == Contents(g, Img(), owner, i)[p..p + m]
    {
      hide Sound, Owned, FreeCount, NBlocks, NewBlocks, Slot, Holds, Addr, Contents, Grown;
      ghost var im := Img();
      SoundAt(g, im, owner, i);
      ReadPiece(g, im, owner, i, p, m);
      var addr := Bmap(i, p / BSIZE, NBlocks(im.inodes[i].size));
      s := data[addr][p % BSIZE..p % BSIZE + m];
    }

    /** The bytes of the file from an offset on, as many as there are; nothing is allocated. */
    method Readi(i: nat, off: nat, n: nat) returns (r: int, dst: seq<Byte>)
      requires Valid() && i < g.ninodes && inodes[i].typ != T_DEV && off < 0x1_0000_0000 && n < 0x1_0000_0000
      modifies this`bitmap, this`data, this`inodes, this`logged, this`calls, this`panicked, this`owner
      ensures Valid() && Img() == old(Img()) && owner == old(owner) && logged == old(logged)
      ensures r == -1 <==> off > inodes[i].size || off + n >= 0x1_0000_0000
      ensures r == -1 ==> dst == []
      ensures r != -1 ==> r == Min(n, inodes[i].size - off) && dst == Contents(g, Img(), owner, i)[off..off + r]
    {
      hide AddU, Sound, Owned, Slot, NoHoles, Contents;
      ghost var im := Img();
      SoundAt(g, im, owner, i);
      WrapsExactly(off, n);
      dst := [];
      if off > inodes[i].size || AddU(off, n) < off {
        return -1, [];
      }
      var len := n;
      if AddU(off, n) > inodes[i].size {
        len := inodes[i].size - off;
      }
      var tot := 0;
      while tot < len
        invariant 0 <= tot <= len && off + len <= im.inodes[i].size
        invariant Valid() && Img() == im && owner == old(owner) && logged == old(logged)
        invariant dst == Contents(g, im, owner, i)[off..off + tot]
      {
        var m := Min(len - tot, BSIZE - (off + tot) % BSIZE);
        var s := ReadBlock(i, off + tot, m);
        dst := dst + s;
        tot := tot + m;
      }
      r := len;
    }

    // itrunc and iput: fs.c:336-355, 409-437

    /** bfree of a block that is marked in use: it cannot panic. */
    method FreeSlot(b: nat, ghost im: Image, ghost freed: set<nat>, ghost was: set<nat>)
      requires |bitmap| == g.size && b < g.size && bitmap[b] && bitmap == MapWithout(im, freed) && b !in freed
      requires FreeCount(bitmap, g.size) == FreeCount(im.bitmap, g.size) + |freed|
      requires logged == was + MapBlocks(g, freed)
      requires LogCalls(calls, logged)
      modifies this`bitmap, this`logged, this`calls, this`panicked
      ensures LogCalls(calls, logged)
      ensures panicked == old(panicked) && bitmap == MapWithout(im, freed + {b})
      ensures FreeCount(bitmap, g.size) == FreeCount(im.bitmap, g.size) + |freed + {b}|
      ensures logged == was + MapBlocks(g, freed + {b})
      ensures Covered(g, old(OnDisk()), OnDisk(), logged) && old(logged) <= logged
    {
      FreedOne(im, bitmap, freed, b);
      FreeCountClear(bitmap, g.size, b);
      MapBlocksAdd(g, freed, b);
      Bfree(b);
    }

    /** The direct blocks. */
    method FreeDirect(i: nat) returns (ghost freed: set<nat>)
      requires Valid() && i < g.ninodes
      modifies this`bitmap, this`inodes, this`logged, this`calls, this`panicked
      ensures LogCalls(calls, logged)
      ensures !panicked && |bitmap| == g.size && FreedTo(old(Img()), bitmap, owner, i, NDIRECT, 0, freed)
      ensures |inodes| == g.ninodes && inodes == old(inodes)[i := inodes[i]]
        && inodes[i] == old(inodes[i]).(addrs := inodes[i].addrs)
      ensures |inodes[i].addrs| == NDIRECT + 1 && inodes[i].addrs == NoAddrs()[NDIRECT := old(inodes[i].addrs[NDIRECT])]
      ensures FreeCount(bitmap, g.size) == FreeCount(old(bitmap), g.size) + |freed|
      ensures logged == old(logged) + MapBlocks(g, freed)
      ensures Covered(g, old(OnDisk()), OnDisk(), logged)
    {
      hide Sound, Owned, FreeCount, NoHoles, MapWithout, MapBlocks, Slot, FreedTo, Covered;
      CoveredSame(g, OnDisk(), logged);
      ghost var im := Img();
      SoundAt(g, im, owner, i);
      freed := {};
      FreedNone(g, im, owner, i, logged);
      var k := 0;
      while k < NDIRECT
        invariant 0 <= k <= NDIRECT && !panicked && |bitmap| == g.size && LogCalls(calls, logged)
        invariant |inodes| == g.ninodes && inodes == im.inodes[i := inodes[i]]
          && inodes[i] == im.inodes[i].(addrs := inodes[i].addrs)
        invariant |inodes[i].addrs| == NDIRECT + 1
        invariant forall x :: 0 <= x <= NDIRECT ==> inodes[i].addrs[x] == if x < k then 0 else im.inodes[i].addrs[x]
        invariant FreedTo(im, bitmap, owner, i, k, 0, freed)
        invariant Covered(g, old(OnDisk()), OnDisk(), logged)
        invariant FreeCount(bitmap, g.size) == FreeCount(im.bitmap, g.size) + |freed|
          && logged == old(logged) + MapBlocks(g, freed)
      {
        NextSlot(g, im, bitmap, owner, i, k, 0, freed, k);
        DirectSlot(g, im, i, k);
        ghost var bm, freed0, a := bitmap, freed, inodes[i].addrs[k];
        ghost var disk, now := OnDisk(), logged;
        if inodes[i].addrs[k] != 0 {
          FreeSlot(inodes[i].addrs[k], im, freed, old(logged));
          CoveredTrans(g, old(OnDisk()), disk, OnDisk(), now, logged);
          freed := freed + {inodes[i].addrs[k]};
          inodes := inodes[i := inodes[i].(addrs := inodes[i].addrs[k := 0])];
        }
        FreedStep(im, bm, bitmap, owner, i, k, 0, k + 1, 0, freed0, freed, k, a);
        k := k + 1;
      }
    }

    /** The blocks listed in the indirect block; its entries stay as they are. */
    method FreeEntries(i: nat, ind: nat, ghost im: Image, ghost freed0: set<nat>, ghost was: set<nat>)
        returns (ghost freed: set<nat>)
      requires Owned(g, im, owner) && i < g.ninodes && im.inodes[i].addrs[NDIRECT] == ind && 0 < ind < g.size
      requires |bitmap| == g.size && data == im.data && FreedTo(im, bitmap, owner, i, NDIRECT, 0, freed0)
      requires FreeCount(bitmap, g.size) == FreeCount(im.bitmap, g.size) + |freed0|
      requires logged == was + MapBlocks(g, freed0)
      requires LogCalls(calls, logged)
      modifies this`bitmap, this`logged, this`calls, this`panicked
      ensures LogCalls(calls, logged)
      ensures panicked == old(panicked) && |bitmap| == g.size
        && FreedTo(im, bitmap, owner, i, NDIRECT, NINDIRECT, freed)
      ensures FreeCount(bitmap, g.size) == FreeCount(im.bitmap, g.size) + |freed| && logged == was + MapBlocks(g, freed)
      ensures Covered(g, old(OnDisk()), OnDisk(), logged) && old(logged) <= logged
    {
      hide Owned, FreeCount, MapWithout, MapBlocks, Slot, FreedTo, Covered;
      CoveredSame(g, OnDisk(), logged);
      OwnedShape(g, im, owner);
      freed := freed0;
      var j := 0;
      while j < NINDIRECT
        invariant 0 <= j <= NINDIRECT && panicked == old(panicked) && |bitmap| == g.size && LogCalls(calls, logged)
        invariant FreedTo(im, bitmap, owner, i, NDIRECT, j, freed)
        invariant Covered(g, old(OnDisk()), OnDisk(), logged) && old(logged) <= logged
        invariant FreeCount(bitmap, g.size) == FreeCount(im.bitmap, g.size) + |freed|
          && logged == was + MapBlocks(g, freed)
      {
        NextSlot(g, im, bitmap, owner, i, NDIRECT, j, freed, NDIRECT + 1 + j);
        EntrySlot(g, im, i, j);
        var a := Word(data[ind], j);
        ghost var bm, freed1, disk, now := bitmap, freed, OnDisk(), logged;
        if a != 0 {
          FreeSlot(a, im, freed, was);
          CoveredTrans(g, old(OnDisk()), disk, OnDisk(), now, logged);
          freed := freed + {a};
        }
        FreedStep(im, bm, bitmap, owner, i, NDIRECT, j, NDIRECT, j + 1, freed1, freed, NDIRECT + 1 + j, a);
        j := j + 1;
      }
    }

    /** The indirect block, after the blocks it lists. */
    method FreeIndirect(i: nat, ghost im: Image, ghost freed0: set<nat>, ghost was: set<nat>)
      requires Owned(g, im, owner) && i < g.ninodes && |inodes| == g.ninodes && |inodes[i].addrs| == NDIRECT + 1
      requires im.inodes[i].addrs[NDIRECT] == inodes[i].addrs[NDIRECT] != 0
      requires |bitmap| == g.size && data == im.data && FreedTo(im, bitmap, owner, i, NDIRECT, 0, freed0)
      requires FreeCount(bitmap, g.size) == FreeCount(im.bitmap, g.size) + |freed0|
      requires logged == was + MapBlocks(g, freed0)
      requires LogCalls(calls, logged)
      modifies this`bitmap, this`inodes, this`logged, this`calls, this`panicked
      ensures LogCalls(calls, logged)
      ensures panicked == old(panicked) && |bitmap| == g.size && bitmap == MapWithout(im, BlocksOf(owner, i))
      ensures inodes == old(inodes)[i := old(inodes[i]).(addrs := old(inodes[i].addrs)[NDIRECT := 0])]
      ensures FreeCount(bitmap, g.size) == FreeCount(im.bitmap, g.size) + |BlocksOf(owner, i)|
      ensures logged == was + MapBlocks(g, BlocksOf(owner, i))
      ensures Covered(g, old(OnDisk()), OnDisk(), logged) && old(logged) <= logged
    {
      hide Owned, FreeCount, MapWithout, MapBlocks, Slot, FreedTo, Covered, BlocksOf;
      OwnedShape(g, im, owner);
      IndirectRange(g, im, owner, i);
      var ind := inodes[i].addrs[NDIRECT];
      ghost var freed := FreeEntries(i, ind, im, freed0, was);
      NextSlot(g, im, bitmap, owner, i, NDIRECT, NINDIRECT, freed, NDIRECT);
      DirectSlot(g, im, i, NDIRECT);
      AllFreed(g, im, bitmap, owner, i, freed, ind);
      ghost var disk, now := OnDisk(), logged;
      FreeSlot(ind, im, freed, was);
      CoveredTrans(g, old(OnDisk()), disk, OnDisk(), now, logged);
      inodes := inodes[i := inodes[i].(addrs := inodes[i].addrs[NDIRECT := 0])];
    }

    /**
     Give back the blocks of a file: exactly those it held become free, "freeing free block" cannot
     happen, and the other files stay as they are.
     */
    method Itrunc(i: nat)
      requires Valid() && i < g.ninodes
      modifies this`bitmap, this`inodes, this`dinodes, this`logged, this`calls, this`panicked, this`owner
      ensures Valid() && Img() == Truncated(old(Img()), old(owner), i) && owner == OwnersBut(old(owner), i)
      ensures Contents(g, Img(), owner, i) == []
      ensures OthersKept(g, old(Img()), Img(), i)
      ensures FreeCount(bitmap, g.size) == FreeCount(old(bitmap), g.size) + |BlocksOf(old(owner), i)|
      ensures logged == old(logged) + MapBlocks(g, BlocksOf(old(owner), i)) + {IBlock(g, i)}
      ensures Covered(g, old(OnDisk()), OnDisk(), logged)
    {
      hide Sound, Owned, FreeCount, NoHoles, MapWithout, MapBlocks, Slot, OthersKept, FreedTo, Contents, Covered,
        BlocksOf, OwnersBut, Shape;
      ghost var im := Img();
      SoundAt(g, im, owner, i);
      InodeShape(g, im, i);
      ghost var freed := FreeDirect(i);
      ghost var disk, now := OnDisk(), logged;
      if inodes[i].addrs[NDIRECT] != 0 {
        FreeIndirect(i, im, freed, old(logged));
        CoveredTrans(g, old(OnDisk()), disk, OnDisk(), now, logged);
        disk, now := OnDisk(), logged;
      } else {
        AllFreed(g, im, bitmap, owner, i, freed, 0);
      }
      assert inodes[i].addrs == NoAddrs();
      inodes := inodes[i := inodes[i].(size := 0)];
      Iupdate(i);
      CoveredTrans(g, old(OnDisk()), disk, OnDisk(), now, logged);
      assert inodes == im.inodes[i := Emptied(im.inodes[i])];
      assert dinodes == inodes;
      assert Img() == Truncated(im, owner, i);
      TruncatedSound(g, im, owner, i);
      owner := OwnersBut(owner, i);
    }

    /** The inode and its blocks are freed when the last reference to a file without links goes away. */
    method Iput(i: nat, last: bool)
      requires Valid() && i < g.ninodes
      modifies this`bitmap, this`inodes, this`dinodes, this`logged, this`calls, this`panicked, this`owner
      ensures Valid()
      ensures !(last && old(inodes[i].nlink) == 0) ==>
        Img() == old(Img()) && owner == old(owner) && logged == old(logged)
      ensures last && old(inodes[i].nlink) == 0 ==>
        && inodes[i].typ == 0 && inodes[i].size == 0 && OthersKept(g, old(Img()), Img(), i)
        && owner == OwnersBut(old(owner), i)
        && inodes[i] == Emptied(old(inodes[i])).(typ := 0)
        && FreeCount(bitmap, g.size) == FreeCount(old(bitmap), g.size) + |BlocksOf(old(owner), i)|
        && logged == old(logged) + MapBlocks(g, BlocksOf(old(owner), i)) + {IBlock(g, i)}
      ensures Covered(g, old(OnDisk()), OnDisk(), logged)
    {
      hide Sound, Owned, FreeCount, NoHoles, OthersKept, BlocksOf, OwnersBut, Truncated, Contents, Slot, MapBlocks,
        Covered;
      CoveredSame(g, OnDisk(), logged);
      ghost var im := Img();
      SoundAt(g, im, owner, i);
      if last && inodes[i].nlink == 0 {
        Itrunc(i);
        TruncatedInode(im, old(owner), i);
        ghost var mid, disk, now := Img(), OnDisk(), logged;
        SoundAt(g, mid, owner, i);
        inodes := inodes[i := inodes[i].(typ := 0)];
        Iupdate(i);
        CoveredTrans(g, old(OnDisk()), disk, OnDisk(), now, logged);
        Retyped(g, im, mid, Img(), owner, i);
      }
    }
  }

  /** The blocks of these calls of log_write. */
  ghost predicate LogCalls(calls: seq<nat>, logged: set<nat>) {
    forall x :: x in calls <==> x in logged
  }

  /** The last call is for the inode block, and no other is unless the transaction had it before. */
  ghost predicate InodeLast(calls: seq<nat>, was: set<nat>, b: nat) {
    calls != [] && calls[|calls| - 1] == b && (b !in was ==> b !in calls[..|calls| - 1])
  }

  lemma TwoCalls(calls: seq<nat>, logged: set<nat>, a: nat, b: nat)
    requires LogCalls(calls, logged)
    ensures LogCalls(calls + [a] + [b], logged + {a} + {b})
  {}

  lemma LastCall(calls: seq<nat>, made: seq<nat>, now: set<nat>, was: set<nat>, b: nat)
    requires calls == made + [b] && LogCalls(made, now) && (b !in was ==> b !in now)
    ensures InodeLast(calls, was, b)
  {
    assert calls[..|calls| - 1] == made;
  }

  /** The free map, the data blocks and the inodes, as they are on disk. */
  datatype DiskState = DiskState(bitmap: seq<bool>, data: seq<Block>, dinodes: seq<Inode>)

  /** Every block of the disk that differs is among the logged ones. */
  ghost predicate Covered(g: Geometry, s: DiskState, r: DiskState, log: set<nat>) {
    && |r.bitmap| == |s.bitmap| && |r.data| == |s.data| && |r.dinodes| == |s.dinodes|
    && (forall b: nat :: b < |s.bitmap| && r.bitmap[b] != s.bitmap[b] ==> BBlock(g, b) in log)
    && (forall b: nat :: b < |s.data| && r.data[b] != s.data[b] ==> b in log)
    && (forall i: nat :: i < |s.dinodes| && r.dinodes[i] != s.dinodes[i] ==> IBlock(g, i) in log)
  }

  lemma CoveredSame(g: Geometry, s: DiskState, log: set<nat>)
    ensures Covered(g, s, s, log)
  {}

  lemma CoveredTrans(g: Geometry, s: DiskState, m: DiskState, r: DiskState, log: set<nat>, log': set<nat>)
    requires Covered(g, s, m, log) && Covered(g, m, r, log') && log <= log'
    ensures Covered(g, s, r, log')
  {
    forall b: nat | b < |s.bitmap| && r.bitmap[b] != s.bitmap[b] ensures BBlock(g, b) in log' {
      assert m.bitmap[b] != s.bitmap[b] || r.bitmap[b] != m.bitmap[b];
    }
    forall b: nat | b < |s.data| && r.data[b] != s.data[b] ensures b in log' {
      assert m.data[b] != s.data[b] || r.data[b] != m.data[b];
    }
    forall i: nat | i < |s.dinodes| && r.dinodes[i] != s.dinodes[i] ensures IBlock(g, i) in log' {
      assert m.dinodes[i] != s.dinodes[i] || r.dinodes[i] != m.dinodes[i];
    }
  }

  lemma AllocCovered(g: Geometry, s: DiskState, b: nat, log: set<nat>)
    requires b < |s.bitmap| && b < |s.data|
    ensures Covered(g, s, s.(bitmap := s.bitmap[b := true], data := s.data[b := Zero()]), log + {BBlock(g, b), b})
  {}

  lemma CoveredBlock(g: Geometry, s: DiskState, m: DiskState, log: set<nat>, b: nat, v: Block)
    requires Covered(g, s, m, log) && b < |m.data|
    ensures Covered(g, s, m.(data := m.data[b := v]), log + {b})
  {}

  /** One block of the disk: boot block, superblock and log are not written by these operations. */
  datatype BlockView = Data(block: Block) | Bits(bits: seq<bool>) | Inodes(inodes: seq<Inode>) | Other

  function BitsAt(q: seq<bool>, k: nat): seq<bool> {
    q[Min(k * BPB, |q|)..Min(k * BPB + BPB, |q|)]
  }

  function InodesAt(q: seq<Inode>, k: nat): seq<Inode> {
    q[Min(k * IPB, |q|)..Min(k * IPB + IPB, |q|)]
  }

  function BlockAt(g: Geometry, s: DiskState, x: nat): BlockView
    requires |s.data| == g.size && x < g.size
  {
    if x >= g.nmeta then Data(s.data[x])
    else if x >= g.bmapstart then Bits(BitsAt(s.bitmap, x - g.bmapstart))
    else if x >= g.inodestart then Inodes(InodesAt(s.dinodes, x - g.inodestart))
    else Other
  }

  lemma InMapBlock(k: nat, b: nat)
    requires k * BPB <= b < k * BPB + BPB
    ensures b / BPB == k
  {}

  lemma InInodeBlock(k: nat, i: nat)
    requires k * IPB <= i < k * IPB + IPB
    ensures i / IPB == k
  {}

  lemma SameBitAt(g: Geometry, s: DiskState, r: DiskState, log: set<nat>, k: nat, b: nat)
    requires Covered(g, s, r, log) && k + g.bmapstart !in log && b < |s.bitmap| && k * BPB <= b < k * BPB + BPB
    ensures r.bitmap[b] == s.bitmap[b]
  {
    InMapBlock(k, b);
    assert BBlock(g, b) == k + g.bmapstart;
  }

  lemma SameBits(g: Geometry, s: DiskState, r: DiskState, log: set<nat>, k: nat)
    requires Covered(g, s, r, log) && k + g.bmapstart !in log
    ensures BitsAt(r.bitmap, k) == BitsAt(s.bitmap, k)
  {
    var lo, hi := Min(k * BPB, |s.bitmap|), Min(k * BPB + BPB, |s.bitmap|);
    forall b: nat | lo <= b < hi ensures r.bitmap[b] == s.bitmap[b] {
      SameBitAt(g, s, r, log, k, b);
    }
    assert r.bitmap[lo..hi] == s.bitmap[lo..hi];
  }

  lemma SameInodesOnDisk(g: Geometry, s: DiskState, r: DiskState, log: set<nat>, k: nat)
    requires Covered(g, s, r, log) && k + g.inodestart !in log
    ensures InodesAt(r.dinodes, k) == InodesAt(s.dinodes, k)
  {
    var lo, hi := Min(k * IPB, |s.dinodes|), Min(k * IPB + IPB, |s.dinodes|);
    forall i: nat | lo <= i < hi ensures r.dinodes[i] == s.dinodes[i] {
      InInodeBlock(k, i);
      assert IBlock(g, i) == k + g.inodestart;
    }
    assert r.dinodes[lo..hi] == s.dinodes[lo..hi];
  }

  /**
   Block by block: what was not logged is unchanged. So writing the logged blocks, all or none, takes
   the disk from one state to the other, or leaves it.
   */
  lemma UnloggedSame(g: Geometry, s: DiskState, r: DiskState, log: set<nat>, x: nat)
    requires Covered(g, s, r, log) && |s.data| == g.size && x < g.size && x !in log
    ensures BlockAt(g, r, x) == BlockAt(g, s, x)
  {
    if g.bmapstart <= x < g.nmeta {
      SameBits(g, s, r, log, x - g.bmapstart);
    } else if g.inodestart <= x < g.nmeta {
      SameInodesOnDisk(g, s, r, log, x - g.inodestart);
    }
  }

  lemma FreedNone(g: Geometry, im: Image, owner: Owner, i: nat, logged: set<nat>)
    ensures FreedTo(im, im.bitmap, owner, i, 0, 0, {}) && logged == logged + MapBlocks(g, {})
  {
    assert MapBlocks(g, {}) == {};
  }

  lemma InodeShape(g: Geometry, im: Image, i: nat)
    requires Shape(g, im) && i < g.ninodes
    ensures |im.inodes| == g.ninodes && |im.bitmap| == |im.data| == g.size && |im.inodes[i].addrs| == NDIRECT + 1
  {}

  lemma DirectSlot(g: Geometry, im: Image, i: nat, k: nat)
    requires Shape(g, im) && i < g.ninodes && k <= NDIRECT
    ensures Slot(g, im, i, k) == im.inodes[i].addrs[k]
  {}

  lemma EntrySlot(g: Geometry, im: Image, i: nat, j: nat)
    requires Shape(g, im) && i < g.ninodes && j < NINDIRECT && 0 < im.inodes[i].addrs[NDIRECT] < g.size
    ensures Slot(g, im, i, NDIRECT + 1 + j) == Word(im.data[im.inodes[i].addrs[NDIRECT]], j)
  {}

  lemma IndirectRange(g: Geometry, im: Image, owner: Owner, i: nat)
    requires Owned(g, im, owner) && i < g.ninodes
    ensures im.inodes[i].addrs[NDIRECT] < g.size
  {
    SlotRange(g, im, owner, i, NDIRECT);
  }

  lemma AllFreed(g: Geometry, im: Image, bitmap: seq<bool>, owner: Owner, i: nat, freed: set<nat>, ind: nat)
    requires Owned(g, im, owner) && i < g.ninodes && ind == im.inodes[i].addrs[NDIRECT]
    requires FreedTo(im, bitmap, owner, i, NDIRECT, if ind == 0 then 0 else NINDIRECT, freed)
    ensures BlocksOf(owner, i) == (if ind == 0 then freed else freed + {ind})
    ensures bitmap == MapWithout(im, freed)
  {
    AllGone(g, im, owner, i, freed, ind);
  }

  lemma TruncatedInode(im: Image, owner: Owner, i: nat)
    requires i < |im.inodes|
    ensures |Truncated(im, owner, i).inodes| == |im.inodes|
      && Truncated(im, owner, i).inodes[i] == Emptied(im.inodes[i])
  {}

  lemma TruncatedSound(g: Geometry, im: Image, owner: Owner, i: nat)
    requires Sound(g, im, owner) && i < g.ninodes
    ensures var r := Truncated(im, owner, i);
      && Sound(g, r, OwnersBut(owner, i)) && OthersKept(g, im, r, i)
      && Contents(g, r, OwnersBut(owner, i), i) == []
  {
    var r := Truncated(im, owner, i);
    TruncatedOwned(g, im, owner, i);
    TruncatedFiles(g, im, owner, i);
    OthersSound(g, im, r, owner, OwnersBut(owner, i), i);
  }

  /** The type of an inode does not matter for its blocks. */
  lemma Retyped(g: Geometry, im: Image, mid: Image, r: Image, owner: Owner, i: nat)
    requires Sound(g, mid, owner) && i < g.ninodes && Shape(g, im) && OthersKept(g, im, mid, i)
    requires r == mid.(inodes := mid.inodes[i := mid.inodes[i].(typ := 0)])
    ensures Sound(g, r, owner) && OthersKept(g, im, r, i)
  {
    assert Shape(g, r);
    forall x: nat, k: nat | x < g.ninodes && k < NSLOTS
        ensures Slot(g, r, x, k) == Slot(g, mid, x, k) && SlotOk(g, r, owner, x, k) {
      assert SlotOk(g, mid, owner, x, k);
    }
    forall b | b in owner ensures OwnerOk(g, r, owner, b) {
      assert OwnerOk(g, mid, owner, b);
      var (x, k) := owner[b];
      assert Slot(g, r, x, k) == Slot(g, mid, x, k);
    }
    forall b: nat | b < g.size ensures BitOk(g, r, owner, b) {
      assert BitOk(g, mid, owner, b);
    }
    forall x: nat | x < g.ninodes ensures NoHoles(g, r, x) {
      assert NoHoles(g, mid, x);
      KeptHolds(g, mid, r, x, NBlocks(mid.inodes[x].size));
    }
    KeptSame(g, mid, r, owner, i);
    OthersTrans(g, im, mid, r, i);
  }

  lemma KeptSame(g: Geometry, im: Image, r: Image, owner: Owner, i: nat)
    requires Owned(g, im, owner) && Shape(g, r) && i < g.ninodes && r.data == im.data
    requires forall x: nat :: x < g.ninodes && x != i ==> r.inodes[x] == im.inodes[x]
    ensures OthersKept(g, im, r, i)
  {
    forall x: nat | x < g.ninodes && x != i
      ensures r.inodes[x] == im.inodes[x] && SlotsKept(g, im, r, x) && FileKept(g, im, r, x)
    {
      forall bn: nat | bn < MAXFILE ensures BlockKept(g, im, r, x, bn) {
        SlotRange(g, im, owner, x, DataSlot(bn));
      }
    }
  }

  /** The offset is past the end, or the file would get too long. */
  predicate Refused(size: nat, off: nat, n: nat) {
    off > size || off + n > MAXFILE * BSIZE
  }

  /** Addition of C unsigned ints. */
  function AddU(a: nat, b: nat): nat {
    (a + b) % 0x1_0000_0000
  }

  lemma WrapsExactly(a: nat, b: nat)
    requires a < 0x1_0000_0000 && b < 0x1_0000_0000
    ensures AddU(a, b) < a <==> a + b >= 0x1_0000_0000
    ensures AddU(a, b) >= a ==> AddU(a, b) == a + b
  {}

  /** The two tests of writei together, one of them on a sum that may wrap around. */
  lemma RefusedExactly(size: nat, off: nat, n: nat)
    requires size <= MAXFILE * BSIZE && off < 0x1_0000_0000 && n < 0x1_0000_0000
    ensures Refused(size, off, n) <==> off > size || AddU(off, n) < off || AddU(off, n) > MAXFILE * BSIZE
    ensures !Refused(size, off, n) ==> off <= size && off + n <= MAXFILE * BSIZE
  {}

  /** Free blocks that a write needs. */
  function Needed(size: nat, off: nat, n: nat): nat {
    NewBlocks(NBlocks(size), NBlocks(Max(size, off + n)))
  }

  /**
   The blocks given to the log: the file blocks touched, the map blocks of the new ones, the indirect
   block if it got an entry, and the inode block if the file grew.
   */
  ghost predicate WriteLogged(g: Geometry, im: Image, r: Image, was: set<nat>, now: set<nat>, i: nat, off: nat, n: nat)
    requires Shape(g, im) && Shape(g, r) && i < g.ninodes && off + n <= MAXFILE * BSIZE
    requires im.inodes[i].size <= MAXFILE * BSIZE
  {
    var size := im.inodes[i].size;
    var nb0, nb := NBlocks(size), NBlocks(Max(size, off + n));
    now == was + AddrSet(g, r, i, off / BSIZE, WrittenTo(off, n)) + MapSet(g, r, i, nb0, nb)
      + IndLog(g, r.inodes[i], nb0, nb)
             + (if off + n > size then {IBlock(g, i)} else {})
  }

  lemma StartWrite(g: Geometry, im: Image, owner: Owner, logged: set<nat>, i: nat, src: seq<Byte>, off: nat)
    requires Owned(g, im, owner) && i < g.ninodes && NoHoles(g, im, i)
    requires off <= im.inodes[i].size && off + |src| <= MAXFILE * BSIZE
    ensures var nb := NBlocks(im.inodes[i].size);
      InWrite(g, im, owner, logged, i, src, off, 0, WriteState(im, logged, nb, nb)) && NewBlocks(nb, nb) == 0
  {
    WritingStart(g, im, owner, i, off, src);
  }

  lemma WriteBlocks(size: nat, off: nat, src: seq<Byte>, tot: nat, nb: nat)
    requires tot < |src| && off <= size <= MAXFILE * BSIZE && nb == Max(NBlocks(size), NBlocks(off + tot))
    requires off + |src| <= MAXFILE * BSIZE
    ensures var nb0 := NBlocks(size);
      var nb' := if (off + tot) / BSIZE < nb then nb else nb + 1;
      && NewBlocks(nb0, nb) + NewBlocks(nb, nb') == NewBlocks(nb0, nb')
      && ((off + tot) / BSIZE == nb ==> NewBlocks(nb0, nb + 1) <= Needed(size, off, |src|))
  {
    PieceBlocks(size, off, src, tot, nb);
    MaxBlocks(size, off + |src|);
  }

  lemma NeededAtEnd(size: nat, off: nat, n: nat)
    requires off <= size
    ensures Needed(size, off, n) == NewBlocks(NBlocks(size), Max(NBlocks(size), NBlocks(off + n)))
  {
    MaxBlocks(size, off + n);
  }

  lemma SameBlocks(size: nat, end: nat)
    requires end <= size
    ensures Max(NBlocks(size), NBlocks(end)) == NBlocks(size)
  {
    MaxBlocks(size, end);
  }

  lemma SoundAt(g: Geometry, im: Image, owner: Owner, i: nat)
    requires Sound(g, im, owner) && i < g.ninodes
    ensures Owned(g, im, owner) && Shape(g, im) && NoHoles(g, im, i) && im.inodes[i].size <= MAXFILE * BSIZE
  {
    assert NoHoles(g, im, i);
  }

  /** At the end of the loop only the size is missing. */
  lemma MapBlockRange(g: Geometry, b: nat)
    requires GeoOk(g) && b < g.size
    ensures g.bmapstart <= BBlock(g, b) < g.nmeta
  {}

  lemma InodeBlockRange(g: Geometry, i: nat)
    requires GeoOk(g) && i < g.ninodes
    ensures g.inodestart <= IBlock(g, i) < g.bmapstart
  {}

  lemma {:induction false} MapMember(g: Geometry, im: Image, owner: Owner, i: nat, nb: nat, lo: nat, hi: nat, x: nat)
    requires Owned(g, im, owner) && i < g.ninodes && lo <= hi <= nb && Holds(g, im, i, nb)
    requires x in MapSet(g, im, i, lo, hi)
    ensures g.bmapstart <= x < g.nmeta
    decreases hi
  {
    NewDataBlock(g, im, owner, i, nb, hi - 1);
    SlotRange(g, im, owner, i, DataSlot(hi - 1));
    MapBlockRange(g, Addr(g, im, i, hi - 1));
    if x != BBlock(g, Addr(g, im, i, hi - 1)) {
      MapMember(g, im, owner, i, nb, lo, hi - 1, x);
    }
  }

  lemma IndirectHeld(g: Geometry, im: Image, owner: Owner, i: nat, nb: nat)
    requires Owned(g, im, owner) && i < g.ninodes && Holds(g, im, i, nb) && nb > NDIRECT
    ensures var ind := im.inodes[i].addrs[NDIRECT];
      g.nmeta <= ind < g.size && ind in owner && owner[ind] == (i, NDIRECT)
  {
    IndirectSlot(g, im, i);
    assert SlotOk(g, im, owner, i, NDIRECT);
  }

  /** The blocks given to the log before the inode is updated do not include the block of inodes. */
  lemma NoInodeYet(g: Geometry, r: Image, owner: Owner, logged: set<nat>, i: nat, src: seq<Byte>, off: nat, tot: nat,
      w: WriteState)
    requires InWrite(g, r, owner, logged, i, src, off, tot, w) && i < g.ninodes && IBlock(g, i) !in w.was
    ensures IBlock(g, i) !in logged
  {
    hide Owned, Holds, AddrSet, MapSet, OthersKept, BytesWritten, BBlock, IBlock;
    OwnedShape(g, r, owner);
    InodeBlockRange(g, i);
    var x, lo, hi := IBlock(g, i), off / BSIZE, WrittenTo(off, tot);
    WrittenRange(w.im.inodes[i].size, off, tot);
    if x in AddrSet(g, r, i, lo, hi) {
      AddrMember(g, r, owner, i, w.nb, lo, hi, x);
    }
    if x in MapSet(g, r, i, w.nb0, w.nb) {
      MapMember(g, r, owner, i, w.nb, w.nb0, w.nb, x);
    }
    if w.nb > NDIRECT {
      IndirectHeld(g, r, owner, i, w.nb);
      MapBlockRange(g, r.inodes[i].addrs[NDIRECT]);
    }
  }

  lemma WrittenRange(size: nat, off: nat, tot: nat)
    requires off <= size
    ensures off / BSIZE <= WrittenTo(off, tot) <= Max(NBlocks(size), NBlocks(off + tot))
  {}

  lemma WriteDone(g: Geometry, r: Image, own0: Owner, owner: Owner, logged: set<nat>, i: nat, src: seq<Byte>, off: nat,
      w: WriteState)
    requires Sound(g, w.im, own0) && InWrite(g, r, owner, logged, i, src, off, |src|, w)
    ensures var size := w.im.inodes[i].size;
      var q := Resized(r, i, Max(size, off + |src|));
      && Sound(g, q, owner)
      && Contents(g, q, owner, i) == Splice(Contents(g, w.im, own0, i), off, src)
      && OthersKept(g, w.im, q, i)
      && q.inodes == w.im.inodes[i := q.inodes[i]]
      && WriteLogged(g, w.im, q, w.was, logged + (if off + |src| > size then {IBlock(g, i)} else {}), i, off, |src|)
  {
    var size := w.im.inodes[i].size;
    var q := Resized(r, i, Max(size, off + |src|));
    assert NoHoles(g, w.im, i);
    WritingEnd(g, w.im, r, owner, i, off, src, w.nb);
    WritingContents(g, w.im, r, own0, owner, i, off, src, w.nb);
    OthersSound(g, w.im, q, own0, owner, i);
    ResizedSlot(g, r, owner, i, Max(size, off + |src|));
    DoneLogged(g, r, q, owner, logged, i, src, off, w);
  }

  /** Files that were kept are as sound as before. */
  lemma OthersSound(g: Geometry, im: Image, r: Image, owner: Owner, owner': Owner, i: nat)
    requires Sound(g, im, owner) && Owned(g, r, owner') && i < g.ninodes && NoHoles(g, r, i) && OthersKept(g, im, r, i)
    ensures Sound(g, r, owner') && r.inodes == im.inodes[i := r.inodes[i]]
    ensures forall x: nat :: x < g.ninodes && x != i ==>
      NoHoles(g, im, x) && Contents(g, r, owner', x) == Contents(g, im, owner, x)
  {
    forall x: nat | x < g.ninodes && x != i
      ensures NoHoles(g, im, x) && NoHoles(g, r, x) && Contents(g, r, owner', x) == Contents(g, im, owner, x)
    {
      assert NoHoles(g, im, x);
      KeptContents(g, im, r, owner, owner', x);
    }
  }

  lemma DoneLogged(g: Geometry, r: Image, q: Image, owner: Owner, logged: set<nat>, i: nat, src: seq<Byte>, off: nat,
      w: WriteState)
    requires InWrite(g, r, owner, logged, i, src, off, |src|, w)
    requires Shape(g, r) && Shape(g, q) && SlotsKept(g, r, q, i)
    requires q.inodes[i] == r.inodes[i].(size := q.inodes[i].size)
    ensures var size := w.im.inodes[i].size;
      WriteLogged(g, w.im, q, w.was, logged + (if off + |src| > size then {IBlock(g, i)} else {}), i, off, |src|)
  {
    var size := w.im.inodes[i].size;
    MaxBlocks(size, off + |src|);
    SameAddrSets(g, r, q, i, off / BSIZE, WrittenTo(off, |src|));
    SameAddrSets(g, r, q, i, w.nb0, w.nb);
  }

  lemma InWriteInode(g: Geometry, r: Image, owner: Owner, logged: set<nat>, i: nat, src: seq<Byte>, off: nat, tot: nat,
      w: WriteState)
    requires InWrite(g, r, owner, logged, i, src, off, tot, w)
    ensures Shape(g, r) && Shape(g, w.im) && i < g.ninodes && r.inodes[i] == w.im.inodes[i].(addrs := r.inodes[i].addrs)
    ensures w.nb0 == NBlocks(w.im.inodes[i].size) && w.nb == Max(w.nb0, NBlocks(off + tot))
    ensures off <= w.im.inodes[i].size <= MAXFILE * BSIZE && off + |src| <= MAXFILE * BSIZE
  {}

  /** What a write in progress has to remember: where it started from, and how many blocks the file has now. */
  datatype WriteState = WriteState(im: Image, was: set<nat>, nb0: nat, nb: nat)

  /** The blocks written so far end here. */
  function WrittenTo(off: nat, tot: nat): nat {
    if tot == 0 then off / BSIZE else NBlocks(off + tot)
  }

  ghost predicate InWrite(g: Geometry, r: Image, owner: Owner, logged: set<nat>, i: nat, src: seq<Byte>, off: nat,
      tot: nat, w: WriteState) {
    && Writing(g, w.im, r, owner, i, off, src, tot, w.nb)
    && w.nb0 == NBlocks(w.im.inodes[i].size)
    && (0 < tot < |src| ==> (off + tot) % BSIZE == 0)
    && WrittenTo(off, tot) <= MAXFILE
    && LoggedAs(g, r, i, w.was, logged, off / BSIZE, WrittenTo(off, tot), w.nb0, w.nb)
  }

  lemma InWriteFacts(g: Geometry, r: Image, owner: Owner, logged: set<nat>, i: nat, src: seq<Byte>, off: nat, tot: nat,
      w: WriteState)
    requires tot < |src| && InWrite(g, r, owner, logged, i, src, off, tot, w)
    ensures Owned(g, r, owner) && Shape(g, r) && Shape(g, w.im) && i < g.ninodes && Holds(g, r, i, w.nb)
    ensures (off + tot) / BSIZE <= w.nb && (off + tot) / BSIZE < MAXFILE
    ensures WrittenTo(off, tot) == (off + tot) / BSIZE
      && WrittenTo(off, tot + Piece(off, src, tot)) == (off + tot) / BSIZE + 1
    ensures tot + Piece(off, src, tot) < |src| ==> (off + tot + Piece(off, src, tot)) % BSIZE == 0
    ensures w.nb0 <= w.nb
  {
    OwnedShape(g, r, owner);
    hide Owned, Holds, OthersKept, LoggedAs;
    PieceBlocks(w.im.inodes[i].size, off, src, tot, w.nb);
  }

  lemma LoggedPiece(g: Geometry, r: Image, mid: Image, q: Image, owner: Owner, owner': Owner, was: set<nat>,
      now: set<nat>, i: nat, src: seq<Byte>, off: nat, tot: nat, w: WriteState, nb': nat)
    requires tot < |src| && InWrite(g, r, owner, was, i, src, off, tot, w)
    requires nb' == (if (off + tot) / BSIZE < w.nb then w.nb else w.nb + 1)
    requires Grown(g, r, mid, owner', i, nb') && Shape(g, q) && SlotsKept(g, mid, q, i) && q.inodes[i] == mid.inodes[i]
    requires nb' == w.nb ==> mid == r && now == was
    requires nb' > w.nb ==>
      now == was + {BBlock(g, Addr(g, mid, i, w.nb)), Addr(g, mid, i, w.nb)} + IndirectLogged(g, mid.inodes[i], w.nb)
    ensures (off + tot) / BSIZE < MAXFILE
    ensures WrittenTo(off, tot + Piece(off, src, tot)) == (off + tot) / BSIZE + 1 <= MAXFILE
    ensures LoggedAs(g, q, i, w.was, now + {Addr(g, mid, i, (off + tot) / BSIZE)}, off / BSIZE, (off + tot) / BSIZE + 1,
      w.nb0, nb')
  {
    InWriteFacts(g, r, owner, was, i, src, off, tot, w);
    var bn := (off + tot) / BSIZE;
    SameAddr(g, mid, q, i, bn);
    hide Owned, LoggedAs, WrittenTo, NBlocks, Addr, Slot, SlotsKept, FileKept, OthersKept, Holds, BytesWritten;
    if nb' == w.nb {
      LoggedOld(g, r, q, i, w.was, now, off / BSIZE, bn, w.nb0, w.nb);
    } else {
      LoggedNew(g, r, mid, q, i, w.was, was, IndirectLogged(g, mid.inodes[i], w.nb), off / BSIZE, w.nb0, w.nb);
    }
  }

  lemma SameAddr(g: Geometry, im: Image, r: Image, i: nat, bn: nat)
    requires Shape(g, im) && Shape(g, r) && i < g.ninodes && bn < MAXFILE && SlotsKept(g, im, r, i)
    ensures Addr(g, r, i, bn) == Addr(g, im, i, bn)
  {
    assert Slot(g, r, i, DataSlot(bn)) == Slot(g, im, i, DataSlot(bn));
  }

  /** The image `r` holds `nb` blocks of file `i`, and otherwise only has more than `im`, not less. */
  ghost predicate Grown(g: Geometry, im: Image, r: Image, owner: Owner, i: nat, nb: nat) {
    && Shape(g, im) && Owned(g, r, owner) && i < g.ninodes && Holds(g, r, i, nb)
    && FileKept(g, im, r, i) && OthersKept(g, im, r, i)
    && r.inodes[i] == im.inodes[i].(addrs := r.inodes[i].addrs)
    && (im.inodes[i].addrs[NDIRECT] != 0 ==> r.inodes[i].addrs[NDIRECT] == im.inodes[i].addrs[NDIRECT])
  }

  /** What log_write gets besides the new block and its bit: the indirect block, new or not. */
  function IndirectLogged(g: Geometry, ino: Inode, nb: nat): set<nat>
    requires |ino.addrs| == NDIRECT + 1
  {
    if nb < NDIRECT then {}
    else if nb == NDIRECT then {BBlock(g, ino.addrs[NDIRECT]), ino.addrs[NDIRECT]}
    else {ino.addrs[NDIRECT]}
  }

  lemma BlockState(g: Geometry, im: Image, owner: Owner, i: nat, bn: nat, nb: nat)
    requires Owned(g, im, owner) && i < g.ninodes && Holds(g, im, i, nb) && bn <= nb && bn < MAXFILE
    ensures Addr(g, im, i, bn) == 0 <==> bn == nb
    ensures Addr(g, im, i, bn) < g.size
    ensures bn < NDIRECT ==> Addr(g, im, i, bn) == im.inodes[i].addrs[bn] == Slot(g, im, i, bn)
    ensures Slot(g, im, i, NDIRECT) == im.inodes[i].addrs[NDIRECT] < g.size
    ensures im.inodes[i].addrs[NDIRECT] == 0 <==> nb <= NDIRECT
  {
    assert BlockIn(g, im, i, bn, nb);
    SlotRange(g, im, owner, i, DataSlot(bn));
    SlotRange(g, im, owner, i, NDIRECT);
  }

  lemma EntryState(g: Geometry, im: Image, owner: Owner, i: nat, bn: nat)
    requires Owned(g, im, owner) && i < g.ninodes && NDIRECT <= bn < MAXFILE && 0 < im.inodes[i].addrs[NDIRECT] < g.size
    ensures Addr(g, im, i, bn) == Word(im.data[im.inodes[i].addrs[NDIRECT]], bn - NDIRECT)
  {}

  lemma KeptRefl(g: Geometry, im: Image, owner: Owner, i: nat)
    requires Owned(g, im, owner) && i < g.ninodes
    ensures FileKept(g, im, im, i) && OthersKept(g, im, im, i)
  {
    forall x: nat, bn: nat | x < g.ninodes && bn < MAXFILE ensures BlockKept(g, im, im, x, bn) {
      SlotRange(g, im, owner, x, DataSlot(bn));
    }
  }

  lemma GrownSame(g: Geometry, im: Image, owner: Owner, i: nat, nb: nat)
    requires Owned(g, im, owner) && i < g.ninodes && Holds(g, im, i, nb)
    ensures Grown(g, im, im, owner, i, nb)
  {
    KeptRefl(g, im, owner, i);
  }

  lemma GrownDirect(g: Geometry, im: Image, r: Image, owner: Owner, owner': Owner, i: nat, nb: nat, b: nat)
    requires i < g.ninodes && nb < NDIRECT && CanAlloc(g, im, owner, i, nb, b) && Holds(g, im, i, nb)
    requires r == AllocSlot(g, im, i, nb, b) && Owned(g, r, owner')
    ensures Grown(g, im, r, owner', i, nb + 1) && Addr(g, r, i, nb) == b && 0 < b < g.size
  {
    FreeUnowned(g, im, owner, b);
    AllocHolds(g, im, owner, i, nb, b);
    AllocKept(g, im, owner, i, nb, b);
  }

  /** Entering the next block into the indirect block, which is there already in `mid`. */
  lemma GrownEntry(g: Geometry, im: Image, mid: Image, r: Image, owner: Owner, owner': Owner, i: nat, nb: nat, b: nat)
    requires i < g.ninodes && NDIRECT <= nb < MAXFILE && CanAlloc(g, mid, owner, i, DataSlot(nb), b)
    requires Shape(g, im) && 0 < mid.inodes[i].addrs[NDIRECT] < g.size
    requires forall bn: nat :: bn < MAXFILE ==> BlockIn(g, mid, i, bn, nb)
    requires FileKept(g, im, mid, i) && OthersKept(g, im, mid, i)
    requires mid.inodes[i] == im.inodes[i].(addrs := mid.inodes[i].addrs)
    requires im.inodes[i].addrs[NDIRECT] != 0 ==> mid.inodes[i].addrs[NDIRECT] == im.inodes[i].addrs[NDIRECT]
    requires r == AllocSlot(g, mid, i, DataSlot(nb), b) && Owned(g, r, owner')
    ensures Grown(g, im, r, owner', i, nb + 1) && Addr(g, r, i, nb) == b && 0 < b < g.size
    ensures r.inodes[i].addrs[NDIRECT] == mid.inodes[i].addrs[NDIRECT]
  {
    FreeUnowned(g, mid, owner, b);
    AllocHolds(g, mid, owner, i, nb, b);
    AllocKept(g, mid, owner, i, DataSlot(nb), b);
    KeptTrans(g, im, mid, r, i);
    OthersTrans(g, im, mid, r, i);
  }

  lemma SameMapBlock(j: nat, bi: nat)
    requires bi < BPB
    ensures (j * BPB + bi) / BPB == j * BPB / BPB == j
  {}
}
