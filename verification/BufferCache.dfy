/**
 bio.c in its own form: an array of buffers on a doubly linked list in order of last use. The cache is
 proved to behave as a flat map from block numbers to last-written contents.
 */
module BufferCache {
  import opened Seqs
  import opened LogModel

  const NBUF := MAXOPBLOCKS * 3

  /** The list header comes after the buffers in the prev and next arrays. */
  const HEAD := NBUF

  /** `blockno` is negative while the buffer has no block. */
  datatype Buf = Buf(busy: bool, valid: bool, dirty: bool, blockno: int, data: Block)

  // The doubly linked list

  /** The ring reads header, order[0], ..., order[|order| - 1], header. */
  function El(order: seq<nat>, i: int): nat {
    if 0 <= i < |order| then order[i] else HEAD
  }

  ghost predicate Ring(prev: seq<nat>, next: seq<nat>, order: seq<nat>) {
    && |prev| == |next| == NBUF + 1
    && (forall i :: 0 <= i < |order| ==> order[i] < NBUF)
    && NoDup(order)
    && forall i: int :: -1 <= i < |order| ==>
       next[El(order, i)] == El(order, i + 1) && prev[El(order, i + 1)] == El(order, i)
  }

  lemma RingUnlink(prev: seq<nat>, next: seq<nat>, order: seq<nat>, k: nat)
    requires Ring(prev, next, order) && k < |order|
    ensures var b := order[k];
      && next[b] == El(order, k + 1) && prev[b] == El(order, k - 1)
      && Ring(prev[next[b] := prev[b]], next[prev[b] := next[b]], order[..k] + order[k + 1..])
  {
    var b := order[k];
    var r := order[..k] + order[k + 1..];
    assert El(order, k) == b;
    assert next[El(order, k)] == El(order, k + 1);
    assert prev[El(order, (k - 1) + 1)] == El(order, k - 1);
    var p', n' := prev[next[b] := prev[b]], next[prev[b] := next[b]];
    forall i: int | -1 <= i < |r| ensures n'[El(r, i)] == El(r, i + 1) && p'[El(r, i + 1)] == El(r, i) {
      UnlinkAt(prev, next, order, k, i);
    }
  }

  lemma UnlinkAt(prev: seq<nat>, next: seq<nat>, order: seq<nat>, k: nat, i: int)
    requires Ring(prev, next, order) && k < |order| && -1 <= i < |order| - 1
    ensures var r := order[..k] + order[k + 1..];
      && next[El(order, k - 1) := El(order, k + 1)][El(r, i)] == El(r, i + 1)
      && prev[El(order, k + 1) := El(order, k - 1)][El(r, i + 1)] == El(r, i)
  {
    var r := order[..k] + order[k + 1..];
    if i < k - 1 {
      assert El(r, i) == El(order, i) && El(r, i + 1) == El(order, i + 1);
    } else if i == k - 1 {
      assert El(r, i) == El(order, k - 1) && El(r, i + 1) == El(order, k + 1);
    } else {
      assert El(r, i) == El(order, i + 1) && El(r, i + 1) == El(order, i + 2);
    }
  }

  lemma RingPush(prev: seq<nat>, next: seq<nat>, order: seq<nat>, b: nat)
    requires Ring(prev, next, order) && b < NBUF && b !in order
    ensures next[HEAD] == El(order, 0)
    ensures Ring(prev[b := HEAD][El(order, 0) := b], next[b := El(order, 0)][HEAD := b], [b] + order)
  {
    var r := [b] + order;
    NoDupExtend(order, b);
    assert next[El(order, -1)] == El(order, 0);
    var p', n' := prev[b := HEAD][next[HEAD] := b], next[b := next[HEAD]][HEAD := b];
    forall i: int | -1 <= i < |r| ensures n'[El(r, i)] == El(r, i + 1) && p'[El(r, i + 1)] == El(r, i) {
      if i > 0 {
        assert El(r, i) == El(order, i - 1) && El(r, i + 1) == El(order, i);
        assert El(order, i - 1) in order;
        assert prev[El(order, (i - 1) + 1)] == El(order, i - 1);
      } else if i == 0 {
        assert El(r, 0) == b && El(r, 1) == El(order, 0);
      } else {
        assert El(r, -1) == HEAD && El(r, 0) == b;
      }
    }
  }

  /** Not to be recycled: held, or waiting for the commit. */
  predicate Pinned(b: Buf) {
    b.busy || b.dirty
  }

  // Coherence of one buffer and of one block

  /**
   A buffer and the flat contents: `where` finds it, and unless somebody holds it or it is pinned it agrees
   with the disk.
   */
  ghost predicate BufOk(b: Buf, i: nat, where: map<nat, nat>, flat: Disk, disk: Disk)
    requires |flat| == |disk|
  {
    if b.blockno < 0 then !b.busy && !b.valid && !b.dirty
    else
      && b.blockno < |disk|
      && b.blockno in where && where[b.blockno] == i
      && (b.valid ==> b.data == flat[b.blockno])
      && (b.dirty ==> b.valid)
      && (!b.busy ==> b.valid)
      && ((!b.busy && !b.dirty) || !b.valid ==> flat[b.blockno] == disk[b.blockno])
  }

  ghost predicate BlockOk(n: nat, bufs: seq<Buf>, where: map<nat, nat>, flat: Disk, disk: Disk)
    requires n < |flat| == |disk|
  {
    if n in where then where[n] < |bufs| && bufs[where[n]].blockno == n
    else flat[n] == disk[n]
  }

  ghost predicate Coherent(bufs: seq<Buf>, where: map<nat, nat>, flat: Disk, disk: Disk) {
    && |bufs| == NBUF
    && |flat| == |disk|
    && (forall n :: n in where ==> n < |disk|)
    && (forall i: nat :: i < NBUF ==> BufOk(bufs[i], i, where, flat, disk))
    && (forall n: nat :: n < |disk| ==> BlockOk(n, bufs, where, flat, disk))
  }

  /** Changing one buffer in place, for the same block. */
  lemma SetBuf(bufs: seq<Buf>, where: map<nat, nat>, flat: Disk, disk: Disk, i: nat, b: Buf, flat': Disk, disk': Disk)
    requires Coherent(bufs, where, flat, disk) && i < NBUF && 0 <= b.blockno == bufs[i].blockno
    requires |flat'| == |disk'| == |disk|
    requires forall n :: 0 <= n < |disk| && n != b.blockno ==> flat'[n] == flat[n] && disk'[n] == disk[n]
    requires BufOk(b, i, where, flat', disk')
    ensures Coherent(bufs[i := b], where, flat', disk')
  {
    assert BufOk(bufs[i], i, where, flat, disk);
    var bufs' := bufs[i := b];
    forall j: nat | j < NBUF ensures BufOk(bufs'[j], j, where, flat', disk') {
      assert BufOk(bufs[j], j, where, flat, disk);
    }
    forall n: nat | n < |disk| ensures BlockOk(n, bufs', where, flat', disk') {
      assert BlockOk(n, bufs, where, flat, disk);
    }
  }

  /** Giving a clean unused buffer to another block. */
  lemma Recycle(bufs: seq<Buf>, where: map<nat, nat>, flat: Disk, disk: Disk, i: nat, n: nat)
    requires Coherent(bufs, where, flat, disk) && i < NBUF && n < |disk| && n !in where
    requires !Pinned(bufs[i])
    ensures var w := map x | x in where && where[x] != i :: where[x];
      Coherent(bufs[i := Buf(true, false, false, n, bufs[i].data)], w[n := i], flat, disk)
  {
    var w := (map x | x in where && where[x] != i :: where[x])[n := i];
    var bufs' := bufs[i := Buf(true, false, false, n, bufs[i].data)];
    assert BufOk(bufs[i], i, where, flat, disk);
    assert BlockOk(n, bufs, where, flat, disk);
    forall j: nat | j < NBUF ensures BufOk(bufs'[j], j, w, flat, disk) {
      assert BufOk(bufs[j], j, where, flat, disk);
    }
    forall x: nat | x < |disk| ensures BlockOk(x, bufs', w, flat, disk) {
      assert BlockOk(x, bufs, where, flat, disk);
    }
  }

  /** If every buffer were pinned, the pinned blocks would be at least as many as the buffers. */
  lemma SomeBufferFree(bufs: seq<Buf>, where: map<nat, nat>, flat: Disk, disk: Disk, pinned: set<nat>)
    requires Coherent(bufs, where, flat, disk) && |pinned| < NBUF
    requires forall i: nat :: i < NBUF && Pinned(bufs[i]) ==> bufs[i].blockno in pinned
    ensures exists i: nat :: i < NBUF && !Pinned(bufs[i])
  {
    if forall i: nat :: i < NBUF ==> Pinned(bufs[i]) {
      var q := seq(NBUF, i requires 0 <= i < NBUF => if bufs[i].blockno < 0 then 0 else bufs[i].blockno as nat);
      forall i, j | 0 <= i < j < NBUF ensures q[i] != q[j] {
        assert BufOk(bufs[i], i, where, flat, disk) && BufOk(bufs[j], j, where, flat, disk);
      }
      forall i | 0 <= i < NBUF ensures q[i] in pinned {
        assert BufOk(bufs[i], i, where, flat, disk);
      }
      Pigeonhole(q, pinned);
      assert false;
    }
  }

  datatype BgetResult =
    | Got(i: nat)
    | MustSleep
    | NoBuffers

  class Bcache {
    var bufs: seq<Buf>
    var prev: seq<nat>
    var next: seq<nat>

    /** The device: one whole block is read or written at a time. */
    var disk: Disk

    ghost var order: seq<nat>
    ghost var where: map<nat, nat>

    /** Last-written contents of every block. */
    ghost var flat: Disk

    /** The disks that the block writes so far have left behind. */
    ghost var history: seq<Disk>

    ghost predicate Listed()
      reads this
    {
      && Ring(prev, next, order)
      && |order| == NBUF
      && forall i: nat :: i < NBUF ==> i in order
    }

    ghost predicate Valid()
      reads this
    {
      |bufs| == NBUF && |flat| == |disk| && Listed() && Coherent(bufs, where, flat, disk)
    }

    // binit: bio.c:40-56

    constructor (d: Disk)
      ensures Valid() && disk == d && flat == d && history == []
      ensures forall i :: 0 <= i < NBUF ==> !bufs[i].busy && !bufs[i].dirty
    {
      bufs := seq(NBUF, i => Buf(false, false, false, -1, []));
      prev := seq(NBUF + 1, i => HEAD);
      next := seq(NBUF + 1, i => HEAD);
      disk := d;
      order, where, flat, history := [], map[], d, [];
      new;
      for b := 0 to NBUF
        invariant Ring(prev, next, order) && |order| == b
        invariant forall i: nat :: i < NBUF ==> (i in order <==> i < b)
        invariant bufs == seq(NBUF, i => Buf(false, false, false, -1, []))
        invariant disk == d == flat && where == map[] && history == []
      {
        RingPush(prev, next, order, b);
        next := next[b := next[HEAD]];
        prev := prev[b := HEAD];
        bufs := bufs[b := bufs[b].(blockno := -1)];
        prev := prev[next[HEAD] := b];
        next := next[HEAD := b];
        order := [b] + order;
      }
    }

    /** Somebody holds the buffer of the block. */
    ghost predicate Held(n: nat)
      reads this
    {
      n in where && where[n] < |bufs| && bufs[where[n]].busy
    }

    /** The first loop of bget: bio.c:70-80. */
    method FindCached(n: nat) returns (i: nat)
      requires Valid() && n < |disk|
      ensures i == HEAD ==> n !in where
      ensures i != HEAD ==> i < NBUF && n in where && where[n] == i && bufs[i].blockno == n
    {
      hide Coherent;
      i := next[HEAD];
      ghost var k := 0;
      assert next[El(order, -1)] == El(order, 0);
      while i != HEAD
        invariant 0 <= k <= |order| && i == El(order, k)
        invariant forall j :: 0 <= j < k ==> bufs[order[j]].blockno != n
        decreases |order| - k
      {
        if bufs[i].blockno == n {
          CoherentAt(bufs, where, flat, disk, i);
          return;
        }
        assert next[El(order, k)] == El(order, k + 1);
        i := next[i];
        k := k + 1;
      }
      forall j: nat | j < NBUF ensures bufs[j].blockno != n {
        assert j in order;
      }
      CoherentNot(bufs, where, flat, disk, n);
    }

    /** The second loop of bget, from the least recently used end: bio.c:85-93. */
    method FindVictim() returns (i: nat)
      requires Valid()
      ensures i == HEAD ==> forall j: nat :: j < NBUF ==> Pinned(bufs[j])
      ensures i != HEAD ==> i < NBUF && !Pinned(bufs[i])
      ensures i != HEAD ==> forall j :: IndexOf(order, i) < j < |order| ==> Pinned(bufs[order[j]])
    {
      hide Coherent;
      i := prev[HEAD];
      ghost var k := |order| - 1;
      assert prev[El(order, (|order| - 1) + 1)] == El(order, |order| - 1);
      while i != HEAD
        invariant -1 <= k < |order| && i == El(order, k)
        invariant forall j :: k < j < |order| ==> Pinned(bufs[order[j]])
        decreases k
      {
        if !bufs[i].busy && !bufs[i].dirty {
          IndexOfUnique(order, k);
          return;
        }
        assert prev[El(order, (k - 1) + 1)] == El(order, k - 1);
        i := prev[i];
        k := k - 1;
      }
      forall j: nat | j < NBUF ensures Pinned(bufs[j]) {
        assert j in order;
      }
    }

    // bget and bread: bio.c:61-108

    method Bget(n: nat) returns (r: BgetResult)
      requires Valid() && n < |disk|
      modifies this`bufs, this`where
      ensures Valid()
      ensures r.MustSleep? <==> old(Held(n))
      ensures r.NoBuffers? <==> n !in old(where) && forall i: nat :: i < NBUF ==> Pinned(old(bufs)[i])
      ensures !r.Got? ==> bufs == old(bufs) && where == old(where)
      ensures r.Got? ==>
        && r.i < NBUF && n in where && where[n] == r.i
        && bufs == old(bufs)[r.i := bufs[r.i]]
        && old(!bufs[r.i].busy)
        && bufs[r.i].busy && bufs[r.i].blockno == n
      ensures r.Got? && old(n in where) ==>
        old(where[n]) == r.i && where == old(where) && bufs[r.i] == old(bufs[r.i]).(busy := true)
      ensures r.Got? && old(n !in where) ==>
        && !Pinned(old(bufs)[r.i]) && !bufs[r.i].valid && !bufs[r.i].dirty
        && (forall j :: IndexOf(order, r.i) < j < |order| ==> Pinned(old(bufs)[order[j]]))
        && (forall x :: x in old(where) && old(where[x]) != r.i ==> x in where && where[x] == old(where[x]))
    {
      hide Coherent, Ring;
      CoherentLookup(bufs, where, flat, disk, n);
      var i := FindCached(n);
      if i != HEAD {
        if bufs[i].busy {
          return MustSleep;
        }
        Hold(bufs, where, flat, disk, i);
        bufs := bufs[i := bufs[i].(busy := true)];
        return Got(i);
      }
      i := FindVictim();
      if i == HEAD {
        return NoBuffers;
      }
      Recycle(bufs, where, flat, disk, i, n);
      bufs := bufs[i := Buf(true, false, false, n, bufs[i].data)];
      where := (map x | x in where && where[x] != i :: where[x])[n := i];
      return Got(i);
    }

    /** A buffer with the last-written contents of the block, or why there is none. */
    method Bread(n: nat) returns (r: BgetResult)
      requires Valid() && n < |disk|
      modifies this`bufs, this`where
      ensures Valid()
      ensures r.MustSleep? <==> old(Held(n))
      ensures r.NoBuffers? <==> n !in old(where) && forall i: nat :: i < NBUF ==> Pinned(old(bufs)[i])
      ensures !r.Got? ==> bufs == old(bufs) && where == old(where)
      ensures r.Got? ==>
        && r.i < NBUF && n in where && where[n] == r.i
        && bufs == old(bufs)[r.i := bufs[r.i]]
        && !old(bufs)[r.i].busy
        && bufs[r.i] == Buf(true, true, old(n in where) && old(bufs)[r.i].dirty, n, flat[n])
        && (n !in old(where) ==> !Pinned(old(bufs)[r.i]))
        && (n in old(where) ==> old(where[n]) == r.i && where == old(where))
      ensures r.Got? ==> forall x :: x in old(where) && old(where[x]) != r.i ==> x in where && where[x] == old(where[x])
    {
      hide Coherent, Ring;
      r := Bget(n);
      if r.Got? {
        CoherentAt(bufs, where, flat, disk, r.i);
        if !bufs[r.i].valid {
          SetBuf(bufs, where, flat, disk, r.i, bufs[r.i].(valid := true, data := disk[n]), flat, disk);
          bufs := bufs[r.i := bufs[r.i].(valid := true, data := disk[n])];
        }
      }
    }

    /** The holder of a buffer changes its data. */
    method Store(i: nat, v: Block)
      requires Valid() && i < NBUF && bufs[i].busy && bufs[i].valid
      modifies this`bufs, this`flat
      ensures Valid() && old(0 <= bufs[i].blockno < |flat|)
      ensures bufs == old(bufs)[i := old(bufs[i]).(data := v)]
      ensures flat == old(flat)[bufs[i].blockno := v]
    {
      hide Coherent, Ring;
      CoherentAt(bufs, where, flat, disk, i);
      SetBuf(bufs, where, flat, disk, i, bufs[i].(data := v), flat[bufs[i].blockno := v], disk);
      flat := flat[bufs[i].blockno := v];
      bufs := bufs[i := bufs[i].(data := v)];
    }

    /** log_write marks the buffer so that it stays in the cache. */
    method MarkDirty(i: nat)
      requires Valid() && i < NBUF && bufs[i].busy && bufs[i].valid
      modifies this`bufs
      ensures Valid() && bufs == old(bufs)[i := old(bufs[i]).(dirty := true)]
    {
      hide Coherent, Ring;
      CoherentAt(bufs, where, flat, disk, i);
      SetBuf(bufs, where, flat, disk, i, bufs[i].(dirty := true), flat, disk);
      bufs := bufs[i := bufs[i].(dirty := true)];
    }

    // bwrite and brelse: bio.c:111-141

    method Bwrite(i: nat)
      requires Valid() && i < NBUF && bufs[i].busy && bufs[i].valid
      modifies this`bufs, this`disk, this`history
      ensures Valid() && old(0 <= bufs[i].blockno < |flat|)
      ensures bufs == old(bufs)[i := old(bufs[i]).(dirty := false)]
      ensures disk == old(disk)[bufs[i].blockno := bufs[i].data]
      ensures history == old(history) + [disk]
    {
      hide Coherent, Ring;
      CoherentAt(bufs, where, flat, disk, i);
      var n := bufs[i].blockno;
      SetBuf(bufs, where, flat, disk, i, bufs[i].(dirty := false), flat, disk[n := bufs[i].data]);
      ghost var was := bufs;
      bufs := bufs[i := bufs[i].(dirty := true)];
      disk := disk[n := bufs[i].data];
      history := history + [disk];
      bufs := bufs[i := bufs[i].(dirty := false, valid := true)];
      assert bufs == was[i := was[i].(dirty := false)];
    }

    method Brelse(i: nat)
      requires Valid() && i < NBUF && bufs[i].busy && bufs[i].valid
      requires bufs[i].dirty || (0 <= bufs[i].blockno < |disk| && disk[bufs[i].blockno] == bufs[i].data)
      modifies this`bufs, this`prev, this`next, this`order
      ensures Valid()
      ensures bufs == old(bufs)[i := old(bufs[i]).(busy := false)]
      ensures order == [i] + Without(old(order), i)
    {
      hide Coherent;
      CoherentAt(bufs, where, flat, disk, i);
      SetBuf(bufs, where, flat, disk, i, bufs[i].(busy := false), flat, disk);
      MoveToFront(i);
      bufs := bufs[i := bufs[i].(busy := false)];
    }

    /** Unlink the buffer and put it at the most recently used end. */
    method MoveToFront(b: nat)
      requires Listed() && b < NBUF
      modifies this`prev, this`next, this`order
      ensures Listed() && order == [b] + Without(old(order), b)
    {
      hide Ring;
      ghost var k := IndexOf(order, b);
      ghost var rest := order[..k] + order[k + 1..];
      RingUnlink(prev, next, order, k);
      RingRange(prev, next, order);
      prev := prev[next[b] := prev[b]];
      next := next[prev[b] := next[b]];
      RingRest(order, k);
      RingPush(prev, next, rest, b);
      next := next[b := next[HEAD]];
      prev := prev[b := HEAD];
      prev := prev[next[HEAD] := b];
      next := next[HEAD := b];
      order := [b] + rest;
    }
  }

  lemma RingRange(prev: seq<nat>, next: seq<nat>, order: seq<nat>)
    requires Ring(prev, next, order)
    ensures |prev| == |next| == NBUF + 1 && NoDup(order) && forall i :: 0 <= i < |order| ==> order[i] < NBUF
  {}

  lemma RingRest(order: seq<nat>, k: nat)
    requires NoDup(order) && k < |order| == NBUF && (forall i: nat :: i < NBUF ==> i in order)
    ensures var r := order[..k] + order[k + 1..];
      && r == Without(order, order[k])
      && order[k] !in r
      && (forall i: nat :: i < NBUF ==> i in [order[k]] + r)
  {
    WithoutIsSplice(order, k);
    WithoutMembers(order, order[k]);
  }

  lemma CoherentAt(bufs: seq<Buf>, where: map<nat, nat>, flat: Disk, disk: Disk, i: nat)
    requires Coherent(bufs, where, flat, disk) && i < NBUF
    ensures BufOk(bufs[i], i, where, flat, disk)
  {}

  lemma CoherentNot(bufs: seq<Buf>, where: map<nat, nat>, flat: Disk, disk: Disk, n: nat)
    requires Coherent(bufs, where, flat, disk) && n < |disk|
    requires forall i :: 0 <= i < NBUF ==> bufs[i].blockno != n
    ensures n !in where
  {
    assert BlockOk(n, bufs, where, flat, disk);
  }

  lemma CoherentLookup(bufs: seq<Buf>, where: map<nat, nat>, flat: Disk, disk: Disk, n: nat)
    requires Coherent(bufs, where, flat, disk) && n < |disk|
    ensures n in where ==> where[n] < NBUF && bufs[where[n]].blockno == n
  {
    assert BlockOk(n, bufs, where, flat, disk);
  }

  lemma Hold(bufs: seq<Buf>, where: map<nat, nat>, flat: Disk, disk: Disk, i: nat)
    requires Coherent(bufs, where, flat, disk) && i < NBUF && bufs[i].blockno >= 0
    ensures Coherent(bufs[i := bufs[i].(busy := true)], where, flat, disk)
  {
    assert BufOk(bufs[i], i, where, flat, disk);
    SetBuf(bufs, where, flat, disk, i, bufs[i].(busy := true), flat, disk);
  }
}
