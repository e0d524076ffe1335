/**
 log.c in its own form, on top of the buffer cache. Every block write of a commit or a recovery is the
 next step of the machine of module LogModel, so what is proved of that machine holds of this code.
 */
module Log {
  import opened Seqs
  import opened LogModel
  import opened CrashSafety
  import opened BufferCache

  /** Exactly the blocks of `dirty` are pinned by the log, and exactly those of `held` are in use. */
  ghost predicate PinAt(b: Buf, dirty: set<nat>, held: set<nat>) {
    && (b.dirty <==> b.blockno in dirty)
    && (b.busy <==> b.blockno in held)
  }

  ghost predicate Pins(bufs: seq<Buf>, where: map<nat, nat>, dirty: set<nat>, held: set<nat>) {
    && |bufs| == NBUF
    && (forall i :: 0 <= i < NBUF ==> PinAt(bufs[i], dirty, held))
    && dirty <= where.Keys && held <= where.Keys
  }

  /** A block that is neither pinned nor in use is the same in memory and on disk. */
  lemma Synced(bufs: seq<Buf>, where: map<nat, nat>, flat: Disk, disk: Disk, dirty: set<nat>, held: set<nat>, n: nat)
    requires Coherent(bufs, where, flat, disk) && Pins(bufs, where, dirty, held)
    requires n < |disk| && n !in dirty && n !in held
    ensures |flat| == |disk| && flat[n] == disk[n]
  {
    assert BlockOk(n, bufs, where, flat, disk);
    if n in where {
      assert BufOk(bufs[where[n]], where[n], where, flat, disk);
      assert PinAt(bufs[where[n]], dirty, held);
    }
  }

  lemma SubsetSize(a: set<nat>, b: set<nat>)
    requires a <= b
    ensures |a| <= |b|
  {
    assert b == a + (b - a);
  }

  /** Fewer blocks than buffers are pinned or in use. */
  ghost predicate Room(dirty: set<nat>, held: set<nat>) {
    |dirty + held| < NBUF
  }

  /** bget finds a buffer to recycle exactly if fewer blocks than buffers are pinned or in use. */
  lemma BufferLeft(bufs: seq<Buf>, where: map<nat, nat>, flat: Disk, disk: Disk, dirty: set<nat>, held: set<nat>)
    requires Coherent(bufs, where, flat, disk) && Pins(bufs, where, dirty, held)
    ensures (exists i: nat :: i < NBUF && !Pinned(bufs[i])) <==> Room(dirty, held)
  {
    if |dirty + held| < NBUF {
      forall i: nat | i < NBUF && Pinned(bufs[i]) ensures bufs[i].blockno in dirty + held {
        assert PinAt(bufs[i], dirty, held);
      }
      SomeBufferFree(bufs, where, flat, disk, dirty + held);
    }
    forall i: nat | i < NBUF && !Pinned(bufs[i]) ensures |dirty + held| < NBUF {
      FreeBuffer(bufs, where, flat, disk, dirty, held, i);
    }
  }

  lemma PinnedElsewhere(bufs: seq<Buf>, where: map<nat, nat>, flat: Disk, disk: Disk, dirty: set<nat>, held: set<nat>,
                        i: nat, d: nat)
    requires Coherent(bufs, where, flat, disk) && Pins(bufs, where, dirty, held)
    requires i < NBUF && !Pinned(bufs[i]) && d in dirty + held
    ensures d in where && where[d] < NBUF && where[d] != i && bufs[where[d]].blockno == d
  {
    assert BlockOk(d, bufs, where, flat, disk);
    assert PinAt(bufs[where[d]], dirty, held) && PinAt(bufs[i], dirty, held);
  }

  lemma FreeBuffer(bufs: seq<Buf>, where: map<nat, nat>, flat: Disk, disk: Disk, dirty: set<nat>, held: set<nat>,
      i: nat)
    requires Coherent(bufs, where, flat, disk) && Pins(bufs, where, dirty, held) && i < NBUF && !Pinned(bufs[i])
    ensures |dirty + held| < NBUF
  {
    assert |bufs| == NBUF;
    hide Coherent, Pins;
    var q := seq(NBUF, j requires 0 <= j < NBUF => if bufs[j].blockno < 0 then 0 else bufs[j].blockno as nat);
    var rest := q[..i] + q[i + 1..];
    ElementsAre(rest);
    forall d | d in dirty + held ensures d in rest {
      PinnedElsewhere(bufs, where, flat, disk, dirty, held, i, d);
      var j := where[d];
      assert q[j] == d;
      assert rest[if j < i then j else j - 1] == q[j];
    }
    SubsetSize(dirty + held, Elements(rest));
  }

  lemma NotHeld(bufs: seq<Buf>, where: map<nat, nat>, flat: Disk, disk: Disk, dirty: set<nat>, held: set<nat>, n: nat)
    requires Coherent(bufs, where, flat, disk) && Pins(bufs, where, dirty, held) && n < |disk| && n !in held
    ensures n in where ==> where[n] < NBUF && !bufs[where[n]].busy && (bufs[where[n]].dirty <==> n in dirty)
    ensures n in dirty ==> n in where
  {
    assert BlockOk(n, bufs, where, flat, disk);
    if n in where {
      assert PinAt(bufs[where[n]], dirty, held);
    }
  }

  /** What bread does to the pins. */
  lemma PinsGot(bufs: seq<Buf>, where: map<nat, nat>, bufs': seq<Buf>, where': map<nat, nat>, flat: Disk, disk: Disk,
                dirty: set<nat>, held: set<nat>, n: nat, i: nat)
    requires Coherent(bufs, where, flat, disk) && Pins(bufs, where, dirty, held) && n < |disk|
    requires i < NBUF && bufs' == bufs[i := Buf(true, true, n in where && bufs[i].dirty, n, flat[n])]
    requires n in where ==> where[n] == i && where' == where
    requires n !in where ==> !Pinned(bufs[i])
    requires n in where' && forall x :: x in where && where[x] != i ==> x in where'
    ensures Pins(bufs', where', dirty, held + {n})
  {
    assert PinAt(bufs[i], dirty, held);
    assert BufOk(bufs[i], i, where, flat, disk);
    forall j | 0 <= j < NBUF ensures PinAt(bufs'[j], dirty, held + {n}) {
      assert PinAt(bufs[j], dirty, held);
      assert BufOk(bufs[j], j, where, flat, disk);
      if j == i && n in where {
        assert BlockOk(n, bufs, where, flat, disk);
      }
    }
    forall d | d in dirty + held ensures d in where' {
      assert BlockOk(d, bufs, where, flat, disk);
      assert PinAt(bufs[where[d]], dirty, held);
    }
  }

  /** What brelse does to the pins. */
  lemma PinsPut(bufs: seq<Buf>, where: map<nat, nat>, flat: Disk, disk: Disk, dirty: set<nat>, held: set<nat>, i: nat)
    requires Coherent(bufs, where, flat, disk) && Pins(bufs, where, dirty, held) && i < NBUF && bufs[i].blockno >= 0
    ensures Pins(bufs[i := bufs[i].(busy := false)], where, dirty, held - {bufs[i].blockno as nat})
  {
    var bufs' := bufs[i := bufs[i].(busy := false)];
    forall j | 0 <= j < NBUF ensures PinAt(bufs'[j], dirty, held - {bufs[i].blockno as nat}) {
      assert PinAt(bufs[j], dirty, held);
      assert BufOk(bufs[j], j, where, flat, disk) && BufOk(bufs[i], i, where, flat, disk);
    }
  }

  /** What setting or clearing B_DIRTY does to the pins. */
  lemma PinsDirty(bufs: seq<Buf>, where: map<nat, nat>, flat: Disk, disk: Disk, dirty: set<nat>, held: set<nat>, i: nat,
      on: bool)
    requires Coherent(bufs, where, flat, disk) && Pins(bufs, where, dirty, held) && i < NBUF && bufs[i].blockno >= 0
    ensures var n := bufs[i].blockno as nat;
      Pins(bufs[i := bufs[i].(dirty := on)], where, if on then dirty + {n} else dirty - {n}, held)
  {
    var n := bufs[i].blockno as nat;
    var bufs' := bufs[i := bufs[i].(dirty := on)];
    assert BufOk(bufs[i], i, where, flat, disk);
    forall j | 0 <= j < NBUF ensures PinAt(bufs'[j], if on then dirty + {n} else dirty - {n}, held) {
      assert PinAt(bufs[j], dirty, held);
      assert BufOk(bufs[j], j, where, flat, disk);
    }
  }

  // Following the machine through a commit or a recovery

  /** `m` with history `h` is on the way from `m0` with history `h0` to where `m0` leads without a crash. */
  ghost predicate OnWay(L: Layout, h: seq<Disk>, m: Machine, h0: seq<Disk>, m0: Machine) {
    && Inv(L, m) && Inv(L, m0)
    && h + RunDisks(L, m) == h0 + RunDisks(L, m0)
    && RunEnd(L, m) == RunEnd(L, m0)
  }

  lemma OnWayStep(L: Layout, h: seq<Disk>, m: Machine, h0: seq<Disk>, m0: Machine)
    requires OnWay(L, h, m, h0, m0) && Enabled(L, m, DiskWrite)
    ensures OnWay(L, h + [DoDiskWrite(L, m).disk], DoDiskWrite(L, m), h0, m0)
  {
    hide Inv;
    ToGoDrops(L, m);
    var r := DoDiskWrite(L, m);
    assert h + [r.disk] + RunDisks(L, r) == h + ([r.disk] + RunDisks(L, r));
  }

  lemma OnWayEnd(L: Layout, h: seq<Disk>, m: Machine, h0: seq<Disk>, m0: Machine)
    requires OnWay(L, h, m, h0, m0) && m.phase.Up?
    ensures h == h0 + RunDisks(L, m0) && m == RunEnd(L, m0)
  {
    assert RunDisks(L, m) == [];
  }

  /** The next write of a commit or recovery that is installing. */
  lemma InstallingAt(L: Layout, m: Machine, k: nat, boot: bool)
    requires Inv(L, m) && m.phase == Installing(k, boot)
    ensures Enabled(L, m, DiskWrite) && DiskOk(L, m.disk) && DiskOk(L, m.mem)
    ensures k <= |m.blocks| <= LOGSIZE && |m.blocks| < L.size && NoDup(m.blocks)
    ensures forall i :: 0 <= i < |m.blocks| ==> Home(L, m.blocks[i])
    ensures k < |m.blocks| ==>
      var v := m.disk[L.start + 1 + k];
      DoDiskWrite(L, m) == Machine(m.disk[m.blocks[k] := v], m.mem[m.blocks[k] := v], m.blocks, m.ops,
        Installing(k + 1, boot))
    ensures k == |m.blocks| ==>
      var v := Header(m.disk[L.start], []);
      DoDiskWrite(L, m) == Machine(m.disk[L.start := v], m.mem[L.start := v], [], m.ops, Up)
  {}

  /** The next write of a commit that is still logging. */
  lemma LoggingAt(L: Layout, m: Machine, k: nat)
    requires Inv(L, m) && m.phase == Logging(k)
    ensures Enabled(L, m, DiskWrite) && DiskOk(L, m.disk) && DiskOk(L, m.mem) && |m.blocks| <= LOGSIZE
      && |m.blocks| < L.size
    ensures forall i :: 0 <= i < |m.blocks| ==> Home(L, m.blocks[i])
    ensures k < |m.blocks| ==>
      && Home(L, m.blocks[k])
      && var v := m.mem[m.blocks[k]];
         DoDiskWrite(L, m) == Machine(m.disk[L.start + 1 + k := v], m.mem[L.start + 1 + k := v], m.blocks, m.ops,
           Logging(k + 1))
    ensures k == |m.blocks| ==>
      var v := Header(m.disk[L.start], m.blocks);
      DoDiskWrite(L, m) == Machine(m.disk[L.start := v], m.mem[L.start := v], m.blocks, m.ops, Installing(0, false))
  {}

  /** The log region is never pinned, and not in use. */
  ghost predicate Apart(L: Layout, held: set<nat>) {
    forall x :: x in held ==> Home(L, x)
  }

  class Logger {
    const L: Layout
    const bc: Bcache
    var n: nat
    var block: seq<nat>
    var outstanding: int
    var committing: bool
    var panicked: bool

    /** Per operation in progress, the number of its log_write calls. */
    ghost var ops: map<nat, nat>

    ghost predicate Shape()
      reads this, bc
    {
      && bc.Valid()
      && |bc.disk| == |bc.flat| == L.nblocks
      && |bc.bufs| == NBUF
      && n <= LOGSIZE == |block|
      && Fits(L)
    }

    ghost function M(phase: Phase): Machine
      requires Shape()
      reads this, bc
    {
      Machine(bc.disk, bc.flat, block[..n], ops, phase)
    }

    constructor (layout: Layout, cache: Bcache)
      requires cache.Valid() && Fits(layout) && |cache.disk| == layout.nblocks
      ensures Shape() && L == layout && bc == cache
      ensures n == 0 && outstanding == 0 && !committing && !panicked && ops == map[]
    {
      L, bc := layout, cache;
      n, block := 0, seq(LOGSIZE, i => 0);
      outstanding, committing, panicked, ops := 0, false, false, map[];
    }

    // Buffers

    /** bread of a block that is not in use; it panics exactly if all buffers are taken by other blocks. */
    method Get(x: nat, ghost dirty: set<nat>, ghost held: set<nat>) returns (i: nat, ok: bool)
      requires Shape() && Pins(bc.bufs, bc.where, dirty, held) && x < L.nblocks && x !in held
      modifies bc`bufs, bc`where
      ensures ok <==> x in dirty || Room(dirty, held)
      ensures !ok ==> bc.bufs == old(bc.bufs) && bc.where == old(bc.where)
      ensures ok ==>
        && Shape() && Pins(bc.bufs, bc.where, dirty, held + {x})
        && i < NBUF && bc.bufs[i] == Buf(true, true, x in dirty, x, bc.flat[x])
        && bc.bufs == old(bc.bufs)[i := bc.bufs[i]] && !old(bc.bufs)[i].busy
    {
      hide Room, Coherent, Pins, Ring;
      NotHeld(bc.bufs, bc.where, bc.flat, bc.disk, dirty, held, x);
      BufferLeft(bc.bufs, bc.where, bc.flat, bc.disk, dirty, held);
      ghost var bufs0, where0 := bc.bufs, bc.where;
      assert bc.Valid();
      var r := bc.Bread(x);
      if r.NoBuffers? {
        return 0, false;
      }
      i, ok := r.i, true;
      assert x in where0 && x !in dirty ==> !Pinned(bufs0[where0[x]]);
      PinsGot(bufs0, where0, bc.bufs, bc.where, bc.flat, bc.disk, dirty, held, x, i);
    }

    /** brelse of a buffer whose block is pinned or unchanged. */
    method Put(i: nat, ghost dirty: set<nat>, ghost held: set<nat>)
      requires Shape() && Pins(bc.bufs, bc.where, dirty, held)
      requires i < NBUF && bc.bufs[i].busy && bc.bufs[i].valid && 0 <= bc.bufs[i].blockno < L.nblocks
      requires bc.bufs[i].dirty || bc.disk[bc.bufs[i].blockno] == bc.bufs[i].data
      modifies bc`bufs, bc`prev, bc`next, bc`order
      ensures Shape() && Pins(bc.bufs, bc.where, dirty, held - {old(bc.bufs[i].blockno) as nat})
      ensures bc.bufs == old(bc.bufs)[i := old(bc.bufs[i]).(busy := false)]
    {
      hide Room, Coherent, Pins, Ring;
      PinsPut(bc.bufs, bc.where, bc.flat, bc.disk, dirty, held, i);
      bc.Brelse(i);
    }

    /** bwrite of new contents into a held buffer: memory and disk both get them, and the pin goes. */
    method WriteThrough(i: nat, v: Block, ghost dirty: set<nat>, ghost held: set<nat>)
      requires Shape() && Pins(bc.bufs, bc.where, dirty, held)
      requires i < NBUF && bc.bufs[i].busy && bc.bufs[i].valid && 0 <= bc.bufs[i].blockno < L.nblocks
      modifies bc`bufs, bc`flat, bc`disk, bc`history
      ensures Shape()
      ensures bc.bufs == old(bc.bufs)[i := old(bc.bufs[i]).(data := v, dirty := false)]
      ensures var x := old(bc.bufs[i].blockno) as nat;
        && Pins(bc.bufs, bc.where, dirty - {x}, held)
        && bc.flat == old(bc.flat)[x := v] && bc.disk == old(bc.disk)[x := v]
        && bc.history == old(bc.history) + [bc.disk]
    {
      hide Room, Coherent, Pins, Ring;
      PinsData(bc.bufs, bc.where, dirty, held, i, v);
      bc.Store(i, v);
      PinsDirty(bc.bufs, bc.where, bc.flat, bc.disk, dirty, held, i, false);
      bc.Bwrite(i);
    }

    // write_log: log.c:174-187

    /** One round of the loop; the bread of the log block may find no buffer. */
    method LogOne(tail: nat, ghost dirty: set<nat>, ghost held: set<nat>) returns (ok: bool)
      requires Shape() && Pins(bc.bufs, bc.where, dirty, held)
      requires tail < n && n < L.size && Home(L, block[tail]) && block[tail] in dirty
      requires L.start + 1 + tail !in dirty && L.start + 1 + tail !in held && block[tail] !in held
      modifies bc
      ensures ok <==> Room(dirty, held)
      ensures Shape() && Pins(bc.bufs, bc.where, dirty, held)
      ensures !ok ==> bc.disk == old(bc.disk) && bc.flat == old(bc.flat) && bc.history == old(bc.history)
      ensures ok ==>
        && bc.disk == old(bc.disk)[L.start + 1 + tail := old(bc.flat)[block[tail]]]
        && bc.flat == old(bc.flat)[L.start + 1 + tail := old(bc.flat)[block[tail]]]
        && bc.history == old(bc.history) + [bc.disk]
    {
      hide Room, Coherent, Pins, Ring;
      ghost var x := L.start + 1 + tail;
      ghost var h1 := held + {x};
      ghost var h2 := h1 + {block[tail]};
      assert h2 - {block[tail]} == h1 && h1 - {x} == held && dirty - {x} == dirty;
      var to;
      to, ok := Get(L.start + 1 + tail, dirty, held);
      if !ok {
        return;
      }
      var from, _ := Get(block[tail], dirty, h1);
      WriteThrough(to, bc.bufs[from].data, dirty, h2);
      Put(from, dirty, h2);
      Put(to, dirty, h1);
    }

    // install_trans: log.c:69-81

    method InstallOne(tail: nat, ghost dirty: set<nat>, ghost held: set<nat>)
      requires Shape() && Pins(bc.bufs, bc.where, dirty, held)
      requires tail < n && n < L.size && Home(L, block[tail]) && Room(dirty, held)
      requires block[tail] in dirty || Room(dirty, held + {L.start + 1 + tail})
      requires L.start + 1 + tail !in dirty && L.start + 1 + tail !in held && block[tail] !in held
      modifies bc
      ensures Shape() && Pins(bc.bufs, bc.where, dirty - {block[tail]}, held)
      ensures bc.disk == old(bc.disk)[block[tail] := old(bc.disk)[L.start + 1 + tail]]
      ensures bc.flat == old(bc.flat)[block[tail] := old(bc.disk)[L.start + 1 + tail]]
      ensures bc.history == old(bc.history) + [bc.disk]
    {
      hide Room, Coherent, Pins, Ring;
      ghost var x := L.start + 1 + tail;
      Synced(bc.bufs, bc.where, bc.flat, bc.disk, dirty, held, x);
      ghost var h1 := held + {x};
      ghost var h2 := h1 + {block[tail]};
      ghost var h3 := held + {block[tail]};
      ghost var rest := dirty - {block[tail]};
      assert h2 - {x} == h3 && h3 - {block[tail]} == held;
      var lbuf, _ := Get(L.start + 1 + tail, dirty, held);
      var dbuf, _ := Get(block[tail], dirty, h1);
      WriteThrough(dbuf, bc.bufs[lbuf].data, dirty, h2);
      Put(lbuf, rest, h2);
      Put(dbuf, rest, h3);
    }

    // write_head and read_head: log.c:84-112

    /** The header block with the blocks in memory, the rest of it as it was. */
    method FillHeader(was: Block) returns (hb: Block)
      requires |was| == WORDS && n <= LOGSIZE == |block|
      ensures hb == Header(was, block[..n])
    {
      hb := was[0 := n];
      for i := 0 to n
        invariant |hb| == WORDS && hb[0] == n
        invariant forall j :: 0 <= j < i ==> hb[1 + j] == block[j]
        invariant forall j :: i < j < WORDS ==> hb[j] == was[j]
      {
        hb := hb[1 + i := block[i]];
      }
    }

    method WriteHead(ghost dirty: set<nat>, ghost held: set<nat>)
      requires Shape() && Pins(bc.bufs, bc.where, dirty, held) && |bc.disk[L.start]| == WORDS
      requires L.start !in dirty && L.start !in held && Room(dirty, held)
      modifies bc
      ensures Shape() && Pins(bc.bufs, bc.where, dirty, held)
      ensures bc.disk == old(bc.disk)[L.start := Header(old(bc.disk[L.start]), block[..n])]
      ensures bc.flat == old(bc.flat)[L.start := Header(old(bc.disk[L.start]), block[..n])]
      ensures bc.history == old(bc.history) + [bc.disk]
    {
      hide Room, Coherent, Pins, Ring, Header;
      Synced(bc.bufs, bc.where, bc.flat, bc.disk, dirty, held, L.start);
      var buf, _ := Get(L.start, dirty, held);
      var hb := FillHeader(bc.bufs[buf].data);
      WriteThrough(buf, hb, dirty, held + {L.start});
      assert dirty - {L.start} == dirty;
      Put(buf, dirty, held + {L.start});
      assert held + {L.start} - {L.start} == held;
    }

    method ReadHead(ghost held: set<nat>)
      requires Shape() && Pins(bc.bufs, bc.where, {}, held) && HeaderOk(L, bc.disk)
      requires L.start !in held && |held| < NBUF
      modifies bc`bufs, bc`where, bc`prev, bc`next, bc`order, this`n, this`block
      ensures Shape() && Pins(bc.bufs, bc.where, {}, held)
      ensures block[..n] == Targets(L, bc.disk)
    {
      hide Room, Coherent, Pins, Ring;
      Synced(bc.bufs, bc.where, bc.flat, bc.disk, {}, held, L.start);
      BootRoom(held, L.start);
      var buf, _ := Get(L.start, {}, held);
      var lh := bc.bufs[buf].data;
      n := lh[0];
      for i := 0 to n
        modifies this`block
        invariant |block| == LOGSIZE
        invariant forall j :: 0 <= j < i ==> block[j] == lh[1 + j]
      {
        assert Home(L, Target(L, bc.disk, i));
        block := block[i := lh[1 + i]];
      }
      assert block[..n] == Targets(L, bc.disk);
      Put(buf, {}, held + {L.start});
      assert held + {L.start} - {L.start} == held;
    }

    // commit: log.c:190-199

    /** Copy the blocks to the log. The first bread panics exactly if no buffer is left, and nothing is written then. */
    method WriteLog(ghost held: set<nat>, ghost h0: seq<Disk>, ghost m0: Machine) returns (ok: bool)
      requires Shape() && OnWay(L, bc.history, M(Logging(0)), h0, m0)
      requires Pins(bc.bufs, bc.where, Elements(block[..n]), held) && Apart(L, held)
      requires Elements(block[..n]) !! held && n > 0
      modifies bc
      ensures ok <==> Room(Elements(block[..n]), held)
      ensures Shape() && Pins(bc.bufs, bc.where, Elements(block[..n]), held)
      ensures !ok ==> bc.disk == old(bc.disk) && bc.flat == old(bc.flat) && bc.history == old(bc.history)
      ensures ok ==> OnWay(L, bc.history, M(Logging(n)), h0, m0)
    {
      hide Room, Coherent, Pins, Ring, OnWay, Inv, DoDiskWrite, Enabled, Header;
      ghost var dirty := Elements(block[..n]);
      ok := true;
      for tail := 0 to n
        invariant Shape() && OnWay(L, bc.history, M(Logging(tail)), h0, m0)
        invariant Pins(bc.bufs, bc.where, dirty, held) && ok
        invariant tail > 0 ==> Room(dirty, held)
        invariant tail == 0 ==> bc.disk == old(bc.disk) && bc.flat == old(bc.flat) && bc.history == old(bc.history)
      {
        ok := LogNext(tail, dirty, held, h0, m0);
        if !ok {
          return;
        }
      }
    }

    method LogNext(tail: nat, ghost dirty: set<nat>, ghost held: set<nat>, ghost h0: seq<Disk>, ghost m0: Machine)
      returns (ok: bool)
      requires Shape() && tail < n && OnWay(L, bc.history, M(Logging(tail)), h0, m0)
      requires Pins(bc.bufs, bc.where, dirty, held) && Apart(L, held)
      requires dirty == Elements(block[..n]) && dirty !! held
      modifies bc
      ensures ok <==> Room(dirty, held)
      ensures Shape() && Pins(bc.bufs, bc.where, dirty, held)
      ensures !ok ==> bc.disk == old(bc.disk) && bc.flat == old(bc.flat) && bc.history == old(bc.history)
      ensures ok ==> OnWay(L, bc.history, M(Logging(tail + 1)), h0, m0)
    {
      hide Room, Coherent, Pins, Ring, OnWay, Inv, DoDiskWrite, Enabled, Header, DiskOk, Elements;
      ghost var m := M(Logging(tail));
      OnWayInv(L, bc.history, m, h0, m0);
      LoggingAt(L, m, tail);
      InUse(L, m.blocks, held, tail);
      OnWayStep(L, bc.history, m, h0, m0);
      ok := LogOne(tail, dirty, held);
    }

    method InstallNext(tail: nat, ghost boot: bool, ghost dirty: set<nat>, ghost held: set<nat>,
                       ghost h0: seq<Disk>, ghost m0: Machine)
      requires Shape() && tail < n && OnWay(L, bc.history, M(Installing(tail, boot)), h0, m0)
      requires Pins(bc.bufs, bc.where, dirty, held) && Apart(L, held) && Elements(block[..n]) !! held
      requires dirty == (if boot then {} else Elements(block[..n][tail..]))
      requires Room(dirty, held) && (boot ==> Room({}, held + {L.start + 1 + tail}))
      modifies bc
      ensures Shape() && OnWay(L, bc.history, M(Installing(tail + 1, boot)), h0, m0)
      ensures Pins(bc.bufs, bc.where, if boot then {} else Elements(block[..n][tail + 1..]), held)
    {
      hide Room, Coherent, Pins, Ring, OnWay, Inv, DoDiskWrite, Enabled, Header, DiskOk, Elements, NoDup;
      ghost var m := M(Installing(tail, boot));
      OnWayInv(L, bc.history, m, h0, m0);
      InstallingAt(L, m, tail, boot);
      InUse(L, m.blocks, held, tail);
      RestInUse(m.blocks, tail);
      OnWayStep(L, bc.history, m, h0, m0);
      InstallOne(tail, dirty, held);
      assert boot ==> {} - {block[tail]} == {};
    }

    method InstallTrans(ghost boot: bool, ghost held: set<nat>, ghost h0: seq<Disk>, ghost m0: Machine)
      requires Shape() && OnWay(L, bc.history, M(Installing(0, boot)), h0, m0)
      requires Pins(bc.bufs, bc.where, if boot then {} else Elements(block[..n]), held) && Apart(L, held)
      requires Elements(block[..n]) !! held && (if boot then |held| + 1 < NBUF else Room(Elements(block[..n]), held))
      modifies bc
      ensures Shape() && OnWay(L, bc.history, M(Installing(n, boot)), h0, m0)
      ensures Pins(bc.bufs, bc.where, {}, held)
    {
      hide Room, Coherent, Pins, Ring, OnWay, Inv, Elements;
      ghost var q := block[..n];
      assert q[0..] == q;
      for tail := 0 to n
        invariant Shape() && OnWay(L, bc.history, M(Installing(tail, boot)), h0, m0)
        invariant Pins(bc.bufs, bc.where, if boot then {} else Elements(q[tail..]), held)
      {
        if boot {
          BootRoom(held, L.start + 1 + tail);
        } else {
          RestRoom(q, tail, held);
        }
        InstallNext(tail, boot, if boot then {} else Elements(q[tail..]), held, h0, m0);
      }
      ElementsAre(q[n..]);
      assert q[n..] == [];
      assert Elements(q[n..]) == {};
    }

    /** n is zero in memory; writing the header clears the log and ends the commit or the recovery. */
    method ClearLog(ghost boot: bool, ghost held: set<nat>, ghost h0: seq<Disk>, ghost m0: Machine)
      requires Shape() && OnWay(L, bc.history, M(Installing(n, boot)), h0, m0)
      requires Pins(bc.bufs, bc.where, {}, held) && Apart(L, held) && Room({}, held)
      modifies bc, this`n
      ensures Shape() && Inv(L, M(Up)) && M(Up) == RunEnd(L, m0) && bc.history == h0 + RunDisks(L, m0)
      ensures n == 0 && Pins(bc.bufs, bc.where, {}, held)
    {
      hide Room, Coherent, Pins, Ring, Inv, DoDiskWrite, Enabled, Header, OnWay;
      ghost var m := M(Installing(n, boot));
      OnWayInv(L, bc.history, m, h0, m0);
      InstallingAt(L, m, n, boot);
      OnWayStep(L, bc.history, m, h0, m0);
      assert InLog(L, L.start);
      n := 0;
      WriteHead({}, held);
      assert block[..0] == [];
      OnWayInv(L, bc.history, M(Up), h0, m0);
      OnWayEnd(L, bc.history, M(Up), h0, m0);
    }

    /** The four steps of a commit. */
    method CommitAll(ghost held: set<nat>)
      requires Shape() && !panicked && Inv(L, M(Logging(0))) && Apart(L, held) && n > 0
      requires Pins(bc.bufs, bc.where, Elements(block[..n]), held) && Elements(block[..n]) !! held
      modifies bc, this`n, this`panicked
      ensures panicked <==> !Room(old(Elements(block[..n])), held)
      ensures panicked ==> bc.disk == old(bc.disk) && bc.history == old(bc.history)
      ensures !panicked ==>
        && Shape() && Inv(L, M(Up)) && n == 0 && Pins(bc.bufs, bc.where, {}, held)
        && M(Up) == RunEnd(L, old(M(Logging(0)))) && bc.history == old(bc.history) + RunDisks(L, old(M(Logging(0))))
    {
      hide Room, Coherent, Pins, Ring, DoDiskWrite, Enabled, Header, Elements, Inv, RunEnd, RunDisks;
      ghost var h0, m0 := bc.history, M(Logging(0));
      var ok := WriteLog(held, h0, m0);
      if !ok {
        panicked := true;
        return;
      }
      CommitHead(held, h0, m0);
      HeldRoom(block[..n], held);
      InstallTrans(false, held, h0, m0);
      ClearLog(false, held, h0, m0);
    }

    /**
     commit: the disk passes through the states of the machine's commit, each of which holds the old state
     or the new one. With something to commit and no buffer left for the first log block it panics
     instead, and the disk stays as it is.
     */
    method Commit(ghost held: set<nat>)
      requires Shape() && !panicked && Inv(L, M(Logging(0))) && Apart(L, held)
      requires Pins(bc.bufs, bc.where, Elements(block[..n]), held) && Elements(block[..n]) !! held
      modifies bc, this`n, this`panicked
      ensures panicked <==> old(n) > 0 && !Room(old(Elements(block[..n])), held)
      ensures panicked ==> bc.disk == old(bc.disk) && bc.history == old(bc.history)
      ensures !panicked ==>
        && Shape() && Inv(L, M(Up)) && n == 0 && Pins(bc.bufs, bc.where, {}, held)
        && var m := old(M(Logging(0)));
           if old(n) == 0 then M(Up) == m.(phase := Up) && bc.history == old(bc.history)
           else M(Up) == RunEnd(L, m) && bc.history == old(bc.history) + RunDisks(L, m)
      ensures AllLeave(L, bc.history, |old(bc.history)|, old(Durable(L, bc.disk)), old(HomeOf(L, bc.flat)))
      ensures !panicked && old(n) > 0 ==> HomeOf(L, bc.disk) == old(HomeOf(L, bc.flat))
    {
      hide Room, Coherent, Pins, Ring, Enabled, Elements, Inv, RunEnd, RunDisks, Durable, HomeOf;
      ghost var m := M(Logging(0));
      DiskFacts(L, m);
      RunLeaves(L, m, bc.history);
      RunEndIs(L, m);
      if n > 0 {
        CommitAll(held);
      } else {
        assert block[..n] == [];
        ElementsAre(block[..n]);
        assert Elements(block[..n]) == {};
        IdleUp(L, m);
      }
    }

    /** The header write at the end of logging: the commit point. */
    method CommitHead(ghost held: set<nat>, ghost h0: seq<Disk>, ghost m0: Machine)
      requires Shape() && OnWay(L, bc.history, M(Logging(n)), h0, m0)
      requires Pins(bc.bufs, bc.where, Elements(block[..n]), held) && Apart(L, held) && Room(Elements(block[..n]), held)
      modifies bc
      ensures Shape() && OnWay(L, bc.history, M(Installing(0, false)), h0, m0)
      ensures Pins(bc.bufs, bc.where, Elements(block[..n]), held)
    {
      hide Room, Coherent, Pins, Ring, Inv, DoDiskWrite, Enabled, Header, OnWay, Elements;
      ghost var m := M(Logging(n));
      OnWayInv(L, bc.history, m, h0, m0);
      LoggingAt(L, m, n);
      OnWayStep(L, bc.history, m, h0, m0);
      ElementsAre(m.blocks);
      assert InLog(L, L.start);
      WriteHead(Elements(m.blocks), held);
    }

    // recover_from_log: log.c:114-121

    method RecoverFromLog()
      requires Shape() && Inv(L, Machine(bc.disk, [], [], map[], Down)) && ops == map[]
      requires Pins(bc.bufs, bc.where, {}, {})
      modifies bc, this`n, this`block
      ensures Shape() && Inv(L, M(Up)) && n == 0 && Pins(bc.bufs, bc.where, {}, {})
      ensures var m := old(Machine(bc.disk, [], [], map[], Down));
        var r := Step(L, m, Reboot);
        Inv(L, r) && M(Up) == RunEnd(L, r) && bc.history == old(bc.history) + RunDisks(L, r)
      ensures HomeOf(L, bc.disk) == HomeOf(L, bc.flat) == old(Durable(L, bc.disk))
      ensures AllLeave(L, bc.history, |old(bc.history)|, old(Durable(L, bc.disk)), old(Durable(L, bc.disk)))
    {
      hide Durable, HomeOf, Coherent, Pins, Ring, DoDiskWrite, Header, Elements, RunEnd, RunDisks, Targets;
      ghost var h0, d := bc.history, Machine(bc.disk, [], [], map[], Down);
      StepRefines(L, d, Reboot);
      ghost var m0 := Step(L, d, Reboot);
      RunLeaves(L, m0, bc.history);
      RunEndIs(L, m0);
      AllSynced(bc.bufs, bc.where, bc.flat, bc.disk);
      ReadHead({});
      InstallTrans(true, {}, h0, m0);
      BootRoom({}, L.start);
      ClearLog(true, {}, h0, m0);
    }

    // log_write, begin_op, end_op: log.c:123-171, 210-230

    /** Between operations of the log itself. */
    ghost predicate Valid(held: set<nat>)
      reads this, bc
    {
      && Shape()
      && !committing && !panicked
      && outstanding == |ops|
      && Inv(L, M(Up))
      && Pins(bc.bufs, bc.where, Elements(block[..n]), held)
      && Apart(L, held)
    }

    /** Record the block and pin its buffer; the search finds a block that is already there. */
    method LogWrite(i: nat)
      requires Shape() && i < NBUF && bc.bufs[i].busy && bc.bufs[i].valid && 0 <= bc.bufs[i].blockno < L.nblocks
      modifies bc`bufs, this`n, this`block, this`panicked
      ensures Shape() && panicked == (old(panicked) || old(n) >= LOGSIZE || old(n) >= L.size - 1 || outstanding < 1)
      ensures old(n) >= LOGSIZE || old(n) >= L.size - 1 || outstanding < 1 ==>
        bc.bufs == old(bc.bufs) && n == old(n) && block == old(block)
      ensures !(old(n) >= LOGSIZE || old(n) >= L.size - 1 || outstanding < 1) ==>
        var b := old(bc.bufs[i].blockno) as nat;
        && bc.bufs == old(bc.bufs)[i := old(bc.bufs[i]).(dirty := true)]
        && block[..n] == if b in old(block[..n]) then old(block[..n]) else old(block[..n]) + [b]
    {
      hide Coherent, Ring;
      if n >= LOGSIZE || n >= L.size - 1 || outstanding < 1 {
        panicked := true;
        return;
      }
      var k := 0;
      while k < n && block[k] != bc.bufs[i].blockno
        invariant 0 <= k <= n
        invariant forall j :: 0 <= j < k ==> block[j] != bc.bufs[i].blockno
      {
        k := k + 1;
      }
      ghost var q := block[..n];
      block := block[k := bc.bufs[i].blockno];
      if k == n {
        n := n + 1;
        assert block[..n] == q + [bc.bufs[i].blockno as nat];
      } else {
        assert q[k] in q;
        assert block[..n] == q;
      }
      bc.MarkDirty(i);
    }

    /**
     What every file system operation does to a block: bread, change, log_write, brelse. Its panics are
     that no buffer is left for the block, or no place in the log.
     */
    method Update(b: nat, v: Block, ghost o: nat, ghost held: set<nat>)
      requires Valid(held) && Home(L, b) && |v| == WORDS && b !in held && o in ops
      modifies this`n, this`block, this`panicked, this`ops, bc
      ensures panicked <==>
        || (b !in old(block[..n]) && !Room(old(Elements(block[..n])), held))
        || TooBig(L, old(M(Up)))
      ensures bc.disk == old(bc.disk) && bc.history == old(bc.history)
      ensures !panicked ==> Valid(held) && M(Up) == Step(L, old(M(Up)), Write(o, b, v))
    {
      hide Room, Coherent, Pins, Ring, Inv, Elements, Step, Enabled, DiskOk, Home;
      ghost var dirty, m := Elements(block[..n]), M(Up);
      ElementsAre(block[..n]);
      OpsCount(ops, o, ops[o] + 1);
      HomeRange(L, b);
      PutAndLog(b, v, dirty, held);
      if panicked {
        return;
      }
      assert Enabled(L, m, Write(o, b, v)) by {
        WriteEnabled(L, m, o, b, v);
      }
      WriteIs(L, m, o, b, v);
      ghost var r := Step(L, m, Write(o, b, v));
      AddedPin(m.blocks, block[..n], b);
      ops := ops[o := ops[o] + 1];
      assert M(Up) == r;
    }

    method PutAndLog(b: nat, v: Block, ghost dirty: set<nat>, ghost held: set<nat>)
      requires Shape() && Pins(bc.bufs, bc.where, dirty, held) && outstanding >= 1 && !panicked
      requires b < L.nblocks && b !in held
      modifies bc`bufs, bc`where, bc`flat, bc`prev, bc`next, bc`order, this`n, this`block, this`panicked
      ensures panicked <==> (b !in dirty && !Room(dirty, held)) || old(n) >= LOGSIZE || old(n) >= L.size - 1
      ensures !panicked ==>
        && Shape() && Pins(bc.bufs, bc.where, dirty + {b}, held)
        && bc.flat == old(bc.flat)[b := v]
        && block[..n] == if b in old(block[..n]) then old(block[..n]) else old(block[..n]) + [b]
    {
      hide Room, Coherent, Pins, Ring;
      ghost var h1 := held + {b};
      assert h1 - {b} == held;
      var i, ok := Get(b, dirty, held);
      if !ok {
        panicked := true;
        return;
      }
      ModifyAndLog(i, b, v, dirty, h1);
      if panicked {
        return;
      }
      Put(i, dirty + {b}, h1);
    }

    /** Change the data of a held buffer and hand it to the log. */
    method ModifyAndLog(i: nat, b: nat, v: Block, ghost dirty: set<nat>, ghost held: set<nat>)
      requires Shape() && Pins(bc.bufs, bc.where, dirty, held) && outstanding >= 1 && !panicked
      requires i < NBUF && bc.bufs[i].busy && bc.bufs[i].valid && bc.bufs[i].blockno == b < L.nblocks
      modifies bc`bufs, bc`flat, this`n, this`block, this`panicked
      ensures panicked <==> old(n) >= LOGSIZE || old(n) >= L.size - 1
      ensures !panicked ==>
        && Shape() && Pins(bc.bufs, bc.where, dirty + {b}, held)
        && bc.bufs == old(bc.bufs)[i := old(bc.bufs[i]).(data := v, dirty := true)]
        && bc.flat == old(bc.flat)[b := v]
        && block[..n] == if b in old(block[..n]) then old(block[..n]) else old(block[..n]) + [b]
    {
      hide Room, Coherent, Pins, Ring;
      PinsData(bc.bufs, bc.where, dirty, held, i, v);
      bc.Store(i, v);
      PinsDirty(bc.bufs, bc.where, bc.flat, bc.disk, dirty, held, i, true);
      LogWrite(i);
    }

    /** begin_op goes ahead exactly when no commit is on and the reservation fits; otherwise it sleeps. */
    method BeginOp(ghost o: nat, ghost held: set<nat>) returns (ok: bool)
      requires Shape() && (committing || Valid(held)) && o !in ops
      modifies this`outstanding, this`ops
      ensures ok <==> !committing && MayBegin(old(M(Up)))
      ensures Shape() && !ok ==> M(Up) == old(M(Up)) && outstanding == old(outstanding)
      ensures ok ==> Valid(held) && old(Inv(L, M(Up))) && M(Up) == Step(L, old(M(Up)), Begin(o))
    {
      hide Room, Coherent, Pins, Ring, Inv, Elements;
      if committing {
        return false;
      }
      if n + (outstanding + 1) * MAXOPBLOCKS > LOGSIZE {
        return false;
      }
      StepRefines(L, M(Up), Begin(o));
      outstanding := outstanding + 1;
      ops := ops[o := 0];
      assert ops.Keys == old(ops).Keys + {o};
      return true;
    }

    /**
     end_op; the last operation out commits the whole group. It panics exactly if that commit finds every
     buffer taken, and never because a commit is going on.
     */
    method EndOp(ghost o: nat, ghost held: set<nat>)
      requires Valid(held) && o in ops && Elements(block[..n]) !! held
      modifies this, bc
      ensures panicked <==> old(outstanding) == 1 && old(n) > 0 && !Room(old(Elements(block[..n])), held)
      ensures panicked ==> bc.disk == old(bc.disk) && bc.history == old(bc.history)
      ensures !panicked ==> Valid(held)
      ensures !panicked ==>
        var m := Step(L, old(M(Up)), End(o));
        && Inv(L, m)
        && M(Up) == RunEnd(L, m)
        && bc.history == old(bc.history) + RunDisks(L, m)
      ensures AllLeave(L, bc.history, |old(bc.history)|, old(Durable(L, bc.disk)), old(HomeOf(L, bc.flat)))
      ensures !panicked && old(outstanding) == 1 && old(n) > 0 ==> HomeOf(L, bc.disk) == old(HomeOf(L, bc.flat))
    {
      hide Room, Coherent, Pins, Ring, Elements, Inv, Step, RunEnd, RunDisks, Durable, HomeOf;
      EndIs(L, M(Up), o);
      ghost var m := Step(L, M(Up), End(o));
      assert (ops - {o}).Keys == ops.Keys - {o};
      ops := ops - {o};
      outstanding := outstanding - 1;
      panicked := panicked || committing;
      if outstanding == 0 {
        committing := true;
        assert ops == map[];
        assert n == 0 <==> block[..n] == [];
        Commit(held);
        committing := false;
        if panicked {
          return;
        }
        assert block[..n] == [];
        assert Elements(block[..n]) == {} by {
          ElementsAre(block[..n]);
        }
      }
    }
  }

  /**
   initlog: from whatever disk a crash left, the running system starts with the durable state at home and an
   empty log. With the last clauses of EndOp and RecoverFromLog this covers a crash after any block write.
   */
  method InitLog(layout: Layout, d: Disk) returns (lg: Logger)
    requires Inv(layout, Crashed(d))
    ensures fresh(lg) && fresh(lg.bc) && lg.L == layout && lg.Valid({}) && lg.n == 0 && lg.ops == map[]
    ensures HomeOf(layout, lg.bc.disk) == HomeOf(layout, lg.bc.flat) == Durable(layout, d)
    ensures AllLeave(layout, lg.bc.history, 0, Durable(layout, d), Durable(layout, d))
  {
    hide Durable, HomeOf, RunEnd, RunDisks, Step;
    var cache := new Bcache(d);
    lg := new Logger(layout, cache);
    lg.RecoverFromLog();
    assert lg.block[..0] == [];
    ElementsAre(lg.block[..0]);
    assert Elements(lg.block[..0]) == {};
  }

  /** With no buffer in use or pinned, memory is what is on the disk. */
  lemma AllSynced(bufs: seq<Buf>, where: map<nat, nat>, flat: Disk, disk: Disk)
    requires Coherent(bufs, where, flat, disk) && Pins(bufs, where, {}, {})
    ensures flat == disk
  {
    forall x: nat | x < |disk| ensures flat[x] == disk[x] {
      Synced(bufs, where, flat, disk, {}, {}, x);
    }
  }

  lemma DiskFacts(L: Layout, m: Machine)
    requires Inv(L, m)
    ensures HeaderOk(L, m.disk)
  {}

  lemma IdleUp(L: Layout, m: Machine)
    requires Inv(L, m) && m.phase == Logging(0)
    ensures Inv(L, m.(phase := Up))
  {}

  lemma OpsCount(ops: map<nat, nat>, o: nat, k: nat)
    requires o in ops
    ensures |ops| >= 1 && |ops[o := k]| == |ops|
  {
    assert ops.Keys != {};
    assert ops[o := k].Keys == ops.Keys;
  }

  lemma HomeRange(L: Layout, b: nat)
    requires Home(L, b)
    ensures b < L.nblocks
  {}

  lemma WriteEnabled(L: Layout, m: Machine, o: nat, b: nat, v: Block)
    requires m.phase.Up? && o in m.ops && Home(L, b) && |v| == WORDS && !TooBig(L, m)
    ensures Enabled(L, m, Write(o, b, v))
  {}

  lemma WriteIs(L: Layout, m: Machine, o: nat, b: nat, v: Block)
    requires Inv(L, m) && Enabled(L, m, Write(o, b, v))
    ensures DiskOk(L, m.mem)
    ensures var r := Step(L, m, Write(o, b, v));
      && Inv(L, r)
      && r == Machine(m.disk, m.mem[b := v], if b in m.blocks then m.blocks else m.blocks + [b],
                      m.ops[o := m.ops[o] + 1], Up)
  {
    hide Inv;
    MemOk(L, m);
    StepInv(L, m, Write(o, b, v));
  }

  lemma MemOk(L: Layout, m: Machine)
    requires Inv(L, m) && m.phase.Up?
    ensures DiskOk(L, m.mem)
  {}

  /** Ending an operation: nothing follows unless it was the last and something was logged. */
  lemma EndIs(L: Layout, m: Machine, o: nat)
    requires Inv(L, m) && Enabled(L, m, End(o))
    ensures var r := Step(L, m, End(o));
      && Inv(L, r)
      && r == m.(ops := m.ops - {o}, phase := if m.ops - {o} == map[] && m.blocks != [] then Logging(0) else Up)
      && (r.phase.Up? ==> RunDisks(L, r) == [] && RunEnd(L, r) == r)
      && Inv(L, m.(ops := m.ops - {o}))
      && (m.ops - {o} == map[] ==> Inv(L, m.(ops := map[], phase := Logging(0))))
  {
    StepRefines(L, m, End(o));
  }

  lemma AddedPin(q: seq<nat>, r: seq<nat>, b: nat)
    requires r == if b in q then q else q + [b]
    ensures Elements(r) == Elements(q) + {b}
  {
    ElementsAre(q);
    ElementsAre(r);
  }

  lemma RestInUse(blocks: seq<nat>, k: nat)
    requires NoDup(blocks) && k < |blocks|
    ensures blocks[k] in Elements(blocks[k..]) && Elements(blocks[k..]) <= Elements(blocks)
    ensures Elements(blocks[k..]) - {blocks[k]} == Elements(blocks[k + 1..])
  {
    hide Elements, NoDup;
    var q := blocks[k + 1..];
    assert blocks[k..] == [blocks[k]] + q;
    ElementsAre(q);
    ElementsAre(blocks[k..]);
    ElementsAre(blocks);
    RestMembers(blocks, k);
  }

  lemma RestMembers(blocks: seq<nat>, k: nat)
    requires NoDup(blocks) && k < |blocks|
    ensures forall x :: x in blocks[k + 1..] ==> x != blocks[k] && x in blocks
  {
    forall x | x in blocks[k + 1..] ensures x != blocks[k] && x in blocks {
      var i :| 0 <= i < |blocks| - k - 1 && blocks[k + 1..][i] == x;
      assert x == blocks[k + 1 + i];
    }
  }

  lemma RestRoom(q: seq<nat>, k: nat, held: set<nat>)
    requires k <= |q| && Room(Elements(q), held)
    ensures Room(Elements(q[k..]), held)
  {
    ElementsAre(q[k..]);
    ElementsAre(q);
    SubsetSize(Elements(q[k..]) + held, Elements(q) + held);
  }

  lemma BootRoom(held: set<nat>, x: nat)
    ensures |held| + 1 < NBUF ==> Room({}, held + {x})
    ensures |held| < NBUF ==> Room({}, held)
  {
    assert {} + held == held && {} + (held + {x}) == held + {x};
  }

  lemma HeldRoom(q: seq<nat>, held: set<nat>)
    requires Room(Elements(q), held)
    ensures Room({}, held)
  {
    SubsetSize({} + held, Elements(q) + held);
  }

  lemma InUse(L: Layout, blocks: seq<nat>, held: set<nat>, k: nat)
    requires Apart(L, held) && Elements(blocks) !! held && k < |blocks| < L.size
    requires forall i :: 0 <= i < |blocks| ==> Home(L, blocks[i])
    ensures |Elements(blocks)| <= |blocks| && blocks[k] in Elements(blocks) && blocks[k] !in held
    ensures L.start + 1 + k !in held && L.start + 1 + k !in Elements(blocks)
  {
    ElementsAre(blocks);
    assert InLog(L, L.start + 1 + k);
  }

  lemma OnWayInv(L: Layout, h: seq<Disk>, m: Machine, h0: seq<Disk>, m0: Machine)
    requires OnWay(L, h, m, h0, m0)
    ensures Inv(L, m)
  {}

  lemma PinsData(bufs: seq<Buf>, where: map<nat, nat>, dirty: set<nat>, held: set<nat>, i: nat, v: Block)
    requires Pins(bufs, where, dirty, held) && i < NBUF
    ensures Pins(bufs[i := bufs[i].(data := v)], where, dirty, held)
  {
    var bufs' := bufs[i := bufs[i].(data := v)];
    forall j | 0 <= j < NBUF ensures PinAt(bufs'[j], dirty, held) {
      assert PinAt(bufs[j], dirty, held);
    }
  }
}
