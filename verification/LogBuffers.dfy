/**
 The log and the buffer cache have the same size, and commit needs a buffer that is neither pinned by a logged
 block nor held by somebody else. fileread takes no part in the log, so it may hold one at any time.
 */
module LogBuffers {
  import opened Seqs
  import opened LogModel
  import opened CrashSafety
  import opened LogReserve
  import opened BufferCache
  import opened Log

  /** A commit that starts while others hold these blocks, and finds no buffer. */
  ghost predicate NoBufferLeft(m: Machine, held: set<nat>) {
    m.phase == Logging(0) && Elements(m.blocks) !! held && !Room(Elements(m.blocks), held)
  }

  lemma {:induction false} ElementsCount(q: seq<nat>)
    requires NoDup(q)
    ensures |Elements(q)| == |q|
  {
    if q != [] {
      ElementsCount(q[1..]);
      ElementsAre(q[1..]);
    }
  }

  /** This is when Commit and EndOp panic. */
  lemma CommitNeedsSpareBuffer(blocks: seq<nat>, held: set<nat>)
    requires NoDup(blocks) && Elements(blocks) !! held
    ensures Room(Elements(blocks), held) <==> |blocks| + |held| < NBUF
  {
    ElementsCount(blocks);
    assert |Elements(blocks) + held| == |Elements(blocks)| + |held|;
  }

  /** The most blocks a transaction can have. */
  function Most(L: Layout): int {
    if L.size - 1 < LOGSIZE then L.size - 1 else LOGSIZE
  }

  /** As long as the largest transaction and what is held leave a buffer, a commit finds one. */
  lemma NeverFull(L: Layout, m: Machine, es: seq<Event>, held: set<nat>)
    requires Inv(L, m) && ValidRun(L, m, es) && Most(L) + |held| < NBUF
    ensures !NoBufferLeft(Final(L, m, es), held)
  {
    var r := Final(L, m, es);
    if r.phase == Logging(0) && Elements(r.blocks) !! held {
      CommitNeedsSpareBuffer(r.blocks, held);
    }
  }

  lemma EndOne(L: Layout, m: Machine, o: nat)
    requires Inv(L, m) && m.phase.Up? && o in m.ops
    ensures Enabled(L, m, End(o)) && Disciplined(m, End(o)) && Inv(L, Step(L, m, End(o)))
    ensures var r := Step(L, m, End(o));
      && r.ops == m.ops - {o} && r.blocks == m.blocks
      && (r.phase == if r.ops == map[] && m.blocks != [] then Logging(0) else Up)
  {
    StepInv(L, m, End(o));
  }

  lemma EndThree(L: Layout, m: Machine, homes: seq<nat>) returns (es: seq<Event>)
    requires Filled(L, m, homes, |homes|) && homes != []
    ensures DisciplinedRun(L, m, es) && ValidRun(L, m, es)
    ensures Final(L, m, es).phase == Logging(0) && Final(L, m, es).blocks == homes
  {
    assert m.blocks == homes;
    hide Inv, Step, Enabled, Disciplined;
    EndOne(L, m, 0);
    var m1 := Step(L, m, End(0));
    assert 1 in m1.ops && m1.ops != map[];
    EndOne(L, m1, 1);
    var m2 := Step(L, m1, End(1));
    assert 2 in m2.ops && m2.ops != map[];
    EndOne(L, m2, 2);
    var r := Step(L, m2, End(2));
    assert r.ops == map[];
    es := [End(0), End(1), End(2)];
    assert es[1..] == [End(1), End(2)] && es[1..][1..] == [End(2)] && [End(2)][1..] == [];
    assert ValidRun(L, r, []) && DisciplinedRun(L, r, []) && Final(L, r, []) == r;
    assert ValidRun(L, m2, [End(2)]) && DisciplinedRun(L, m2, [End(2)]) && Final(L, m2, [End(2)]) == r;
    assert ValidRun(L, m1, es[1..]) && DisciplinedRun(L, m1, es[1..]) && Final(L, m1, es[1..]) == r;
  }

  /** Three operations that stay within their budgets make a transaction of any size there is room for. */
  lemma FullRun(L: Layout, m: Machine, homes: seq<nat>) returns (es: seq<Event>)
    requires Fresh(L, m) && HomeBlocks(L, homes) && 0 < |homes| <= Most(L)
    ensures DisciplinedRun(L, m, es) && ValidRun(L, m, es)
    ensures Final(L, m, es).phase == Logging(0) && Final(L, m, es).blocks == homes
  {
    hide Enabled, Step, Inv, Disciplined, ValidRun, DisciplinedRun, Filled, HomeBlocks;
    var a, r := BeginThree(L, m, homes);
    var b, s := Fill(L, r, homes, 0);
    var c := EndThree(L, s, homes);
    RunAppend(L, r, b, c);
    DisciplineAppend(L, r, b, c);
    RunAppend(L, m, a, b + c);
    DisciplineAppend(L, m, a, b + c);
    es := a + (b + c);
  }

  /**
   While others hold some blocks, operations within their budgets can leave a commit without a buffer exactly
   if the largest transaction and these blocks take up all buffers.
   */
  lemma CommitWithoutBuffer(L: Layout, m: Machine, homes: seq<nat>, held: set<nat>)
    requires Fresh(L, m) && HomeBlocks(L, homes) && |homes| == LOGSIZE && Elements(homes) !! held && L.size > 1
    ensures (exists es :: DisciplinedRun(L, m, es) && ValidRun(L, m, es) && NoBufferLeft(Final(L, m, es), held))
       <==> Most(L) + |held| >= NBUF
  {
    hide Elements, Room, Inv, ValidRun, DisciplinedRun;
    if Most(L) + |held| >= NBUF {
      var some := homes[..Most(L)];
      ElementsAre(homes);
      ElementsAre(some);
      assert Elements(some) !! held;
      var es := FullRun(L, m, some);
      CommitNeedsSpareBuffer(some, held);
      assert NoBufferLeft(Final(L, m, es), held);
    } else {
      forall es | DisciplinedRun(L, m, es) && ValidRun(L, m, es) ensures !NoBufferLeft(Final(L, m, es), held) {
        NeverFull(L, m, es, held);
      }
    }
  }

  /** So no size of the region avoids both panics, that of log_write and that of bget, even with nothing held. */
  lemma EveryRegionPanics(L: Layout, m: Machine, homes: seq<nat>) returns (es: seq<Event>, o: nat)
    requires Fresh(L, m) && HomeBlocks(L, homes) && |homes| == LOGSIZE
    ensures DisciplinedRun(L, m, es) && ValidRun(L, m, es)
    ensures Overflows(L, Final(L, m, es), o) || NoBufferLeft(Final(L, m, es), {})
  {
    if L.size - 1 >= NBUF {
      es := FullRun(L, m, homes);
      o := 0;
      CommitNeedsSpareBuffer(homes, {});
    } else {
      es, o := Overflow(L, m, homes[..L.size - 1]);
    }
  }

  /** On the disk that mkfs makes, one block held by a reader is enough. */
  lemma MkfsReaderPanics(fssize: nat, x: nat) returns (es: seq<Event>)
    requires 2 * LOGSIZE + 2 <= x < fssize
    ensures var L := Layout(2, LOGSIZE, fssize);
      && Fresh(L, MkfsDisk(fssize)) && DisciplinedRun(L, MkfsDisk(fssize), es) && ValidRun(L, MkfsDisk(fssize), es)
      && NoBufferLeft(Final(L, MkfsDisk(fssize), es), {x})
  {
    hide Fresh, Inv, ValidRun, DisciplinedRun, MkfsDisk, Elements, Room;
    MkfsFresh(fssize);
    var homes := seq(LOGSIZE - 1, i => 2 + LOGSIZE + i);
    es := FullRun(Layout(2, LOGSIZE, fssize), MkfsDisk(fssize), homes);
    ElementsAre(homes);
    CommitNeedsSpareBuffer(homes, {x});
  }
}
