/**
 Log space by distinct blocks. A block that an operation logs again is absorbed, so what counts against its
 budget is the set of its blocks. The test of log_write comes before absorption, which makes the difference
 between an operation that stays within MAXOPBLOCKS blocks and one that cannot overflow the log.
 */
module LogDistinct {
  import opened Seqs
  import opened LogModel
  import opened CrashSafety
  import opened LogReserve

  /** The blocks that each operation in progress has logged. */
  type Own = map<nat, set<nat>>

  ghost function OwnNext(own: Own, e: Event): Own {
    match e
    case Begin(o) => own[o := {}]
    case Write(o, b, _) => if o in own then own[o := own[o] + {b}] else own
    case End(o) => own - {o}
    case Crash => map[]
    case _ => own
  }

  ghost function Counts(own: Own): map<nat, nat> {
    map o | o in own :: |own[o]|
  }

  /** The log has room for what is left of all reservations. */
  ghost predicate Kept(m: Machine, own: Own) {
    && own.Keys == m.ops.Keys
    && (forall o :: o in own ==> |own[o]| <= MAXOPBLOCKS && own[o] <= Elements(m.blocks))
    && (m.phase.Up? ==> |m.blocks| + Unused(Counts(own)) <= LOGSIZE)
  }

  /** The operation stays within MAXOPBLOCKS blocks. */
  ghost predicate Within(own: Own, e: Event) {
    e.Write? && e.o in own ==> |own[e.o] + {e.b}| <= MAXOPBLOCKS
  }

  /** And makes no further call once it has logged that many. */
  ghost predicate Lean(own: Own, e: Event) {
    e.Write? && e.o in own ==> |own[e.o]| < MAXOPBLOCKS
  }

  lemma LeanWithin(own: Own, e: Event)
    requires Lean(own, e)
    ensures Within(own, e)
  {}

  lemma CountsSet(own: Own, o: nat, s: set<nat>)
    ensures Counts(own[o := s]) == Counts(own)[o := |s|] && Counts(own - {o}) == Counts(own) - {o}
  {}

  lemma KeptBegin(L: Layout, m: Machine, own: Own, o: nat)
    requires Inv(L, m) && Kept(m, own) && Enabled(L, m, Begin(o))
    ensures Kept(Step(L, m, Begin(o)), own[o := {}])
  {
    hide Inv, Elements, Unused, Counts;
    assert o !in own.Keys;
    SameCard(own, m.ops);
    BeginRoom(own, o, |m.blocks|);
  }

  lemma BeginRoom(own: Own, o: nat, n: nat)
    requires o !in own && (forall p :: p in own ==> |own[p]| <= MAXOPBLOCKS)
    requires n + (|Counts(own)| + 1) * MAXOPBLOCKS <= LOGSIZE
    ensures n + Unused(Counts(own[o := {}])) <= LOGSIZE
  {
    CountsSet(own, o, {});
    UnusedUpdate(Counts(own), o, 0);
    assert Counts(own) - {o} == Counts(own);
    UnusedBounds(Counts(own));
  }

  lemma SameCard(own: Own, ops: map<nat, nat>)
    requires own.Keys == ops.Keys
    ensures |Counts(own)| == |ops|
  {
    assert Counts(own).Keys == ops.Keys;
    assert |Counts(own)| == |Counts(own).Keys| && |ops| == |ops.Keys|;
  }

  lemma KeptWrite(L: Layout, m: Machine, own: Own, o: nat, b: nat, v: Block)
    requires Inv(L, m) && Kept(m, own) && Enabled(L, m, Write(o, b, v)) && Within(own, Write(o, b, v))
    ensures Kept(Step(L, m, Write(o, b, v)), own[o := own[o] + {b}])
  {
    hide Inv, Elements;
    assert o in own.Keys;
    var s := own[o] + {b};
    CountsSet(own, o, s);
    UnusedUpdate(Counts(own), o, |s|);
    UnusedSplit(Counts(own), o);
    ElementsAre(m.blocks);
    ElementsAre(m.blocks + [b]);
    assert b in own[o] ==> s == own[o];
    assert b in own[o] ==> b in m.blocks;
  }

  lemma KeptEnd(L: Layout, m: Machine, own: Own, o: nat)
    requires Inv(L, m) && Kept(m, own) && Enabled(L, m, End(o))
    ensures Kept(Step(L, m, End(o)), own - {o})
  {
    hide Inv, Elements;
    assert o in own.Keys;
    CountsSet(own, o, {});
    UnusedSplit(Counts(own), o);
  }

  lemma NoneKept(m: Machine)
    requires m.ops == map[] && (m.phase.Up? ==> |m.blocks| <= LOGSIZE)
    ensures Kept(m, map[])
  {
    var none: Own := map[];
    assert Counts(none) == map[];
  }

  lemma StepKept(L: Layout, m: Machine, own: Own, e: Event)
    requires Inv(L, m) && Kept(m, own) && Enabled(L, m, e) && Within(own, e)
    ensures Kept(Step(L, m, e), OwnNext(own, e))
  {
    hide Kept, HeaderOk, Clean, Durable, HomeOf;
    assert own.Keys == m.ops.Keys by {
      KeptKeys(m, own);
    }
    match e
    case Begin(o) => KeptBegin(L, m, own, o);
    case Write(o, b, v) =>
      assert o in own.Keys;
      KeptWrite(L, m, own, o, b, v);
    case End(o) => KeptEnd(L, m, own, o);
    case _ =>
      assert own.Keys == {} || e.Crash?;
      assert OwnNext(own, e) == map[];
      StepInv(L, m, e);
      NoneKept(Step(L, m, e));
  }

  lemma KeptKeys(m: Machine, own: Own)
    requires Kept(m, own)
    ensures own.Keys == m.ops.Keys
  {}

  // Runs

  /** The blocks of each operation after a run. */
  ghost function OwnAfter(own: Own, es: seq<Event>): Own
    decreases |es|
  {
    if es == [] then own else OwnAfter(OwnNext(own, es[0]), es[1..])
  }

  ghost predicate WithinRun(own: Own, es: seq<Event>)
    decreases |es|
  {
    es == [] || (Within(own, es[0]) && WithinRun(OwnNext(own, es[0]), es[1..]))
  }

  lemma {:induction false} RunKept(L: Layout, m: Machine, own: Own, es: seq<Event>)
    requires Inv(L, m) && Kept(m, own) && ValidRun(L, m, es) && WithinRun(own, es)
    ensures Kept(Final(L, m, es), OwnAfter(own, es))
    decreases |es|
  {
    hide Inv, Kept, Enabled, Within, Step, OwnNext;
    if es != [] {
      StepInv(L, m, es[0]);
      StepKept(L, m, own, es[0]);
      RunKept(L, Step(L, m, es[0]), OwnNext(own, es[0]), es[1..]);
    }
  }

  /** What is left to operation `o` is room in the log. */
  lemma RoomLeft(m: Machine, own: Own, o: nat)
    requires Kept(m, own) && m.phase.Up? && o in own
    ensures |m.blocks| + (MAXOPBLOCKS - |own[o]|) <= LOGSIZE
  {
    UnusedSplit(Counts(own), o);
    assert InBudget(Counts(own) - {o});
    UnusedBounds(Counts(own) - {o});
  }

  /** A call of log_write by an operation in progress that stays within its blocks. */
  ghost predicate Calls(m: Machine, own: Own, o: nat, b: nat) {
    m.phase.Up? && o in own && |own[o] + {b}| <= MAXOPBLOCKS
  }

  /**
   After any run in which every operation stays within MAXOPBLOCKS blocks, and with LOGSIZE data blocks in
   the region: such a call panics exactly if the operation has all of its blocks already and the log is full.
   */
  lemma PanicsExactly(L: Layout, m: Machine, own: Own, es: seq<Event>, o: nat, b: nat)
    requires Inv(L, m) && Kept(m, own) && ValidRun(L, m, es) && WithinRun(own, es) && L.size - 1 >= LOGSIZE
    requires Calls(Final(L, m, es), OwnAfter(own, es), o, b)
    ensures TooBig(L, Final(L, m, es)) <==>
      |OwnAfter(own, es)[o]| == MAXOPBLOCKS && |Final(L, m, es).blocks| == LOGSIZE
    ensures TooBig(L, Final(L, m, es)) ==> b in OwnAfter(own, es)[o] && b in Final(L, m, es).blocks
  {
    hide Inv;
    RunKept(L, m, own, es);
    var r, w := Final(L, m, es), OwnAfter(own, es);
    RoomLeft(r, w, o);
    ElementsAre(r.blocks);
  }

  /** So an operation that makes no call after its last new block never panics. */
  lemma LeanNeverPanics(L: Layout, m: Machine, own: Own, es: seq<Event>, o: nat)
    requires Inv(L, m) && Kept(m, own) && ValidRun(L, m, es) && WithinRun(own, es) && L.size - 1 >= LOGSIZE
    requires Final(L, m, es).phase.Up? && o in OwnAfter(own, es) && |OwnAfter(own, es)[o]| < MAXOPBLOCKS
    ensures !TooBig(L, Final(L, m, es))
  {
    hide Inv;
    RunKept(L, m, own, es);
    RoomLeft(Final(L, m, es), OwnAfter(own, es), o);
  }

  lemma NoneYet(L: Layout, m: Machine)
    requires Fresh(L, m)
    ensures Kept(m, map[]) && FewBlocks(m, map[])
  {
    NoneKept(m);
  }

  /** The panic is reached: three operations fill the log, and one of them logs a block again. */
  lemma RelogPanics(L: Layout, m: Machine, homes: seq<nat>) returns (es: seq<Event>, b: nat)
    requires Fresh(L, m) && HomeBlocks(L, homes) && |homes| == LOGSIZE && L.size - 1 >= LOGSIZE
    ensures ValidRun(L, m, es) && WithinRun(map[], es)
    ensures Calls(Final(L, m, es), OwnAfter(map[], es), 0, b) && TooBig(L, Final(L, m, es))
  {
    hide Enabled, Step, Inv, Disciplined, ValidRun, DisciplinedRun, HomeBlocks, Elements;
    var a, r := BeginThree(L, m, homes);
    var c, s := Fill(L, r, homes, 0);
    RunAppend(L, m, a, c);
    DisciplineAppend(L, m, a, c);
    es := a + c;
    NoneYet(L, m);
    CallsBoundBlocks(L, m, map[], es);
    RunKept(L, m, map[], es);
    var own := OwnAfter(map[], es);
    assert 0 in s.ops.Keys;
    RoomLeft(s, own, 0);
    assert own[0] != {};
    b :| b in own[0];
    assert own[0] + {b} == own[0];
  }

  // Operations that make at most MAXOPBLOCKS calls are such

  /** No operation has more blocks than it made calls. */
  ghost predicate FewBlocks(m: Machine, own: Own) {
    own.Keys == m.ops.Keys && forall o :: o in own ==> |own[o]| <= m.ops[o]
  }

  lemma StepFew(L: Layout, m: Machine, own: Own, e: Event)
    requires Inv(L, m) && FewBlocks(m, own) && Enabled(L, m, e)
    ensures FewBlocks(Step(L, m, e), OwnNext(own, e))
    ensures Disciplined(m, e) ==> Lean(own, e)
  {
    hide HeaderOk, Clean, BlocksOk, LogWriteAt, InstallAt, Targets;
    if e.Write? {
      assert e.o in own.Keys;
    }
  }

  lemma {:induction false} CallsBoundBlocks(L: Layout, m: Machine, own: Own, es: seq<Event>)
    requires Inv(L, m) && FewBlocks(m, own) && DisciplinedRun(L, m, es)
    ensures ValidRun(L, m, es) && WithinRun(own, es) && FewBlocks(Final(L, m, es), OwnAfter(own, es))
    decreases |es|
  {
    hide Inv, Enabled, Step, Disciplined, FewBlocks, OwnNext, Within, Lean;
    if es != [] {
      StepInv(L, m, es[0]);
      StepFew(L, m, own, es[0]);
      LeanWithin(own, es[0]);
      CallsBoundBlocks(L, Step(L, m, es[0]), OwnNext(own, es[0]), es[1..]);
    }
  }

  /** With LOGSIZE data blocks, no log_write panics in a run with at most MAXOPBLOCKS calls for each operation. */
  lemma NoOverflow(L: Layout, m: Machine, own: Own, es: seq<Event>, o: nat)
    requires Inv(L, m) && Kept(m, own) && FewBlocks(m, own) && DisciplinedRun(L, m, es) && L.size - 1 >= LOGSIZE
    ensures ValidRun(L, m, es) && !Overflows(L, Final(L, m, es), o)
  {
    CallsBoundBlocks(L, m, own, es);
    if Overflows(L, Final(L, m, es), o) {
      assert o in OwnAfter(own, es).Keys;
      LeanNeverPanics(L, m, own, es, o);
    }
  }

  // A sequence of calls

  /** Before each call there are fewer than MAXOPBLOCKS different ones. */
  ghost predicate LeanCalls(calls: seq<nat>) {
    forall k :: 0 <= k < |calls| ==> |Elements(calls[..k])| < MAXOPBLOCKS
  }

  ghost function CallEvents(o: nat, calls: seq<nat>, vs: seq<Block>, k: nat): seq<Event>
    requires |vs| == |calls| && k <= |calls|
  {
    seq(|calls| - k, j requires 0 <= j < |calls| - k => Write(o, calls[k + j], vs[k + j]))
  }

  lemma OneMore(calls: seq<nat>, k: nat)
    requires k < |calls|
    ensures Elements(calls[..k + 1]) == Elements(calls[..k]) + {calls[k]}
  {
    assert calls[..k + 1] == calls[..k] + [calls[k]];
    ElementsAre(calls[..k]);
    ElementsAre(calls[..k + 1]);
  }

  /**
   An operation that makes such calls gets through, whatever the other operations have logged within their
   own budgets.
   */
  lemma {:induction false} CallsGetThrough(L: Layout, m: Machine, own: Own, o: nat, calls: seq<nat>, vs: seq<Block>,
      k: nat)
    requires Inv(L, m) && m.phase.Up? && Kept(m, own) && L.size - 1 >= LOGSIZE
    requires LeanCalls(calls) && |vs| == |calls| && k <= |calls| && o in own && own[o] == Elements(calls[..k])
    requires forall j :: 0 <= j < |calls| ==> Home(L, calls[j]) && |vs[j]| == WORDS
    ensures ValidRun(L, m, CallEvents(o, calls, vs, k))
    decreases |calls| - k
  {
    hide Inv, Kept, Step, Elements;
    var es := CallEvents(o, calls, vs, k);
    if k < |calls| {
      var e := Write(o, calls[k], vs[k]);
      KeptKeys(m, own);
      assert o in m.ops.Keys;
      RoomLeft(m, own, o);
      assert Enabled(L, m, e);
      LeanWithin(own, e);
      StepInv(L, m, e);
      StepKept(L, m, own, e);
      OneMore(calls, k);
      StaysUp(L, m, e);
      CallsGetThrough(L, Step(L, m, e), OwnNext(own, e), o, calls, vs, k + 1);
      assert es[0] == e && es[1..] == CallEvents(o, calls, vs, k + 1);
    }
  }

  lemma StaysUp(L: Layout, m: Machine, e: Event)
    requires Inv(L, m) && Enabled(L, m, e) && e.Write?
    ensures Step(L, m, e).phase.Up?
  {}
}
