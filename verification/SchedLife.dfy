/**
 Parents and zombies: no process is orphaned to a dead parent, and nobody sleeps in wait() while it
 has a zombie child to collect.
 */
module SchedLife {
  import opened Seqs
  import opened Sched
  import opened SchedRuns

  ghost predicate Alive(st: ProcState) {
    st == SLEEPING || st == RUNNABLE || st == RUNNING
  }

  ghost predicate Kin(s: Sys, p: nat)
    requires Shaped(s) && p < NPROC
  {
    && (s.procs[p].state == UNUSED ==> s.parent[p] == NIL)
    && (s.parent[p] != NIL ==> 0 <= s.parent[p] < NPROC && s.parent[p] != p && Alive(s.procs[s.parent[p]].state))
    && (p != s.init && s.procs[p].state != UNUSED && s.procs[p].state != EMBRYO ==> s.parent[p] != NIL)
    && (s.procs[p].state == SLEEPING && s.procs[p].chan.WaitChan? ==>
          s.procs[p].chan.proc == p && !HasZombieKid(s, p))
  }

  ghost predicate Life(s: Sys)
    requires Shaped(s)
  {
    && 0 <= s.init < NPROC
    && s.parent[s.init] == NIL
    && Alive(s.procs[s.init].state)
    && forall p: nat :: p < NPROC ==> Kin(s, p)
  }

  ghost predicate Inv(s: Sys) {
    Partition(s) && Life(s)
  }

  /** A step that only rewrites slots, killing nobody and putting nobody to sleep in wait, is harmless. */
  lemma LifeKept(s: Sys, r: Sys)
    requires Shaped(s) && Shaped(r) && Life(s)
    requires r.parent == s.parent && r.init == s.init
    requires forall p: nat :: p < NPROC ==> Calm(s.procs[p], r.procs[p])
    requires forall p: nat :: p < NPROC ==> Born(s, r, p)
    ensures Life(r)
  {
    forall p: nat | p < NPROC ensures Kin(r, p) {
      assert Kin(s, p);
      assert Calm(s.procs[p], r.procs[p]) && Born(s, r, p);
      if s.parent[p] != NIL {
        assert Calm(s.procs[s.parent[p]], r.procs[s.parent[p]]);
      }
      if r.procs[p].state == SLEEPING && r.procs[p].chan.WaitChan? {
        forall q | 0 <= q < NPROC ensures !(r.procs[q].state == ZOMBIE && r.parent[q] == p) {
          assert Calm(s.procs[q], r.procs[q]);
        }
      }
    }
    assert Calm(s.procs[s.init], r.procs[s.init]);
  }

  ghost predicate Calm(a: Proc, b: Proc) {
    && (Alive(a.state) ==> Alive(b.state))
    && (b.state == ZOMBIE <==> a.state == ZOMBIE)
    && (b.state == SLEEPING && b.chan.WaitChan? ==> a.state == SLEEPING && a.chan == b.chan)
    && (a.state == UNUSED ==> b.state == UNUSED || b.state == EMBRYO)
    && (b.state == UNUSED ==> a.state == UNUSED || a.state == EMBRYO)
  }

  /** Leaving the embryo state takes a parent if the process is to live, and none if it is given up. */
  ghost predicate Born(s: Sys, r: Sys, p: nat)
    requires Shaped(s) && Shaped(r) && p < NPROC
  {
    s.procs[p].state == EMBRYO ==>
      && (r.procs[p].state == UNUSED ==> s.parent[p] == NIL)
      && (Alive(r.procs[p].state) ==> s.parent[p] != NIL)
  }

  lemma LifeOne(s: Sys, r: Sys, p: nat)
    requires Shaped(s) && Shaped(r) && Life(s) && p < NPROC
    requires r.parent == s.parent && r.init == s.init
    requires r.procs == s.procs[p := r.procs[p]]
    requires Calm(s.procs[p], r.procs[p]) && Born(s, r, p)
    ensures Life(r)
  {
    LifeKept(s, r);
  }

  lemma WakeLife(s: Sys, c: Chan)
    requires Inv(s)
    ensures Inv(Wake(s, c))
  {
    WakePartition(s, c);
    WakeRefinesScan(s, c);
    LifeKept(s, Wake(s, c));
  }

  lemma {:induction false} PromoteFromKeeps(s: Sys, i: nat)
    requires Partition(s) && 1 <= i
    ensures var r := PromoteFrom(s, i);
      && r == s.(procs := r.procs, lists := r.lists)
      && forall p: nat :: p < NPROC ==> r.procs[p] == s.procs[p].(prio := r.procs[p].prio)
    decreases MAX + 1 - i
  {
    hide ListOk, Listed, Without;
    if i <= MAX {
      PromoteHeadPartition(s, i);
      PromoteFromKeeps(PromoteHead(s, i), i + 1);
    }
  }

  lemma PromotedKeeps(s: Sys)
    requires Partition(s)
    ensures var r := Promoted(s);
      && r == s.(procs := r.procs, lists := r.lists, promoteAt := r.promoteAt)
      && forall p: nat :: p < NPROC ==> r.procs[p] == s.procs[p].(prio := r.procs[p].prio)
  {
    if PromotionDue(s) {
      AgePartition(s);
      PromoteFromKeeps(Age(s), 1);
    }
  }

  /** What exit does to the slots, spelled out. */
  function ExitProcs(s: Sys, p: nat): (r: seq<Proc>)
    requires Shaped(s) && p < NPROC
    ensures |r| == NPROC
  {
    var a := ScanWake(s.procs, WaitChan(s.parent[p]));
    var b := if HasZombieKid(s, p) then ScanWake(a, WaitChan(s.init)) else a;
    b[p := Charge(b[p].(state := ZOMBIE), s.now)]
  }

  lemma ExitSlots(s: Sys, p: nat)
    requires Partition(s) && p < NPROC
    ensures var r := Exit(s, p);
      && r == s.(procs := r.procs, parent := r.parent, lists := r.lists)
      && r.procs == ExitProcs(s, p)
      && r.parent == Reparent(s.parent, p, s.init)
  {
    var c := WaitChan(s.parent[p]);
    WakePartition(s, c);
    WakeRefinesScan(s, c);
    var w := Wake(s, c);
    assert HasZombieKid(w, p) == HasZombieKid(s, p) by {
      assert forall q: nat :: q < NPROC ==> (w.procs[q].state == ZOMBIE <==> s.procs[q].state == ZOMBIE);
    }
    var t := w.(parent := Reparent(w.parent, p, w.init));
    SameLists(w, t);
    WakeRefinesScan(t, WaitChan(w.init));
  }

  lemma ExitLife(s: Sys, p: nat)
    requires Inv(s) && Enabled(s, DoExit(p))
    ensures Life(Exit(s, p))
  {
    ExitSlots(s, p);
    var r := Exit(s, p);
    forall q: nat | q < NPROC ensures Kin(r, q) {
      ExitKin(s, r, p, q);
    }
  }

  ghost predicate ExitOf(s: Sys, r: Sys, p: nat)
    requires Shaped(s) && Shaped(r) && p < NPROC
  {
    r.init == s.init && r.procs == ExitProcs(s, p) && r.parent == Reparent(s.parent, p, s.init)
  }

  lemma ExitKin(s: Sys, r: Sys, p: nat, q: nat)
    requires Shaped(s) && Life(s) && Enabled(s, DoExit(p)) && q < NPROC
    requires Shaped(r) && ExitOf(s, r, p)
    ensures Kin(r, q)
  {
    assert Kin(s, q);
    if r.parent[q] != NIL {
      var x := r.parent[q];
      assert x != p && x != q;
      assert Alive(s.procs[x].state);
      assert Alive(r.procs[x].state);
    }
    if r.procs[q].state == SLEEPING && r.procs[q].chan.WaitChan? {
      ExitQuiet(s, r, p, q);
    }
  }

  /** Whoever still sleeps in wait after the exit was not the parent, and init only if it got no zombie. */
  lemma ExitQuiet(s: Sys, r: Sys, p: nat, q: nat)
    requires Shaped(s) && Life(s) && Enabled(s, DoExit(p)) && q < NPROC
    requires Shaped(r) && ExitOf(s, r, p)
    requires r.procs[q].state == SLEEPING && r.procs[q].chan.WaitChan?
    ensures r.procs[q].chan == WaitChan(q) && !HasZombieKid(r, q)
  {
    assert Kin(s, q) && Kin(s, p);
    assert s.parent[p] != q && (q == s.init ==> !HasZombieKid(s, p));
    forall x | 0 <= x < NPROC ensures !(r.procs[x].state == ZOMBIE && r.parent[x] == q) {
      assert !(s.procs[x].state == ZOMBIE && s.parent[x] == q);
      assert q == s.init ==> !(s.procs[x].state == ZOMBIE && s.parent[x] == p);
    }
  }

  lemma ReapLife(s: Sys, q: nat)
    requires Inv(s) && q < NPROC && s.procs[q].state == ZOMBIE
    ensures Life(Reap(s, q))
  {
    hide ListOk, Listed, Without;
    var r := Reap(s, q);
    forall x: nat | x < NPROC ensures Kin(r, x) {
      assert Kin(s, x);
      if r.procs[x].state == SLEEPING && r.procs[x].chan.WaitChan? {
        NoNewZombieKid(s, r, x);
      }
    }
  }

  lemma NoNewZombieKid(s: Sys, r: Sys, p: nat)
    requires Shaped(s) && Shaped(r) && !HasZombieKid(s, p)
    requires forall x :: 0 <= x < NPROC && r.procs[x].state == ZOMBIE && r.parent[x] == p ==>
      s.procs[x].state == ZOMBIE && s.parent[x] == p
    ensures !HasZombieKid(r, p)
  {}

  lemma WaitLife(s: Sys, p: nat)
    requires Inv(s) && Enabled(s, DoWait(p))
    ensures Life(WaitStep(s, p).0)
  {
    hide Without;
    var z := s.lists[ZOMB];
    var k := FirstChild(z, s.parent, p);
    assert ListOk(s, ZOMB);
    if k < |z| {
      ReapLife(s, z[k]);
    } else {
      forall q: nat | q < NPROC && s.procs[q].state == ZOMBIE ensures s.parent[q] != p {
        assert Listed(s, q);
      }
      if WaitStep(s, p).1.Slept? {
        WaitSleepLife(s, p);
      }
    }
  }

  lemma WaitSleepLife(s: Sys, p: nat)
    requires Inv(s) && Enabled(s, DoWait(p)) && !HasZombieKid(s, p)
    ensures Life(Sleep(s, p, WaitChan(p)))
  {
    hide ListOk, Listed, Without, BudgetUpdate;
    var r := Sleep(s, p, WaitChan(p));
    forall q: nat | q < NPROC ensures Kin(r, q) {
      assert Kin(s, q);
      if r.procs[q].state == SLEEPING && r.procs[q].chan.WaitChan? {
        NoNewZombieKid(s, r, q);
      }
    }
  }

  lemma AdoptLife(s: Sys, np: nat, p: nat)
    requires Inv(s) && Enabled(s, DoAdopt(np, p))
    ensures Life(Adopt(s, np, p))
  {
    hide ListOk, Listed;
    var r := Adopt(s, np, p);
    forall q: nat | q < NPROC ensures Kin(r, q) {
      assert Kin(s, q);
      if r.procs[q].state == SLEEPING && r.procs[q].chan.WaitChan? {
        NoNewZombieKid(s, r, q);
      }
    }
  }

  lemma NextLife(s: Sys, e: Step)
    requires Inv(s) && Enabled(s, e)
    ensures Life(Next(s, e))
  {
    hide Listed, Without, BudgetUpdate;
    var r := Next(s, e);
    match e
    case DoExit(p) => ExitLife(s, p);
    case DoWait(p) => WaitLife(s, p);
    case DoAdopt(np, p) => AdoptLife(s, np, p);
    case DoWakeup(id) => WakeLife(s, Other(id));
    case DoSchedule => ScheduleLife(s);
    case DoAlloc =>
      if s.lists[FREE] != [] {
        assert ListOk(s, FREE);
        LifeOne(s, r, s.lists[FREE][0]);
      }
    case DoInitEmbryo(np) => LifeOne(s, r, np);
    case DoAbort(np) => LifeOne(s, r, np);
    case DoPublish(np) => LifeOne(s, r, np);
    case DoYield(p) => LifeOne(s, r, p);
    case DoSleep(p, _) => LifeOne(s, r, p);
    case DoKill(pid) => KillLife(s, pid);
    case DoSetPriority(pid, prio) => SetPriorityLife(s, pid, prio);
    case DoTick => LifeKept(s, r);
  }

  lemma ScheduleLife(s: Sys)
    requires Inv(s)
    ensures Life(Schedule(s))
  {
    PromotedKeeps(s);
    var t := Promoted(s);
    LifeKept(s, t);
    var i := BestQueue(t, 0);
    if i <= MAX {
      assert ListOk(t, i);
      LifeOne(t, Pick(t), t.lists[i][0]);
    }
  }

  lemma KillLife(s: Sys, pid: int)
    requires Inv(s)
    ensures Life(Kill(s, pid))
  {
    var p := FindIn(s, KILL_ORDER, pid);
    if p != NIL {
      LifeOne(s, Kill(s, pid), p);
    }
  }

  lemma SetPriorityLife(s: Sys, pid: int, prio: int)
    requires Inv(s)
    ensures Life(SetPriority(s, pid, prio))
  {
    var p := FindIn(s, PRIO_ORDER, pid);
    if p != NIL {
      LifeOne(s, SetPriority(s, pid, prio), p);
    }
  }

  // Boot and whole runs: userinit, proc.c:148-212

  function ZeroProc(): Proc {
    Proc(UNUSED, 0, 0, NoChan, 0, false, 0, 0)
  }

  /** All slots free; insertHead leaves them in descending order. */
  function EmptyTable(): (s: Sys) {
    Sys(seq(NPROC, i => ZeroProc()), seq(NPROC, i => NIL),
        seq(NLISTS, l => if l == FREE then seq(NPROC, i requires 0 <= i < NPROC => (NPROC - 1 - i) as nat) else []),
        TICKS_TO_PROMOTE, 0, 1, NIL)
  }

  lemma EmptyTablePartition()
    ensures Partition(EmptyTable())
  {
    var s := EmptyTable();
    forall p: nat | p < NPROC ensures Listed(s, p) {
      assert s.lists[FREE][NPROC - 1 - p] == p;
    }
  }

  /** The first process on the top ready queue, all other slots free. */
  function FirstReady(): (s: Sys) {
    EmptyTablePartition();
    var a := Alloc(EmptyTable());
    Publish(InitEmbryo(a, NPROC - 1), NPROC - 1).(init := NPROC - 1)
  }

  lemma FirstReadyPartition()
    ensures Partition(FirstReady())
    ensures FirstReady().lists[0] == [NPROC - 1]
  {
    EmptyTablePartition();
    var s := EmptyTable();
    assert s.lists[FREE][0] == NPROC - 1;
    NextPartition(s, DoAlloc);
    var a := Alloc(s);
    var b := InitEmbryo(a, NPROC - 1);
    NextPartition(a, DoInitEmbryo(NPROC - 1));
    MovePartition(b, NPROC - 1, b.procs[NPROC - 1].(state := RUNNABLE), false);
    SameLists(Publish(b, NPROC - 1), FirstReady());
  }

  /** The state after userinit. */
  function Boot(): (s: Sys)
    ensures Partition(s)
  {
    FirstReadyPartition();
    FirstReady()
  }

  lemma BootInv()
    ensures Inv(Boot())
    ensures Boot().lists[0] == [NPROC - 1]
  {
    FirstReadyPartition();
    forall p: nat | p < NPROC ensures Kin(Boot(), p) {}
  }

  ghost predicate ValidRun(s: Sys, es: seq<Step>)
    requires Partition(s)
    decreases |es|
  {
    es == [] ||
    (Enabled(s, es[0]) &&
     (NextPartition(s, es[0]);
      ValidRun(Next(s, es[0]), es[1..])))
  }

  ghost function Final(s: Sys, es: seq<Step>): (r: Sys)
    requires Partition(s) && ValidRun(s, es)
    decreases |es|
  {
    if es == [] then s
    else
      NextPartition(s, es[0]);
      Final(Next(s, es[0]), es[1..])
  }

  /** Every run from a good state ends in a good state. */
  lemma {:induction false} RunInv(s: Sys, es: seq<Step>)
    requires Inv(s) && ValidRun(s, es)
    ensures Inv(Final(s, es))
    decreases |es|
  {
    if es != [] {
      NextPartition(s, es[0]);
      NextLife(s, es[0]);
      RunInv(Next(s, es[0]), es[1..]);
    }
  }

  /** A zombie has a live parent, and that parent is not asleep in wait. */
  ghost predicate Collectable(s: Sys, p: nat)
    requires Shaped(s) && p < NPROC
  {
    var x := s.parent[p];
    0 <= x < NPROC && Alive(s.procs[x].state) && !(s.procs[x].state == SLEEPING && s.procs[x].chan == WaitChan(x))
  }

  /**
   In every state reachable from boot: each slot is on exactly the list of its state; a process other
   than init that runs or can run has a live parent; every zombie can be collected; and a free slot
   has no parent.
   */
  lemma NoLostZombies(es: seq<Step>)
    requires ValidRun(Boot(), es)
    ensures var s := Final(Boot(), es);
      && Partition(s)
      && forall p: nat :: p < NPROC ==>
        && (s.procs[p].state == ZOMBIE ==> Collectable(s, p))
        && (s.procs[p].state == UNUSED ==> s.parent[p] == NIL)
        && (Alive(s.procs[p].state) && p != s.init ==> 0 <= s.parent[p] < NPROC && Alive(s.procs[s.parent[p]].state))
  {
    BootInv();
    RunInv(Boot(), es);
    KinCollectable(Final(Boot(), es));
  }

  lemma KinCollectable(s: Sys)
    requires Inv(s)
    ensures forall p: nat :: p < NPROC && s.procs[p].state == ZOMBIE ==> Collectable(s, p)
    ensures forall p: nat :: p < NPROC && s.procs[p].state == UNUSED ==> s.parent[p] == NIL
    ensures forall p: nat :: p < NPROC && p != s.init && Alive(s.procs[p].state) ==>
      0 <= s.parent[p] < NPROC && Alive(s.procs[s.parent[p]].state)
  {
    forall p: nat | p < NPROC
      ensures Kin(s, p) && (s.procs[p].state == ZOMBIE ==> Collectable(s, p))
    {
      assert Kin(s, p);
      if s.procs[p].state == ZOMBIE {
        assert Kin(s, s.parent[p]);
      }
    }
  }
}
