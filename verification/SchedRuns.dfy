/**
 Runs of the process table: every sequence of critical sections keeps the list partition and the
 parent/zombie discipline.
 */
module SchedRuns {
  import opened Seqs
  import opened Sched

  datatype Step =
    | DoAlloc
    | DoInitEmbryo(np: nat)
    | DoAdopt(np: nat, p: nat)
    | DoAbort(np: nat)
    | DoPublish(np: nat)
    | DoExit(p: nat)
    | DoWait(p: nat)
    | DoSchedule
    | DoYield(p: nat)
    | DoSleep(p: nat, id: nat)
    | DoWakeup(id: nat)
    | DoKill(pid: int)
    | DoSetPriority(pid: int, prio: int)
    | DoTick

  ghost predicate InState(s: Sys, p: nat, st: ProcState)
    requires Shaped(s)
  {
    p < NPROC && s.procs[p].state == st
  }

  /**
   Who may take which step. The steps on an embryo are the private part of fork: it is only aborted
   before it has a parent, and only published once allocproc has reset its priority, budget and ticks.
   */
  ghost predicate Enabled(s: Sys, e: Step)
    requires Shaped(s)
  {
    match e
    case DoInitEmbryo(np) => InState(s, np, EMBRYO) && s.parent[np] == NIL
    case DoAdopt(np, p) => InState(s, np, EMBRYO) && s.parent[np] == NIL && InState(s, p, RUNNING)
    case DoAbort(np) => InState(s, np, EMBRYO) && s.parent[np] == NIL
    case DoPublish(np) =>
      && InState(s, np, EMBRYO) && s.parent[np] != NIL
      && s.procs[np].prio == 0 && s.procs[np].budget == BUDGET && s.procs[np].ticksTotal == 0
    case DoExit(p) => InState(s, p, RUNNING) && p != s.init
    case DoWait(p) => InState(s, p, RUNNING)
    case DoYield(p) => InState(s, p, RUNNING)
    case DoSleep(p, _) => InState(s, p, RUNNING)
    case _ => true
  }

  function Exit(s: Sys, p: nat): (r: Sys)
    requires Partition(s) && p < NPROC
    ensures Shaped(r)
  {
    WakePartition(s, WaitChan(s.parent[p]));
    var t := Orphan(Wake(s, WaitChan(s.parent[p])), p);
    Move(t, p, Charge(t.procs[p].(state := ZOMBIE), t.now), true)
  }

  function Next(s: Sys, e: Step): (r: Sys)
    requires Partition(s) && Enabled(s, e)
    ensures Shaped(r)
  {
    match e
    case DoAlloc => Alloc(s)
    case DoInitEmbryo(np) => InitEmbryo(s, np)
    case DoAdopt(np, p) => Adopt(s, np, p)
    case DoAbort(np) => Abort(s, np)
    case DoPublish(np) => Publish(s, np)
    case DoExit(p) => Exit(s, p)
    case DoWait(p) => WaitStep(s, p).0
    case DoSchedule => Schedule(s)
    case DoYield(p) => Yield(s, p)
    case DoSleep(p, id) => Sleep(s, p, Other(id))
    case DoWakeup(id) => Wake(s, Other(id))
    case DoKill(pid) => Kill(s, pid)
    case DoSetPriority(pid, prio) => SetPriority(s, pid, prio)
    case DoTick => s.(now := s.now + 1)
  }

  // fork as a whole: proc.c:236-295

  function ForkAborted(s: Sys, np: nat): (r: Sys)
    requires Partition(s) && np < NPROC
    ensures Shaped(r)
  {
    Abort(InitEmbryo(Alloc(s), np), np)
  }

  function Forked(s: Sys, np: nat, p: nat): (r: Sys)
    requires Partition(s) && np < NPROC && p < NPROC
    ensures Shaped(r)
  {
    Publish(Adopt(InitEmbryo(Alloc(s), np), np, p), np)
  }

  /** What fork makes of a free slot. */
  function Child(was: Proc, pid: int): Proc {
    was.(state := RUNNABLE, pid := pid, ticksTotal := 0, ticksIn := 0, prio := 0, budget := BUDGET)
  }

  lemma WithoutFirst(q: seq<nat>, x: nat)
    ensures Without([x] + q, x) == q && (q != [] ==> Without(q, q[0]) == q[1..])
  {
    assert IndexOf([x] + q, x) == 0;
  }

  lemma AllocLists(s: Sys, np: nat)
    requires Partition(s) && s.lists[FREE] != [] && np == s.lists[FREE][0]
    ensures var a := InitEmbryo(Alloc(s), np);
      && np < NPROC && a.lists == s.lists[FREE := s.lists[FREE][1..]][EMB := [np] + s.lists[EMB]]
      && a.procs == s.procs[np := Child(s.procs[np], s.nextpid).(state := EMBRYO)]
      && a.parent == s.parent && a.nextpid == s.nextpid + 1
    ensures s.procs[np].state == UNUSED && InState(Alloc(s), np, EMBRYO) && Alloc(s).parent == s.parent
  {
    assert ListOk(s, FREE);
    WithoutFirst(s.lists[FREE], np);
  }

  /** A fork that fails leaves all lists as they were: the slot is the first free one again. */
  lemma ForkFails(s: Sys, np: nat)
    requires Partition(s) && s.lists[FREE] != [] && np == s.lists[FREE][0] && np < NPROC
    ensures var r := ForkAborted(s, np);
      && r.lists == s.lists && r.parent == s.parent && r.nextpid == s.nextpid + 1
      && r.procs == s.procs[np := Child(s.procs[np], s.nextpid).(state := UNUSED)]
  {
    hide Without;
    AllocLists(s, np);
    var a := InitEmbryo(Alloc(s), np);
    WithoutFirst(s.lists[EMB], np);
    assert a.lists[EMB] == [np] + s.lists[EMB];
    assert ForkAborted(s, np).lists[FREE] == [np] + s.lists[FREE][1..] == s.lists[FREE];
  }

  /** One that succeeds puts the child at the tail of the top queue, and changes nothing else. */
  lemma ForkSucceeds(s: Sys, np: nat, p: nat)
    requires Partition(s) && s.lists[FREE] != [] && np == s.lists[FREE][0] && np < NPROC && p < NPROC
    ensures var r := Forked(s, np, p);
      && r.lists == s.lists[FREE := s.lists[FREE][1..]][0 := s.lists[0] + [np]]
      && r.parent == s.parent[np := p] && r.nextpid == s.nextpid + 1
      && r.procs == s.procs[np := Child(s.procs[np], s.nextpid)]
  {
    hide Without;
    AllocLists(s, np);
    WithoutFirst(s.lists[EMB], np);
  }

  // The partition

  lemma {:induction false} WakeFromPartition(s: Sys, q: seq<nat>, c: Chan)
    requires Partition(s) && Slots(q)
    ensures Partition(WakeFrom(s, q, c))
    decreases |q|
  {
    if q != [] {
      if s.procs[q[0]].chan == c {
        MovePartition(s, q[0], s.procs[q[0]].(state := RUNNABLE), false);
        WakeFromPartition(WakeOne(s, q[0]), q[1..], c);
      } else {
        WakeFromPartition(s, q[1..], c);
      }
    }
  }

  lemma WakePartition(s: Sys, c: Chan)
    requires Partition(s)
    ensures Partition(Wake(s, c))
  {
    WakeFromPartition(s, s.lists[SLEEP], c);
  }

  lemma UpdatePartition(s: Sys, p: nat, q: Proc)
    requires Partition(s) && p < NPROC && PrioOk(q) && ListOf(q) == ListOf(s.procs[p])
    ensures Partition(Update(s, p, q))
  {
    SameLists(s, Update(s, p, q));
  }

  lemma OrphanPartition(s: Sys, p: nat)
    requires Partition(s) && p < NPROC
    ensures Partition(Orphan(s, p))
  {
    var t := s.(parent := Reparent(s.parent, p, s.init));
    SameLists(s, t);
    WakePartition(t, WaitChan(s.init));
  }

  lemma ExitPartition(s: Sys, p: nat)
    requires Partition(s) && p < NPROC
    ensures Partition(Exit(s, p))
  {
    var w := Wake(s, WaitChan(s.parent[p]));
    WakePartition(s, WaitChan(s.parent[p]));
    OrphanPartition(w, p);
    var t := Orphan(w, p);
    MovePartition(t, p, Charge(t.procs[p].(state := ZOMBIE), t.now), true);
  }

  lemma ReapPartition(s: Sys, q: nat)
    requires Partition(s) && q < NPROC
    ensures Partition(Reap(s, q))
  {
    var d := s.procs[q].(state := UNUSED, pid := 0, killed := false);
    MovePartition(s, q, d, true);
    SameLists(Move(s, q, d, true), Reap(s, q));
  }

  lemma WaitPartition(s: Sys, p: nat)
    requires Partition(s) && p < NPROC
    ensures Partition(WaitStep(s, p).0)
  {
    var z := s.lists[ZOMB];
    var k := FirstChild(z, s.parent, p);
    if k < |z| {
      ReapPartition(s, z[k]);
    } else {
      MovePartition(s, p, Charge(BudgetUpdate(s.procs[p].(state := SLEEPING, chan := WaitChan(p)), s.now), s.now),
        true);
    }
  }

  lemma PickPartition(s: Sys)
    requires Partition(s)
    ensures Partition(Pick(s))
  {
    var i := BestQueue(s, 0);
    if i <= MAX {
      var p := s.lists[i][0];
      MovePartition(s, p, s.procs[p].(state := RUNNING, ticksIn := s.now, chan := NoChan), true);
    }
  }

  lemma AllocPartition(s: Sys)
    requires Partition(s)
    ensures Partition(Alloc(s))
  {
    if s.lists[FREE] != [] {
      var p := s.lists[FREE][0];
      var q := s.procs[p].(state := EMBRYO, pid := s.nextpid);
      MovePartition(s, p, q, true);
      SameLists(Move(s, p, q, true), Alloc(s));
    }
  }

  lemma KillPartition(s: Sys, pid: int)
    requires Partition(s)
    ensures Partition(Kill(s, pid))
  {
    var p := FindIn(s, KILL_ORDER, pid);
    if p != NIL {
      if s.procs[p].state == SLEEPING {
        MovePartition(s, p, s.procs[p].(killed := true, state := RUNNABLE), false);
      } else {
        UpdatePartition(s, p, s.procs[p].(killed := true));
      }
    }
  }

  lemma SetPriorityPartition(s: Sys, pid: int, prio: int)
    requires Partition(s)
    ensures Partition(SetPriority(s, pid, prio))
  {
    var p := FindIn(s, PRIO_ORDER, pid);
    if 0 <= prio <= MAX && p != NIL {
      if s.procs[p].state != RUNNABLE {
        UpdatePartition(s, p, s.procs[p].(prio := prio, budget := BUDGET));
      } else if s.procs[p].prio != prio {
        MovePartition(s, p, s.procs[p].(prio := prio, budget := BUDGET), false);
      }
    }
  }

  lemma NextPartition(s: Sys, e: Step)
    requires Partition(s) && Enabled(s, e)
    ensures Partition(Next(s, e))
  {
    match e
    case DoAlloc => AllocPartition(s);
    case DoInitEmbryo(np) =>
      UpdatePartition(s, np, s.procs[np].(ticksTotal := 0, ticksIn := 0, prio := 0, budget := BUDGET));
    case DoAdopt(np, p) => SameLists(s, Adopt(s, np, p));
    case DoAbort(np) => MovePartition(s, np, s.procs[np].(state := UNUSED), true);
    case DoPublish(np) => MovePartition(s, np, s.procs[np].(state := RUNNABLE), false);
    case DoExit(p) => ExitPartition(s, p);
    case DoWait(p) => WaitPartition(s, p);
    case DoSchedule => PickPartition(Promoted(s));
    case DoYield(p) =>
      MovePartition(s, p, Charge(BudgetUpdate(s.procs[p].(state := RUNNABLE), s.now), s.now), false);
    case DoSleep(p, id) =>
      MovePartition(s, p, Charge(BudgetUpdate(s.procs[p].(state := SLEEPING, chan := Other(id)), s.now), s.now), true);
    case DoWakeup(id) => WakePartition(s, Other(id));
    case DoKill(pid) => KillPartition(s, pid);
    case DoSetPriority(pid, prio) => SetPriorityPartition(s, pid, prio);
    case DoTick => SameLists(s, s.(now := s.now + 1));
  }

  // What a wakeup does to the slots: the table scan of proc.c:740-748.

  function ScanWake(procs: seq<Proc>, c: Chan): (r: seq<Proc>)
    ensures |r| == |procs|
    ensures forall i :: 0 <= i < |r| ==>
      r[i] == if procs[i].state == SLEEPING && procs[i].chan == c then procs[i].(state := RUNNABLE) else procs[i]
  {
    seq(|procs|, i requires 0 <= i < |procs| =>
      if procs[i].state == SLEEPING && procs[i].chan == c then procs[i].(state := RUNNABLE) else procs[i])
  }

  lemma {:induction false} WakeFromProcs(s: Sys, q: seq<nat>, c: Chan)
    requires Shaped(s) && Slots(q)
    ensures var r := WakeFrom(s, q, c);
      && r == s.(procs := r.procs, lists := r.lists)
      && forall i: nat :: i < NPROC ==>
        r.procs[i] == if i in q && s.procs[i].chan == c then s.procs[i].(state := RUNNABLE) else s.procs[i]
    decreases |q|
  {
    if q != [] {
      var t := if s.procs[q[0]].chan == c then WakeOne(s, q[0]) else s;
      WakeFromProcs(t, q[1..], c);
    }
  }

  /** The list-based wakeup1 changes the slots exactly as the scan over the whole table does. */
  lemma WakeRefinesScan(s: Sys, c: Chan)
    requires Partition(s)
    ensures Wake(s, c).procs == ScanWake(s.procs, c)
    ensures Wake(s, c) == s.(procs := Wake(s, c).procs, lists := Wake(s, c).lists)
  {
    WakeFromProcs(s, s.lists[SLEEP], c);
    forall i: nat | i < NPROC
      ensures i in s.lists[SLEEP] <==> s.procs[i].state == SLEEPING
    {
      assert Listed(s, i) && ListOk(s, SLEEP);
    }
  }
}
