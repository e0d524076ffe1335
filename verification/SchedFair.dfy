/**
 No starvation: a waiting process never loses ground, gains some with every promotion pass and every
 dispatch from its queue, and so reaches the top queue and then the processor within a fixed bound.
 */
module SchedFair {
  import opened Seqs
  import opened Sched
  import opened SchedRuns

  ghost predicate Waiting(s: Sys, p: nat) {
    Partition(s) && p < NPROC && s.procs[p].state == RUNNABLE
  }

  /** How far `p` is from the processor: queue by queue, then by position in the queue. */
  ghost function Distance(s: Sys, p: nat): nat
    requires Waiting(s, p)
  {
    s.procs[p].prio * NPROC + IndexOf(s.lists[s.procs[p].prio], p)
  }

  lemma InQueue(s: Sys, p: nat)
    requires Waiting(s, p)
    ensures p in s.lists[s.procs[p].prio] && NoDup(s.lists[s.procs[p].prio])
  {
    assert Listed(s, p) && ListOk(s, s.procs[p].prio);
  }

  lemma DistanceBounds(s: Sys, p: nat)
    requires Waiting(s, p)
    ensures s.procs[p].prio * NPROC <= Distance(s, p) < (s.procs[p].prio + 1) * NPROC
  {
    InQueue(s, p);
    BoundedNoDup(s.lists[s.procs[p].prio], NPROC);
  }

  /** A queue that lacks `p` has room for `p`. */
  lemma RoomFor(s: Sys, l: nat, p: nat)
    requires Partition(s) && l < NLISTS && p < NPROC && ListOf(s.procs[p]) != l
    ensures p !in s.lists[l] && |s.lists[l]| < NPROC && NoDup(s.lists[l] + [p])
  {
    assert ListOk(s, l);
    NoDupExtend(s.lists[l], p);
    BoundedNoDup(s.lists[l] + [p], NPROC);
  }

  ghost predicate Ahead(s: Sys, x: nat, p: nat)
    requires Waiting(s, p) && x < NPROC
  {
    var q := s.lists[s.procs[p].prio];
    x in q && IndexOf(q, x) < IndexOf(q, p)
  }

  /** Moving another slot only matters if it stood ahead in the same queue. */
  lemma MoveDistance(s: Sys, x: nat, y: Proc, atHead: bool, p: nat)
    requires Waiting(s, p) && x < NPROC && x != p && PrioOk(y) && (atHead ==> y.state != RUNNABLE)
    ensures Waiting(Move(s, x, y, atHead), p)
    ensures Distance(Move(s, x, y, atHead), p) == Distance(s, p) - (if Ahead(s, x, p) then 1 else 0)
  {
    var k := s.procs[p].prio;
    MovePartition(s, x, y, atHead);
    InQueue(s, p);
    QueueWithout(s, x, p);
    hide NoDup, Without, IndexOf, Partition;
    var q := s.lists[k];
    var r := Move(s, x, y, atHead);
    var w := if ListOf(s.procs[x]) == k then Without(q, x) else q;
    assert r.lists[k] == w || r.lists[k] == w + [x];
    IndexOfAppend(w, [x], p);
  }

  /** Where `p` stands once `x` is off its list. */
  lemma QueueWithout(s: Sys, x: nat, p: nat)
    requires Waiting(s, p) && x < NPROC && x != p
    ensures var q := s.lists[s.procs[p].prio];
      var w := if ListOf(s.procs[x]) == s.procs[p].prio then Without(q, x) else q;
      p in w && IndexOf(w, p) == IndexOf(q, p) - (if Ahead(s, x, p) then 1 else 0)
  {
    hide NoDup, Without, IndexOf;
    var k := s.procs[p].prio;
    InQueue(s, p);
    assert ListOk(s, k);
    if ListOf(s.procs[x]) == k {
      assert Listed(s, x);
      WithoutIndex(s.lists[k], x, p);
      WithoutMembers(s.lists[k], x);
    }
  }

  lemma SameDistance(s: Sys, r: Sys, p: nat)
    requires Waiting(s, p) && Shaped(r) && r.procs == s.procs && r.lists == s.lists
    ensures Waiting(r, p) && Distance(r, p) == Distance(s, p)
  {
    SameLists(s, r);
  }

  lemma UpdateDistance(s: Sys, x: nat, y: Proc, p: nat)
    requires Waiting(s, p) && x < NPROC && PrioOk(y) && ListOf(y) == ListOf(s.procs[x]) && y.state == s.procs[x].state
    ensures Waiting(Update(s, x, y), p) && Distance(Update(s, x, y), p) == Distance(s, p)
  {
    UpdatePartition(s, x, y);
  }

  lemma {:induction false} WakeFromDistance(s: Sys, q: seq<nat>, c: Chan, p: nat)
    requires Waiting(s, p) && Slots(q) && p !in q
    requires forall i :: 0 <= i < |q| ==> s.procs[q[i]].state == SLEEPING
    requires NoDup(q)
    ensures Waiting(WakeFrom(s, q, c), p) && Distance(WakeFrom(s, q, c), p) == Distance(s, p)
    decreases |q|
  {
    if q != [] {
      var t := s;
      if s.procs[q[0]].chan == c {
        MoveDistance(s, q[0], s.procs[q[0]].(state := RUNNABLE), false, p);
        t := WakeOne(s, q[0]);
        assert ListOk(s, s.procs[p].prio) && !Ahead(s, q[0], p);
      }
      WakeFromDistance(t, q[1..], c, p);
    }
  }

  lemma WakeDistance(s: Sys, c: Chan, p: nat)
    requires Waiting(s, p)
    ensures Waiting(Wake(s, c), p) && Distance(Wake(s, c), p) == Distance(s, p)
  {
    var q := s.lists[SLEEP];
    assert ListOk(s, SLEEP);
    forall i | 0 <= i < |q| ensures s.procs[q[i]].state == SLEEPING {
      assert ListOf(s.procs[q[i]]) == SLEEP;
    }
    WakeFromDistance(s, q, c, p);
  }

  lemma PromoteHeadDistance(s: Sys, i: nat, p: nat)
    requires Waiting(s, p) && 1 <= i <= MAX
    ensures Waiting(PromoteHead(s, i), p)
    ensures Distance(PromoteHead(s, i), p) <= Distance(s, p) - (if i == s.procs[p].prio then 1 else 0)
    ensures i != s.procs[p].prio ==> PromoteHead(s, i).procs[p] == s.procs[p]
  {
    PromoteHeadPartition(s, i);
    InQueue(s, p);
    assert ListOk(s, i);
    if s.lists[i] != [] {
      var h := s.lists[i][0];
      if h == p {
        RoomFor(s, i - 1, p);
        DistanceBounds(s, p);
        var r := PromoteHead(s, i);
        assert r.lists[i - 1] == s.lists[i - 1] + [p];
        IndexOfUnique(r.lists[i - 1], |s.lists[i - 1]|);
      } else {
        MoveDistance(s, h, s.procs[h].(prio := i - 1), false, p);
      }
    }
  }

  lemma {:induction false} PromoteFromDistance(s: Sys, i: nat, p: nat)
    requires Waiting(s, p) && 1 <= i
    ensures Waiting(PromoteFrom(s, i), p)
    ensures Distance(PromoteFrom(s, i), p) <= Distance(s, p) - (if i <= s.procs[p].prio then 1 else 0)
    decreases MAX + 1 - i
  {
    if i <= MAX {
      PromoteHeadDistance(s, i, p);
      PromoteHeadPartition(s, i);
      PromoteFromDistance(PromoteHead(s, i), i + 1, p);
    }
  }

  ghost predicate AtHead(s: Sys, p: nat)
    requires Waiting(s, p)
  {
    s.lists[s.procs[p].prio] != [] && s.lists[s.procs[p].prio][0] == p
  }

  lemma {:induction false} PromoteFromExact(s: Sys, i: nat, p: nat)
    requires Waiting(s, p) && 1 <= i
    ensures PromoteFrom(s, i).procs[p].prio
         == if s.procs[p].prio >= i && AtHead(s, p) then s.procs[p].prio - 1 else s.procs[p].prio
    decreases MAX + 1 - i
  {
    InQueue(s, p);
    if i <= MAX {
      assert ListOk(s, i);
      PromoteHeadDistance(s, i, p);
      PromoteHeadPartition(s, i);
      PromoteFromExact(PromoteHead(s, i), i + 1, p);
    }
  }

  /** A pass moves exactly the heads of the lower queues up a level; everybody else keeps its priority. */
  lemma PassPromotesOnlyHeads(s: Sys, p: nat)
    requires Waiting(s, p) && PromotionDue(s)
    ensures Promoted(s).procs[p].prio == s.procs[p].prio - 1 <==> s.procs[p].prio >= 1 && AtHead(s, p)
    ensures Promoted(s).procs[p].prio == s.procs[p].prio || Promoted(s).procs[p].prio == s.procs[p].prio - 1
  {
    AgePartition(s);
    PromoteFromExact(Age(s), 1, p);
  }

  /** A promotion pass brings every process below the top queue strictly forward. */
  lemma PromotedDistance(s: Sys, p: nat)
    requires Waiting(s, p)
    ensures Waiting(Promoted(s), p)
    ensures Distance(Promoted(s), p) <= Distance(s, p) - (if PromotionDue(s) && s.procs[p].prio >= 1 then 1 else 0)
  {
    if PromotionDue(s) {
      AgePartition(s);
      PromoteFromDistance(Age(s), 1, p);
    }
  }

  /** A dispatch of somebody else from `p`'s own queue brings `p` strictly forward. */
  lemma PickDistance(s: Sys, p: nat)
    requires Waiting(s, p) && Pick(s).procs[p].state == RUNNABLE
    ensures Waiting(Pick(s), p)
    ensures Distance(Pick(s), p) == Distance(s, p) - (if BestQueue(s, 0) == s.procs[p].prio then 1 else 0)
  {
    InQueue(s, p);
    var i := BestQueue(s, 0);
    assert i <= s.procs[p].prio && ListOk(s, i);
    var h := s.lists[i][0];
    PickPartition(s);
    MoveDistance(s, h, s.procs[h].(state := RUNNING, ticksIn := s.now, chan := NoChan), true, p);
  }

  lemma ScheduleDistance(s: Sys, p: nat)
    requires Waiting(s, p) && Schedule(s).procs[p].state == RUNNABLE
    ensures Waiting(Schedule(s), p)
    ensures Distance(Schedule(s), p) <= Distance(s, p) - (if PromotionDue(s) && s.procs[p].prio >= 1 then 1 else 0)
    ensures s.procs[p].prio == 0 ==> Distance(Schedule(s), p) < Distance(s, p)
  {
    PromotedDistance(s, p);
    PickDistance(Promoted(s), p);
    if s.procs[p].prio == 0 {
      DistanceBounds(s, p);
      DistanceBounds(Promoted(s), p);
      assert Listed(Promoted(s), p);
    }
  }

  lemma ExitDistance(s: Sys, x: nat, p: nat)
    requires Waiting(s, p) && x < NPROC && s.procs[x].state == RUNNING
    ensures Waiting(Exit(s, x), p) && Distance(Exit(s, x), p) == Distance(s, p)
  {
    var c := WaitChan(s.parent[x]);
    WakePartition(s, c);
    WakeRefinesScan(s, c);
    WakeDistance(s, c, p);
    var w := Wake(s, c);
    OrphanPartition(w, x);
    var t := w.(parent := Reparent(w.parent, x, w.init));
    SameLists(w, t);
    WakeDistance(t, WaitChan(w.init), p);
    WakeRefinesScan(t, WaitChan(w.init));
    var o := Orphan(w, x);
    assert o.procs[x].state == RUNNING;
    MoveDistance(o, x, Charge(o.procs[x].(state := ZOMBIE), o.now), true, p);
  }

  ghost predicate Touches(s: Sys, e: Step, p: nat)
    requires Partition(s)
  {
    e.DoSetPriority? && FindIn(s, PRIO_ORDER, e.pid) == p
  }

  /** No critical section other than setpriority on `p` itself pushes a waiting `p` back. */
  lemma NextDistance(s: Sys, e: Step, p: nat)
    requires Waiting(s, p) && Enabled(s, e) && !Touches(s, e, p)
    requires Next(s, e).procs[p].state == RUNNABLE
    ensures Waiting(Next(s, e), p) && Distance(Next(s, e), p) <= Distance(s, p)
  {
    hide Listed, ListOk, Without, BudgetUpdate, NoDup, Distance;
    match e
    case DoAlloc => AllocDistance(s, p);
    case DoInitEmbryo(np) =>
      UpdateDistance(s, np, s.procs[np].(ticksTotal := 0, ticksIn := 0, prio := 0, budget := BUDGET), p);
    case DoAdopt(np, q) => SameDistance(s, Adopt(s, np, q), p);
    case DoAbort(np) => MoveDistance(s, np, s.procs[np].(state := UNUSED), true, p);
    case DoPublish(np) => MoveDistance(s, np, s.procs[np].(state := RUNNABLE), false, p);
    case DoExit(x) => ExitDistance(s, x, p);
    case DoWait(x) => WaitDistance(s, x, p);
    case DoSchedule => ScheduleDistance(s, p);
    case DoYield(x) =>
      MoveDistance(s, x, Charge(BudgetUpdate(s.procs[x].(state := RUNNABLE), s.now), s.now), false, p);
    case DoSleep(x, id) =>
      MoveDistance(s, x, Charge(BudgetUpdate(s.procs[x].(state := SLEEPING, chan := Other(id)), s.now), s.now), true,
        p);
    case DoWakeup(id) => WakeDistance(s, Other(id), p);
    case DoKill(pid) => KillDistance(s, pid, p);
    case DoSetPriority(pid, prio) => SetPriorityDistance(s, pid, prio, p);
    case DoTick => SameDistance(s, s.(now := s.now + 1), p);
  }

  lemma AllocDistance(s: Sys, p: nat)
    requires Waiting(s, p)
    ensures Waiting(Alloc(s), p) && Distance(Alloc(s), p) <= Distance(s, p)
  {
    if s.lists[FREE] != [] {
      var x := s.lists[FREE][0];
      assert ListOk(s, FREE);
      var q := s.procs[x].(state := EMBRYO, pid := s.nextpid);
      MoveDistance(s, x, q, true, p);
      SameDistance(Move(s, x, q, true), Alloc(s), p);
    }
  }

  lemma WaitDistance(s: Sys, x: nat, p: nat)
    requires Waiting(s, p) && x < NPROC && s.procs[x].state == RUNNING
    ensures Waiting(WaitStep(s, x).0, p) && Distance(WaitStep(s, x).0, p) <= Distance(s, p)
  {
    WaitPartition(s, x);
    var z := s.lists[ZOMB];
    var k := FirstChild(z, s.parent, x);
    if k < |z| {
      assert ListOk(s, ZOMB);
      MoveDistance(s, z[k], s.procs[z[k]].(state := UNUSED, pid := 0, killed := false), true, p);
    } else {
      MoveDistance(s, x, Charge(BudgetUpdate(s.procs[x].(state := SLEEPING, chan := WaitChan(x)), s.now), s.now), true,
        p);
    }
  }

  lemma KillDistance(s: Sys, pid: int, p: nat)
    requires Waiting(s, p)
    ensures Waiting(Kill(s, pid), p) && Distance(Kill(s, pid), p) <= Distance(s, p)
  {
    var x := FindIn(s, KILL_ORDER, pid);
    if x != NIL {
      if s.procs[x].state == SLEEPING {
        MoveDistance(s, x, s.procs[x].(killed := true, state := RUNNABLE), false, p);
      } else {
        UpdateDistance(s, x, s.procs[x].(killed := true), p);
      }
    }
  }

  lemma SetPriorityDistance(s: Sys, pid: int, prio: int, p: nat)
    requires Waiting(s, p) && FindIn(s, PRIO_ORDER, pid) != p
    ensures Waiting(SetPriority(s, pid, prio), p) && Distance(SetPriority(s, pid, prio), p) <= Distance(s, p)
  {
    var x := FindIn(s, PRIO_ORDER, pid);
    if 0 <= prio <= MAX && x != NIL {
      if s.procs[x].state != RUNNABLE {
        UpdateDistance(s, x, s.procs[x].(prio := prio, budget := BUDGET), p);
      } else if s.procs[x].prio != prio {
        MoveDistance(s, x, s.procs[x].(prio := prio, budget := BUDGET), false, p);
      }
    }
  }

  // Whole runs

  /** A run through which `p` keeps waiting and nobody changes its priority by system call. */
  ghost predicate WaitsThrough(s: Sys, es: seq<Step>, p: nat)
    decreases |es|
  {
    Waiting(s, p) &&
    (es == [] ||
     (Enabled(s, es[0]) && !Touches(s, es[0], p) && WaitsThrough(Next(s, es[0]), es[1..], p)))
  }

  ghost function Last(s: Sys, es: seq<Step>, p: nat): (r: Sys)
    requires WaitsThrough(s, es, p)
    ensures Waiting(r, p)
    decreases |es|
  {
    if es == [] then s else Last(Next(s, es[0]), es[1..], p)
  }

  /** Promotion passes in the run. */
  ghost function Passes(s: Sys, es: seq<Step>, p: nat): nat
    requires WaitsThrough(s, es, p)
    decreases |es|
  {
    if es == [] then 0
    else (if es[0].DoSchedule? && PromotionDue(s) then 1 else 0) + Passes(Next(s, es[0]), es[1..], p)
  }

  /** Scheduling decisions in the run. */
  ghost function Picks(es: seq<Step>): nat {
    if es == [] then 0 else (if es[0].DoSchedule? then 1 else 0) + Picks(es[1..])
  }

  lemma {:induction false} PassesDistance(s: Sys, es: seq<Step>, p: nat)
    requires WaitsThrough(s, es, p)
    ensures Distance(Last(s, es, p), p) <= Distance(s, p)
    ensures Last(s, es, p).procs[p].prio >= 1 ==> Distance(Last(s, es, p), p) + Passes(s, es, p) <= Distance(s, p)
    decreases |es|
  {
    if es != [] {
      NextDistance(s, es[0], p);
      PassesDistance(Next(s, es[0]), es[1..], p);
      DistanceBounds(s, p);
      DistanceBounds(Last(s, es, p), p);
      if es[0].DoSchedule? {
        ScheduleDistance(s, p);
      }
    }
  }

  lemma {:induction false} PicksDistance(s: Sys, es: seq<Step>, p: nat)
    requires WaitsThrough(s, es, p) && s.procs[p].prio == 0
    ensures Distance(Last(s, es, p), p) + Picks(es) <= Distance(s, p)
    decreases |es|
  {
    if es != [] {
      NextDistance(s, es[0], p);
      DistanceBounds(s, p);
      DistanceBounds(Next(s, es[0]), p);
      if es[0].DoSchedule? {
        ScheduleDistance(s, p);
      }
      PicksDistance(Next(s, es[0]), es[1..], p);
    }
  }

  /** MAX * NPROC promotion passes bring a waiting process to the top queue. */
  lemma ReachesTopQueue(s: Sys, es: seq<Step>, p: nat)
    requires WaitsThrough(s, es, p) && Passes(s, es, p) >= MAX * NPROC
    ensures Last(s, es, p).procs[p].prio == 0
  {
    PassesDistance(s, es, p);
    DistanceBounds(s, p);
    DistanceBounds(Last(s, es, p), p);
  }

  /**
   Starvation freedom: once MAX * NPROC promotion passes have gone by, a process that is still waiting
   can be passed over fewer than NPROC more times, whatever everybody else does.
   */
  lemma NoStarvation(s: Sys, before: seq<Step>, after: seq<Step>, p: nat)
    requires WaitsThrough(s, before, p) && Passes(s, before, p) >= MAX * NPROC
    requires WaitsThrough(Last(s, before, p), after, p)
    ensures Picks(after) < NPROC
  {
    ReachesTopQueue(s, before, p);
    var t := Last(s, before, p);
    PicksDistance(t, after, p);
    DistanceBounds(t, p);
  }
}
