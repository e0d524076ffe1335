/**
 What the critical sections do, spelled out field by field and list by list: where a process goes when it
 gives up the processor, what it is charged, who runs next, and what a promotion pass, kill and setpriority
 leave behind.
 */
module SchedEffects {
  import opened Seqs
  import opened Sched
  import opened SchedRuns
  import opened SchedLife

  // Giving up the processor: proc.c:646-648, 653-735, 1250-1261

  /**
   The time since the dispatch is charged in full. It comes off the budget as long as something is left of that;
   otherwise the process goes down a queue, if there is one, with a new budget.
   */
  ghost predicate Settled(x: Proc, y: Proc, now: int) {
    var used := now - x.ticksIn;
    && y.ticksTotal == x.ticksTotal + used
    && (used < x.budget ==> y.prio == x.prio && y.budget == x.budget - used)
    && (used >= x.budget ==> y.prio == (if x.prio < MAX then x.prio + 1 else MAX) && y.budget == BUDGET)
  }

  /** yield: the process is the last of the queue it then belongs to. */
  lemma YieldEffect(s: Sys, p: nat)
    requires Partition(s) && p < NPROC && s.procs[p].state == RUNNING
    ensures var r := Yield(s, p);
      var x, y := s.procs[p], r.procs[p];
      && y == x.(state := RUNNABLE, prio := y.prio, budget := y.budget, ticksTotal := y.ticksTotal)
      && Settled(x, y, s.now)
      && r == s.(procs := s.procs[p := y], lists := r.lists)
      && r.lists == s.lists[RUN := Without(s.lists[RUN], p)][y.prio := s.lists[y.prio] + [p]]
  {
    assert PrioOk(s.procs[p]);
  }

  /** sleep: the process is the first of the sleepers, on the channel it was given. */
  lemma SleepEffect(s: Sys, p: nat, c: Chan)
    requires Partition(s) && p < NPROC && s.procs[p].state == RUNNING
    ensures var r := Sleep(s, p, c);
      var x, y := s.procs[p], r.procs[p];
      && y == x.(state := SLEEPING, chan := c, prio := y.prio, budget := y.budget, ticksTotal := y.ticksTotal)
      && Settled(x, y, s.now)
      && r == s.(procs := s.procs[p := y], lists := r.lists)
      && r.lists == s.lists[RUN := Without(s.lists[RUN], p)][SLEEP := [p] + s.lists[SLEEP]]
  {
    assert PrioOk(s.procs[p]);
  }

  // The scheduler: proc.c:577-627

  /** The head of the best queue runs, charged from now on, and no longer waits for anything. */
  lemma PickEffect(s: Sys, k: nat)
    requires Partition(s) && k <= MAX && s.lists[k] != [] && forall j :: 0 <= j < k ==> s.lists[j] == []
    ensures var h := s.lists[k][0];
      && h < NPROC
      && Pick(s) == s.(procs := s.procs[h := s.procs[h].(state := RUNNING, ticksIn := s.now, chan := NoChan)],
                       lists := s.lists[k := s.lists[k][1..]][RUN := [h] + s.lists[RUN]])
  {
    HeadOf(s, k);
    hide Without, Listed, ListOk;
    WithoutFirst(s.lists[k], 0);
    assert BestQueue(s, 0) == k;
  }

  lemma HeadOf(s: Sys, l: nat)
    requires Partition(s) && l < NLISTS && s.lists[l] != []
    ensures s.lists[l][0] < NPROC && ListOf(s.procs[s.lists[l][0]]) == l
  {
    assert ListOk(s, l);
  }

  lemma NobodyToPick(s: Sys)
    requires Partition(s) && forall j :: 0 <= j <= MAX ==> s.lists[j] == []
    ensures Pick(s) == s
  {
    assert BestQueue(s, 0) == MAX + 1;
  }

  // A promotion pass: proc.c:1227-1248

  ghost predicate First(q: seq<nat>, p: nat) {
    q != [] && q[0] == p
  }

  /** What a pass leaves of queue `j`: the first goes up, and the first of the next comes in at the end. */
  ghost function AfterPass(lists: seq<seq<nat>>, j: nat): seq<nat>
    requires |lists| == NLISTS && j <= MAX
  {
    (if j == 0 || lists[j] == [] then lists[j] else lists[j][1..])
    + (if j == MAX || lists[j + 1] == [] then [] else [lists[j + 1][0]])
  }

  /** The same when only queues from `i` on have been seen to. */
  ghost function AfterFrom(lists: seq<seq<nat>>, i: nat, j: nat): seq<nat>
    requires |lists| == NLISTS && 1 <= i && j < NLISTS
  {
    if j > MAX || j + 1 < i then lists[j]
    else if j + 1 == i then lists[j] + (if i > MAX || lists[i] == [] then [] else [lists[i][0]])
    else AfterPass(lists, j)
  }

  /** The head of queue `i` goes to the end of the queue above. */
  ghost function HeadUp(lists: seq<seq<nat>>, i: nat): (r: seq<seq<nat>>)
    requires |lists| == NLISTS && 1 <= i <= MAX
    ensures |r| == NLISTS
  {
    if lists[i] == [] then lists else lists[i := lists[i][1..]][i - 1 := lists[i - 1] + [lists[i][0]]]
  }

  lemma AfterStep(lists: seq<seq<nat>>, i: nat, j: nat)
    requires |lists| == NLISTS && 1 <= i <= MAX && j < NLISTS
    ensures AfterFrom(HeadUp(lists, i), i + 1, j) == AfterFrom(lists, i, j)
  {}

  lemma PromoteHeadLists(s: Sys, i: nat)
    requires Partition(s) && 1 <= i <= MAX
    ensures PromoteHead(s, i).lists == HeadUp(s.lists, i)
  {
    if s.lists[i] != [] {
      HeadOf(s, i);
      hide Without, Listed, ListOk;
      WithoutFirst(s.lists[i], 0);
    }
  }

  lemma {:induction false} PromoteFromLists(s: Sys, i: nat, j: nat)
    requires Partition(s) && 1 <= i && j < NLISTS
    ensures PromoteFrom(s, i).lists[j] == AfterFrom(s.lists, i, j)
    decreases MAX + 1 - i
  {
    if i <= MAX {
      PromoteHeadPartition(s, i);
      PromoteHeadLists(s, i);
      AfterStep(s.lists, i, j);
      hide PromoteHead, Listed, ListOk, AfterFrom, HeadUp;
      PromoteFromLists(PromoteHead(s, i), i + 1, j);
    }
  }

  lemma {:induction false} PromoteFromProcs(s: Sys, i: nat, p: nat)
    requires Partition(s) && 1 <= i && p < NPROC
    ensures var x := s.procs[p];
      PromoteFrom(s, i).procs[p] ==
        if x.state == RUNNABLE && x.prio >= i && First(s.lists[x.prio], p) then x.(prio := x.prio - 1) else x
    decreases MAX + 1 - i
  {
    var x := s.procs[p];
    if i <= MAX {
      PromoteHeadPartition(s, i);
      PromoteHeadLists(s, i);
      if s.lists[i] != [] {
        HeadOf(s, i);
      }
      PromoteFromProcs(PromoteHead(s, i), i + 1, p);
      if ListOf(x) != i {
        NotUnder(s, i, p);
      }
      hide Listed, ListOk, Without;
    }
  }

  lemma NotUnder(s: Sys, i: nat, p: nat)
    requires Partition(s) && i < NLISTS && p < NPROC && ListOf(s.procs[p]) != i
    ensures p !in s.lists[i]
  {
    assert ListOk(s, i);
  }

  /**
   A pass that is due: everybody asleep or running goes up a level if there is one, of those waiting the first
   of each queue but the top one; nothing else about anybody changes. The queues shift accordingly, and the
   next pass is due TICKS_TO_PROMOTE ticks later.
   */
  lemma PassEffect(s: Sys, p: nat, j: nat)
    requires Partition(s) && PromotionDue(s) && p < NPROC && j < NLISTS
    ensures var r := Promoted(s);
      var x := s.procs[p];
      && r.procs[p] == x.(prio := if (x.state == SLEEPING || x.state == RUNNING) && x.prio > 0 then x.prio - 1
                                  else if x.state == RUNNABLE && x.prio > 0 && First(s.lists[x.prio], p) then x.prio - 1
                                  else x.prio)
      && r.lists[j] == (if j <= MAX then AfterPass(s.lists, j) else s.lists[j])
      && r == s.(procs := r.procs, lists := r.lists, promoteAt := s.now + TICKS_TO_PROMOTE)
  {
    AgePartition(s);
    PromoteFromProcs(Age(s), 1, p);
    PromoteFromLists(Age(s), 1, j);
    PromotedKeeps(s);
  }

  // kill and setpriority: proc.c:801-852, 1185-1225

  /** The process found is marked and sleeps no more: if it did, it is now the last of the queue of its priority. */
  lemma KillEffect(s: Sys, pid: int)
    requires Partition(s) && FindIn(s, KILL_ORDER, pid) != NIL
    ensures var p, r := FindIn(s, KILL_ORDER, pid), Kill(s, pid);
      var x := s.procs[p];
      && r == s.(procs := r.procs, lists := r.lists)
      && r.procs == s.procs[p := x.(killed := true, state := if x.state == SLEEPING then RUNNABLE else x.state)]
      && r.lists == if x.state == SLEEPING
                    then s.lists[SLEEP := Without(s.lists[SLEEP], p)][x.prio := s.lists[x.prio] + [p]]
                    else s.lists
  {
    assert PrioOk(s.procs[FindIn(s, KILL_ORDER, pid)]);
  }

  /** Every process but a free slot can be found, and if nobody has the pid nothing is done. */
  lemma KillFinds(s: Sys, pid: int)
    requires Partition(s)
    ensures FindIn(s, KILL_ORDER, pid) == NIL <==>
      forall q: nat :: q < NPROC && s.procs[q].state != UNUSED ==> s.procs[q].pid != pid
    ensures FindIn(s, KILL_ORDER, pid) == NIL ==> Kill(s, pid) == s
  {
    hide Listed, ListOk;
    forall q: nat | q < NPROC ensures ListOf(s.procs[q]) in KILL_ORDER <==> s.procs[q].state != UNUSED {
      assert PrioOk(s.procs[q]);
    }
  }

  /** The process found has the priority and, unless it waits in that queue already, a full budget. */
  lemma SetPriorityEffect(s: Sys, pid: int, prio: int)
    requires Partition(s) && 0 <= prio <= MAX && FindIn(s, PRIO_ORDER, pid) != NIL
    ensures var p, r := FindIn(s, PRIO_ORDER, pid), SetPriority(s, pid, prio);
      var x := s.procs[p];
      var moves := x.state == RUNNABLE && x.prio != prio;
      && r == s.(procs := r.procs, lists := r.lists)
      && r.procs == s.procs[p := x.(prio := prio, budget := if x.state == RUNNABLE && !moves then x.budget else BUDGET)]
      && r.lists == if moves
                    then s.lists[x.prio := Without(s.lists[x.prio], p)][prio := s.lists[prio] + [p]]
                    else s.lists
  {
    assert PrioOk(s.procs[FindIn(s, PRIO_ORDER, pid)]);
  }

  /** Those ready, running or asleep can be found; out of range, or with nobody found, nothing is done. */
  lemma SetPriorityFinds(s: Sys, pid: int, prio: int)
    requires Partition(s)
    ensures FindIn(s, PRIO_ORDER, pid) == NIL <==>
      forall q: nat :: q < NPROC && Alive(s.procs[q].state) ==> s.procs[q].pid != pid
    ensures prio < 0 || prio > MAX || FindIn(s, PRIO_ORDER, pid) == NIL ==> SetPriority(s, pid, prio) == s
  {
    hide Listed, ListOk;
    forall q: nat | q < NPROC ensures ListOf(s.procs[q]) in PRIO_ORDER <==> Alive(s.procs[q].state) {
      assert PrioOk(s.procs[q]);
    }
  }

  // wakeup: proc.c:750-765

  /** The sleepers on the channel that belong in queue `k`, in the order of the sleep list. */
  ghost function Woken(procs: seq<Proc>, q: seq<nat>, c: Chan, k: int): seq<nat>
    requires |procs| == NPROC && Slots(q)
  {
    if q == [] then []
    else (if procs[q[0]].chan == c && procs[q[0]].prio == k then [q[0]] else []) + Woken(procs, q[1..], c, k)
  }

  lemma {:induction false} WokenSame(procs: seq<Proc>, procs': seq<Proc>, q: seq<nat>, c: Chan, k: int)
    requires |procs| == |procs'| == NPROC && Slots(q) && forall i :: 0 <= i < |q| ==> procs'[q[i]] == procs[q[i]]
    ensures Woken(procs', q, c, k) == Woken(procs, q, c, k)
  {
    if q != [] {
      WokenSame(procs, procs', q[1..], c, k);
    }
  }

  lemma {:induction false} WakeFromLists(s: Sys, q: seq<nat>, c: Chan, k: nat)
    requires Partition(s) && Slots(q) && NoDup(q) && k <= MAX
    requires forall i :: 0 <= i < |q| ==> s.procs[q[i]].state == SLEEPING
    ensures WakeFrom(s, q, c).lists[k] == s.lists[k] + Woken(s.procs, q, c, k)
    decreases |q|
  {
    if q != [] {
      hide Listed, ListOk, Without;
      var t := if s.procs[q[0]].chan == c then WakeOne(s, q[0]) else s;
      MovePartition(s, q[0], s.procs[q[0]].(state := RUNNABLE), false);
      WakeFromLists(t, q[1..], c, k);
      WokenSame(s.procs, t.procs, q[1..], c, k);
      Assoc(s.lists[k], t.lists[k][|s.lists[k]|..], Woken(s.procs, q[1..], c, k));
    }
  }

  lemma Assoc(a: seq<nat>, b: seq<nat>, c: seq<nat>)
    ensures (a + b) + c == a + (b + c)
  {}

  /** Those woken join the queues of their priorities at the end, in the order of the sleep list. */
  lemma WakeLists(s: Sys, c: Chan, k: nat)
    requires Partition(s) && k <= MAX
    ensures Wake(s, c).lists[k] == s.lists[k] + Woken(s.procs, s.lists[SLEEP], c, k)
  {
    var q := s.lists[SLEEP];
    assert ListOk(s, SLEEP);
    forall i | 0 <= i < |q| ensures s.procs[q[i]].state == SLEEPING {
      assert ListOf(s.procs[q[i]]) == SLEEP && PrioOk(s.procs[q[i]]);
    }
    WakeFromLists(s, q, c, k);
  }

  lemma {:induction false} WakeFromKeeps(s: Sys, q: seq<nat>, c: Chan, l: nat)
    requires Partition(s) && Slots(q) && NoDup(q) && MAX < l < NLISTS && l != SLEEP
    requires forall i :: 0 <= i < |q| ==> s.procs[q[i]].state == SLEEPING
    ensures WakeFrom(s, q, c).lists[l] == s.lists[l]
    decreases |q|
  {
    if q != [] {
      hide Listed, ListOk, Without;
      var t := if s.procs[q[0]].chan == c then WakeOne(s, q[0]) else s;
      MovePartition(s, q[0], s.procs[q[0]].(state := RUNNABLE), false);
      WakeFromKeeps(t, q[1..], c, l);
    }
  }

  lemma WakeKeeps(s: Sys, c: Chan, l: nat)
    requires Partition(s) && MAX < l < NLISTS && l != SLEEP
    ensures Wake(s, c).lists[l] == s.lists[l]
  {
    var q := s.lists[SLEEP];
    assert ListOk(s, SLEEP);
    forall i | 0 <= i < |q| ensures s.procs[q[i]].state == SLEEPING {
      assert ListOf(s.procs[q[i]]) == SLEEP && PrioOk(s.procs[q[i]]);
    }
    WakeFromKeeps(s, q, c, l);
  }

  // exit and wait: proc.c:343-408, 455-521

  /** exit: the process is the first of the zombies, whoever is woken. */
  lemma ExitLists(s: Sys, p: nat)
    requires Partition(s) && p < NPROC && s.procs[p].state == RUNNING
    ensures var r := Exit(s, p).lists;
      && r[ZOMB] == [p] + s.lists[ZOMB] && r[RUN] == Without(s.lists[RUN], p)
      && r[FREE] == s.lists[FREE] && r[EMB] == s.lists[EMB]
  {
    var c := WaitChan(s.parent[p]);
    WakePartition(s, c);
    WakeRefinesScan(s, c);
    var w := Wake(s, c);
    var t := w.(parent := Reparent(w.parent, p, w.init));
    SameLists(w, t);
    WakeRefinesScan(t, WaitChan(w.init));
    forall l: nat | MAX < l < NLISTS && l != SLEEP ensures Orphan(w, p).lists[l] == s.lists[l] {
      WakeKeeps(s, c, l);
      WakeKeeps(t, WaitChan(w.init), l);
    }
  }

  /** wait: the first zombie child on the list is the one to go, and its slot is the next that is given out. */
  lemma ReapLists(s: Sys, p: nat)
    requires Partition(s) && p < NPROC && WaitStep(s, p).1.Reaped?
    ensures var r, z := WaitStep(s, p).0.lists, s.lists[ZOMB];
      exists k ::
        && 0 <= k < |z| && z[k] < NPROC && s.parent[z[k]] == p && (forall j :: 0 <= j < k ==> s.parent[z[j]] != p)
        && WaitStep(s, p).1.pid == s.procs[z[k]].pid
        && r == s.lists[ZOMB := Without(z, z[k])][FREE := [z[k]] + s.lists[FREE]]
  {
    var z := s.lists[ZOMB];
    assert ListOk(s, ZOMB);
    var k := FirstChild(z, s.parent, p);
    assert ListOf(s.procs[z[k]]) == ZOMB && PrioOk(s.procs[z[k]]);
  }

  // userinit: proc.c:148-212

  /** The state after userinit: process 1 in the last slot, ready, and the other slots free, the last first. */
  lemma BootIs(q: nat, l: nat, k: nat)
    requires q < NPROC - 1 && 0 < l < NLISTS && l != FREE && k < NPROC - 1
    ensures var s := Boot();
      && s.procs[NPROC - 1] == Proc(RUNNABLE, 0, BUDGET, NoChan, 1, false, 0, 0)
      && s.procs[q] == Proc(UNUSED, 0, 0, NoChan, 0, false, 0, 0)
      && s.parent[q] == s.parent[NPROC - 1] == NIL
      && s.lists[0] == [NPROC - 1] && s.lists[l] == []
      && |s.lists[FREE]| == NPROC - 1 && s.lists[FREE][k] == NPROC - 2 - k
      && s.init == NPROC - 1 && s.nextpid == 2 && s.now == 0 && s.promoteAt == TICKS_TO_PROMOTE
  {
    EmptyTablePartition();
    var e := EmptyTable();
    assert e.lists[FREE][0] == NPROC - 1;
    AllocLists(e, NPROC - 1);
    WithoutFirst([], NPROC - 1);
    var a := InitEmbryo(Alloc(e), NPROC - 1);
    assert a.lists[EMB] == [NPROC - 1] + [];
  }
}
