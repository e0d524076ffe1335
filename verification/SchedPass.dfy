/**
 A promotion pass that leaves a waiting process where it is: the code walks each ready queue only as far
 as its first element.
 */
module SchedPass {
  import opened Seqs
  import opened Sched
  import opened SchedRuns
  import opened SchedLife
  import opened SchedFair

  lemma {:induction false} RunOn(s: Sys, es: seq<Step>, e: Step)
    requires Partition(s) && ValidRun(s, es) && Partition(Final(s, es)) && Enabled(Final(s, es), e)
    ensures ValidRun(s, es + [e]) && Final(s, es + [e]) == Next(Final(s, es), e)
    decreases |es|
  {
    if es == [] {
      assert es + [e] == [e];
      NextPartition(s, e);
      assert ValidRun(Next(s, e), []);
    } else {
      NextPartition(s, es[0]);
      RunOn(Next(s, es[0]), es[1..], e);
      assert (es + [e])[1..] == es[1..] + [e];
    }
  }

  /** A state some run from boot ends in. */
  ghost predicate Reached(s: Sys) {
    exists es :: ValidRun(Boot(), es) && Final(Boot(), es) == s
  }

  lemma Reach(s: Sys, e: Step)
    requires Reached(s) && Partition(s) && Enabled(s, e)
    ensures Reached(Next(s, e)) && Partition(Next(s, e))
  {
    var es :| ValidRun(Boot(), es) && Final(Boot(), es) == s;
    RunOn(Boot(), es, e);
    NextPartition(s, e);
  }

  const INIT: nat := NPROC - 1

  /** Processes init with pid 1 and `k` with pid 2, their states, and the two best ready queues. */
  ghost predicate Pair(s: Sys, k: nat, init: ProcState, kid: ProcState, q0: seq<nat>, q1: seq<nat>) {
    && Partition(s) && k < INIT && s.init == INIT
    && s.procs[INIT].state == init && s.procs[INIT].pid == 1
    && s.procs[k].state == kid && s.procs[k].pid == 2
    && (forall q: nat :: q < NPROC && q != k && q != INIT ==> s.procs[q].pid == 0)
    && s.lists[0] == q0 && s.lists[1] == q1
    && s.procs[INIT].prio == 0 && s.procs[INIT].budget == BUDGET && s.procs[INIT].ticksIn == s.now == 0
    && s.promoteAt == TICKS_TO_PROMOTE
  }

  /** Init runs, alone. */
  ghost predicate Alone(s: Sys) {
    && Partition(s) && s.init == INIT && s.nextpid == 2
    && s.procs[INIT].state == RUNNING && s.procs[INIT].pid == 1 && s.procs[INIT].prio == 0
    && s.procs[INIT].budget == BUDGET && s.procs[INIT].ticksIn == s.now == 0 && s.promoteAt == TICKS_TO_PROMOTE
    && (forall q: nat :: q < INIT ==> s.procs[q] == ZeroProc() && s.parent[q] == NIL)
    && s.lists[0] == s.lists[1] == []
  }

  lemma BootPicks() returns (s: Sys)
    ensures Reached(s) && Alone(s)
  {
    BootInv();
    var b := Boot();
    assert ValidRun(b, []) && Final(b, []) == b;
    Reach(b, DoSchedule);
    s := Next(b, DoSchedule);
    assert BestQueue(b, 0) == 0;
  }

  /** allocproc and the rest of fork give init a child, on the top queue. */
  lemma Forks(s: Sys) returns (k: nat, r: Sys)
    requires Reached(s) && Alone(s)
    ensures Reached(r) && Pair(r, k, RUNNING, RUNNABLE, [k], []) && r.procs[k].prio == 0
  {
    hide Reached, NoDup;
    assert Listed(s, 0) && ListOk(s, FREE);
    k := s.lists[FREE][0];
    Reach(s, DoAlloc);
    var a := Next(s, DoAlloc);
    Reach(a, DoInitEmbryo(k));
    var b := Next(a, DoInitEmbryo(k));
    Reach(b, DoAdopt(k, INIT));
    var c := Next(b, DoAdopt(k, INIT));
    Reach(c, DoPublish(k));
    r := Next(c, DoPublish(k));
  }

  /** setpriority finds the process of pair by its pid. */
  lemma Finds(s: Sys, k: nat, init: ProcState, kid: ProcState, q0: seq<nat>, q1: seq<nat>)
    requires Pair(s, k, init, kid, q0, q1) && Alive(init) && Alive(kid)
    ensures FindIn(s, PRIO_ORDER, 1) == INIT && FindIn(s, PRIO_ORDER, 2) == k
  {
    assert ListOf(s.procs[INIT]) in PRIO_ORDER && ListOf(s.procs[k]) in PRIO_ORDER;
  }

  lemma Lowers(s: Sys, k: nat)
    requires Pair(s, k, RUNNING, RUNNABLE, [k], []) && s.procs[k].prio == 0
    ensures var r := Next(s, DoSetPriority(2, 1));
      Pair(r, k, RUNNING, RUNNABLE, [], [k]) && r.procs[k].prio == 1
  {
    Finds(s, k, RUNNING, RUNNABLE, [k], []);
    NextPartition(s, DoSetPriority(2, 1));
  }

  lemma Yields(s: Sys, k: nat)
    requires Pair(s, k, RUNNING, RUNNABLE, [], [k]) && s.procs[k].prio == 1
    ensures var r := Next(s, DoYield(INIT));
      Pair(r, k, RUNNABLE, RUNNABLE, [INIT], [k]) && r.procs[k].prio == 1
  {
    NextPartition(s, DoYield(INIT));
  }

  /** Both processes wait in the second queue, `k` ahead of init, and a promotion is due `n` ticks from now. */
  ghost predicate BothWait(s: Sys, k: nat, n: nat) {
    && Partition(s) && k < INIT && Waiting(s, k) && Waiting(s, INIT)
    && s.procs[k].prio == s.procs[INIT].prio == 1 && s.lists[1] == [k, INIT]
    && s.now + n == s.promoteAt
  }

  lemma LowersInit(s: Sys, k: nat)
    requires Pair(s, k, RUNNABLE, RUNNABLE, [INIT], [k]) && s.procs[k].prio == 1
    ensures BothWait(Next(s, DoSetPriority(1, 1)), k, TICKS_TO_PROMOTE)
  {
    Finds(s, k, RUNNABLE, RUNNABLE, [INIT], [k]);
    NextPartition(s, DoSetPriority(1, 1));
  }

  lemma {:induction false} TicksOn(s: Sys, k: nat, n: nat) returns (r: Sys)
    requires Reached(s) && BothWait(s, k, n)
    ensures Reached(r) && BothWait(r, k, 0)
    decreases n
  {
    r := s;
    if n > 0 {
      Reach(s, DoTick);
      r := TicksOn(Next(s, DoTick), k, n - 1);
    }
  }

  /** A pass in such a state promotes one of the two. */
  lemma PassForgets(s: Sys, k: nat)
    requires BothWait(s, k, 0)
    ensures Promoted(s).procs[k].prio == 0 && Promoted(s).procs[INIT].prio == 1
  {
    PassPromotesOnlyHeads(s, k);
    PassPromotesOnlyHeads(s, INIT);
  }

  /** Such a state is reached from boot: a pass that is due passes over a process waiting below the top. */
  lemma PassLeavesWaiting() returns (s: Sys, k: nat)
    ensures Reached(s) && PromotionDue(s) && k != INIT && Waiting(s, k) && Waiting(s, INIT)
    ensures s.procs[k].prio == s.procs[INIT].prio == 1
    ensures Promoted(s).procs[k].prio == 0 && Promoted(s).procs[INIT].prio == 1
  {
    hide Reached, Promoted, Partition;
    s := BootPicks();
    k, s := Forks(s);
    Lowers(s, k);
    Reach(s, DoSetPriority(2, 1));
    s := Next(s, DoSetPriority(2, 1));
    Yields(s, k);
    Reach(s, DoYield(INIT));
    s := Next(s, DoYield(INIT));
    LowersInit(s, k);
    Reach(s, DoSetPriority(1, 1));
    s := TicksOn(Next(s, DoSetPriority(1, 1)), k, TICKS_TO_PROMOTE);
    PassForgets(s, k);
  }
}
