/**
 Budgets: every tick a process was charged is accounted for, by the expiries of its budget, by what it ran over at
 each of them, by what setpriority let it off, or by what its budget is short of now.
 */
module SchedBudget {
  import opened Seqs
  import opened Sched
  import opened SchedRuns
  import opened SchedLife
  import opened SchedEffects

  /**
   Since its slot was last initialised: how often the budget has run out, by how much it was overdrawn then, how
   much of it was used when setpriority filled it up, and the ticks of the last run, which exit does not take off it.
   */
  datatype Account = Account(expiries: nat, over: nat, spared: nat, last: nat)

  const NEW := Account(0, 0, 0, 0)

  /** The process whose budget a step settles, or NIL: whoever gives the processor up by yield or sleep. */
  ghost function Settles(s: Sys, e: Step): int
    requires Partition(s) && Enabled(s, e)
  {
    match e
    case DoYield(p) => p
    case DoSleep(p, _) => p
    case DoWait(p) => if WaitStep(s, p).1.Slept? then p else NIL
    case _ => NIL
  }

  /** The process that gets a full budget by setpriority, or NIL. */
  ghost function Refills(s: Sys, e: Step): int
    requires Partition(s)
  {
    if e.DoSetPriority? && 0 <= e.prio <= MAX then
      var p := FindIn(s, PRIO_ORDER, e.pid);
      if p != NIL && s.procs[p].state == RUNNABLE && s.procs[p].prio == e.prio then NIL else p
    else NIL
  }

  ghost function Entered(a: Account, x: Proc, now: int): Account
    requires now - x.ticksIn >= x.budget
  {
    a.(expiries := a.expiries + 1, over := a.over + (now - x.ticksIn - x.budget))
  }

  /** The accounts after a step. */
  ghost function Book(s: Sys, e: Step, x: seq<Account>): (r: seq<Account>)
    requires Partition(s) && Enabled(s, e) && |x| == NPROC && AllBalanced(s, x)
    ensures |r| == NPROC
  {
    var p, q := Settles(s, e), Refills(s, e);
    if e.DoInitEmbryo? then x[e.np := NEW]
    else if p != NIL && s.now - s.procs[p].ticksIn >= s.procs[p].budget then x[p := Entered(x[p], s.procs[p], s.now)]
    else if q != NIL then
      assert Balanced(s.procs[q], x[q], s.now);
      x[q := x[q].(spared := x[q].spared + (BUDGET - s.procs[q].budget))]
    else if e.DoExit? then
      assert Balanced(s.procs[e.p], x[e.p], s.now);
      x[e.p := x[e.p].(last := s.now - s.procs[e.p].ticksIn)]
    else x
  }

  ghost function Sum(a: Account): int {
    a.expiries * BUDGET + a.over + a.spared + a.last
  }

  /** Slots never used hold zeros; all others are balanced. */
  ghost predicate Balanced(p: Proc, a: Account, now: int) {
    if p.budget == 0 && (p.state == UNUSED || p.state == EMBRYO) then p.ticksTotal == 0 && a == NEW
    else
      && 0 < p.budget <= BUDGET
      && p.ticksTotal == Sum(a) + (BUDGET - p.budget)
      && (p.state == RUNNING ==> p.ticksIn <= now)
      && (Alive(p.state) ==> a.last == 0)
  }

  ghost predicate AllBalanced(s: Sys, x: seq<Account>) {
    && Shaped(s)
    && |x| == NPROC
    && forall p: nat :: p < NPROC ==> Balanced(s.procs[p], x[p], s.now)
  }

  lemma SettledBalanced(p: Proc, q: Proc, a: Account, now: int)
    requires p.state == RUNNING && Balanced(p, a, now) && Settled(p, q, now)
    requires q.state == RUNNABLE || q.state == SLEEPING
    ensures Balanced(q, if now - p.ticksIn >= p.budget then Entered(a, p, now) else a, now)
  {}

  lemma ExitBalanced(s: Sys, x: seq<Account>, p: nat)
    requires Partition(s) && AllBalanced(s, x) && Enabled(s, DoExit(p))
    ensures AllBalanced(Exit(s, p), Book(s, DoExit(p), x))
  {
    ExitSlots(s, p);
    var r, y := Exit(s, p), Book(s, DoExit(p), x);
    forall i: nat | i < NPROC ensures Balanced(r.procs[i], y[i], s.now) {
      assert Balanced(s.procs[i], x[i], s.now);
    }
  }

  lemma OneBalanced(s: Sys, r: Sys, x: seq<Account>, y: seq<Account>, p: nat)
    requires AllBalanced(s, x) && Shaped(r) && p < NPROC && |y| == NPROC && r.now == s.now
    requires r.procs == s.procs[p := r.procs[p]] && y == x[p := y[p]]
    requires Balanced(r.procs[p], y[p], r.now)
    ensures AllBalanced(r, y)
  {}

  lemma WaitBalanced(s: Sys, x: seq<Account>, p: nat)
    requires Partition(s) && AllBalanced(s, x) && Enabled(s, DoWait(p))
    ensures AllBalanced(Next(s, DoWait(p)), Book(s, DoWait(p), x))
  {
    var z := s.lists[ZOMB];
    var k := FirstChild(z, s.parent, p);
    var r, y := WaitStep(s, p).0, Book(s, DoWait(p), x);
    if k < |z| {
      assert ListOk(s, ZOMB);
      assert Balanced(s.procs[z[k]], x[z[k]], s.now);
      OneBalanced(s, r, x, y, z[k]);
    } else if WaitStep(s, p).1.Slept? {
      assert Balanced(s.procs[p], x[p], s.now);
      SleepEffect(s, p, WaitChan(p));
      SettledBalanced(s.procs[p], r.procs[p], x[p], s.now);
      OneBalanced(s, r, x, y, p);
    }
  }

  lemma SettleBalanced(s: Sys, x: seq<Account>, e: Step)
    requires Partition(s) && AllBalanced(s, x) && Enabled(s, e) && (e.DoYield? || e.DoSleep?)
    ensures AllBalanced(Next(s, e), Book(s, e, x))
  {
    hide Listed, ListOk, Without, BudgetUpdate;
    var p, r := e.p, Next(s, e);
    assert Balanced(s.procs[p], x[p], s.now);
    if e.DoYield? {
      YieldEffect(s, p);
    } else {
      SleepEffect(s, p, Other(e.id));
    }
    SettledBalanced(s.procs[p], r.procs[p], x[p], s.now);
    OneBalanced(s, r, x, Book(s, e, x), p);
  }

  lemma NextBalanced(s: Sys, e: Step, x: seq<Account>)
    requires Partition(s) && Enabled(s, e) && AllBalanced(s, x)
    ensures AllBalanced(Next(s, e), Book(s, e, x))
  {
    hide Listed, Without, BudgetUpdate, AllBalanced, Balanced, Partition, Exit, Schedule, Wake, Kill, SetPriority;
    match e
    case DoExit(p) => ExitBalanced(s, x, p);
    case DoYield(p) => SettleBalanced(s, x, e);
    case DoSleep(p, id) => SettleBalanced(s, x, e);
    case DoWait(p) => WaitBalanced(s, x, p);
    case DoSchedule => ScheduleBalanced(s, x);
    case DoWakeup(id) => WakeBalanced(s, x, Other(id));
    case DoKill(pid) => KillBalanced(s, pid, x);
    case DoSetPriority(pid, prio) => SetPriorityBalanced(s, pid, prio, x);
    case _ => EmbryoBalanced(s, e, x);
  }

  lemma EmbryoBalanced(s: Sys, e: Step, x: seq<Account>)
    requires Partition(s) && Enabled(s, e) && AllBalanced(s, x)
    requires e.DoAlloc? || e.DoInitEmbryo? || e.DoAbort? || e.DoPublish? || e.DoAdopt? || e.DoTick?
    ensures AllBalanced(Next(s, e), Book(s, e, x))
  {
    hide Listed, Without;
    match e
    case DoAlloc =>
      if s.lists[FREE] != [] {
        var p := s.lists[FREE][0];
        assert ListOk(s, FREE) && Balanced(s.procs[p], x[p], s.now);
        OneBalanced(s, Next(s, e), x, x, p);
      }
    case DoInitEmbryo(np) => OneBalanced(s, Next(s, e), x, Book(s, e, x), np);
    case DoAbort(np) => OneBalanced(s, Next(s, e), x, x, np);
    case DoPublish(np) =>
      assert Balanced(s.procs[np], x[np], s.now);
      OneBalanced(s, Next(s, e), x, x, np);
    case DoAdopt(np, p) => OneBalanced(s, Next(s, e), x, x, np);
    case DoTick =>
  }

  lemma WakeBalanced(s: Sys, x: seq<Account>, c: Chan)
    requires Partition(s) && AllBalanced(s, x)
    ensures AllBalanced(Wake(s, c), x)
  {
    hide Listed, ListOk, Wake;
    WakeRefinesScan(s, c);
  }

  lemma ScheduleBalanced(s: Sys, x: seq<Account>)
    requires Partition(s) && AllBalanced(s, x)
    ensures AllBalanced(Schedule(s), x)
  {
    PromotedKeeps(s);
    var t := Promoted(s);
    assert AllBalanced(t, x);
    var i := BestQueue(t, 0);
    if i <= MAX {
      assert ListOk(t, i);
    }
  }

  lemma KillBalanced(s: Sys, pid: int, x: seq<Account>)
    requires Partition(s) && AllBalanced(s, x)
    ensures AllBalanced(Kill(s, pid), x)
  {
    var p := FindIn(s, KILL_ORDER, pid);
  }

  lemma SetPriorityBalanced(s: Sys, pid: int, prio: int, x: seq<Account>)
    requires Partition(s) && AllBalanced(s, x)
    ensures AllBalanced(SetPriority(s, pid, prio), Book(s, DoSetPriority(pid, prio), x))
  {
    var p := FindIn(s, PRIO_ORDER, pid);
    if p != NIL {
      assert Balanced(s.procs[p], x[p], s.now);
      OneBalanced(s, SetPriority(s, pid, prio), x, Book(s, DoSetPriority(pid, prio), x), p);
    }
  }

  /** Accounts carried along a run. */
  ghost function Books(s: Sys, es: seq<Step>, x: seq<Account>): (r: seq<Account>)
    requires Partition(s) && ValidRun(s, es) && AllBalanced(s, x)
    ensures AllBalanced(Final(s, es), r)
    decreases |es|
  {
    if es == [] then x
    else
      NextPartition(s, es[0]);
      NextBalanced(s, es[0], x);
      Books(Next(s, es[0]), es[1..], Book(s, es[0], x))
  }

  lemma BootBalanced()
    ensures AllBalanced(Boot(), seq(NPROC, i => NEW))
  {
    BootInv();
  }

  /**
   From boot on, every process that has been published keeps a priority in range and a positive budget, and the
   ticks it was charged are exactly: a budget for each expiry, what it overran then, what setpriority spared it,
   and what it has used of its present budget.
   */
  lemma BudgetAccounting(es: seq<Step>, p: nat)
    requires ValidRun(Boot(), es) && p < NPROC
    ensures AllBalanced(Boot(), seq(NPROC, i => NEW))
    ensures var s := Final(Boot(), es);
      var a := Books(Boot(), es, seq(NPROC, i => NEW))[p];
      Shaped(s) && Alive(s.procs[p].state) ==>
        && 0 <= s.procs[p].prio <= MAX
        && 0 < s.procs[p].budget <= BUDGET
        && s.procs[p].ticksTotal == a.expiries * BUDGET + a.over + a.spared + (BUDGET - s.procs[p].budget)
  {
    BootBalanced();
    var x := seq(NPROC, i => NEW);
    var f, b := Final(Boot(), es), Books(Boot(), es, x);
    assert AllBalanced(f, b);
    assert Balanced(f.procs[p], b[p], f.now);
  }
}
