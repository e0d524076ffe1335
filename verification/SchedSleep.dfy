/**
 Sleepers and their channels: what a process sleeps on is what wakes it. A process that waits for its children is
 woken by the exit of any of them, however long it has slept.
 */
module SchedSleep {
  import opened Seqs
  import opened Sched
  import opened SchedRuns
  import opened SchedLife
  import opened SchedEffects

  /** sleep, and then wakeup: on the same channel it ends the sleep, on another it does not. */
  lemma SleepThenWake(s: Sys, p: nat, c: Chan, d: Chan)
    requires Partition(s) && p < NPROC && s.procs[p].state == RUNNING
    ensures Wake(Sleep(s, p, c), d).procs[p].state == if d == c then RUNNABLE else SLEEPING
    ensures Sleep(s, p, c).procs[p].chan == c
  {
    SleepEffect(s, p, c);
    SleepPartition(s, p, c);
    WakeRefinesScan(Sleep(s, p, c), d);
  }

  lemma SleepPartition(s: Sys, p: nat, c: Chan)
    requires Partition(s) && p < NPROC
    ensures Partition(Sleep(s, p, c))
  {
    MovePartition(s, p, Charge(BudgetUpdate(s.procs[p].(state := SLEEPING, chan := c), s.now), s.now), true);
  }

  ghost predicate Asleep(s: Sys, p: nat) {
    Partition(s) && p < NPROC && s.procs[p].state == SLEEPING
  }

  /** The steps that end a sleep on channel `c`: a wakeup of it, an exit that makes one, and a kill. */
  ghost predicate Ends(s: Sys, e: Step, p: nat)
    requires Asleep(s, p)
  {
    var c := s.procs[p].chan;
    match e
    case DoWakeup(id) => c == Other(id)
    case DoExit(q) =>
      q < NPROC && (c == WaitChan(s.parent[q]) || (c == WaitChan(s.init) && HasZombieKid(s, q)))
    case DoKill(pid) => FindIn(s, KILL_ORDER, pid) == p
    case _ => false
  }

  lemma KillAsleep(s: Sys, pid: int, p: nat)
    requires Asleep(s, p)
    ensures var r := Kill(s, pid).procs[p];
      r.chan == s.procs[p].chan && r.state == if FindIn(s, KILL_ORDER, pid) == p then RUNNABLE else SLEEPING
  {
    hide Listed, ListOk, Without, Kill, FindIn;
    if FindIn(s, KILL_ORDER, pid) != NIL {
      KillEffect(s, pid);
    } else {
      KillFinds(s, pid);
    }
  }

  lemma SetPriorityAsleep(s: Sys, pid: int, prio: int, p: nat)
    requires Asleep(s, p)
    ensures var r := SetPriority(s, pid, prio).procs[p];
      r.chan == s.procs[p].chan && r.state == SLEEPING
  {
    hide Listed, ListOk, Without, SetPriority, FindIn;
    if 0 <= prio <= MAX && FindIn(s, PRIO_ORDER, pid) != NIL {
      SetPriorityEffect(s, pid, prio);
    } else {
      SetPriorityFinds(s, pid, prio);
    }
  }

  lemma ScheduleAsleep(s: Sys, p: nat)
    requires Asleep(s, p)
    ensures var r := Schedule(s).procs[p];
      r.chan == s.procs[p].chan && r.state == SLEEPING
  {
    PromotedKeeps(s);
    var t := Promoted(s);
    var k := BestQueue(t, 0);
    if k <= MAX {
      PickEffect(t, k);
      HeadOf(t, k);
    }
  }

  lemma WaitAsleep(s: Sys, q: nat, p: nat)
    requires Asleep(s, p) && Enabled(s, DoWait(q))
    ensures var r := WaitStep(s, q).0.procs[p];
      r.chan == s.procs[p].chan && r.state == SLEEPING
  {
    var z := s.lists[ZOMB];
    assert ListOk(s, ZOMB);
    if WaitStep(s, q).1.Slept? {
      SleepEffect(s, q, WaitChan(q));
    }
  }

  /** Exactly these do, and then the process is ready; until then it sleeps on the channel it fell asleep on. */
  lemma SleepEnds(s: Sys, e: Step, p: nat)
    requires Asleep(s, p) && Enabled(s, e)
    ensures var r := Next(s, e).procs[p];
      r.chan == s.procs[p].chan && r.state == if Ends(s, e, p) then RUNNABLE else SLEEPING
  {
    hide Listed, ListOk, Without, BudgetUpdate, Kill, SetPriority, Schedule, WaitStep, Exit, Wake, FindIn;
    match e
    case DoWakeup(id) => WakeRefinesScan(s, Other(id));
    case DoExit(q) => ExitSlots(s, q);
    case DoKill(pid) => KillAsleep(s, pid, p);
    case DoSetPriority(pid, prio) => SetPriorityAsleep(s, pid, prio, p);
    case DoSchedule => ScheduleAsleep(s, p);
    case DoWait(q) => WaitAsleep(s, q, p);
    case DoYield(q) => YieldEffect(s, q);
    case DoSleep(q, id) => SleepEffect(s, q, Other(id));
    case DoAlloc =>
      if s.lists[FREE] != [] {
        HeadOf(s, FREE);
      }
    case _ =>
  }

  // Whole runs

  ghost predicate SleepsThrough(s: Sys, es: seq<Step>, p: nat)
    decreases |es|
  {
    Asleep(s, p) && (es == [] || (Enabled(s, es[0]) && !Ends(s, es[0], p) && SleepsThrough(Next(s, es[0]), es[1..], p)))
  }

  /** Over any run without such a step the process sleeps on, on its channel. */
  lemma {:induction false} SleepsOn(s: Sys, es: seq<Step>, p: nat)
    requires SleepsThrough(s, es, p)
    ensures ValidRun(s, es) && Asleep(Final(s, es), p) && Final(s, es).procs[p].chan == s.procs[p].chan
    decreases |es|
  {
    hide Ends, Enabled;
    if es != [] {
      NextPartition(s, es[0]);
      SleepEnds(s, es[0], p);
      SleepsOn(Next(s, es[0]), es[1..], p);
    }
  }

  lemma NoneToCollect(s: Sys, p: nat)
    requires Partition(s) && p < NPROC && WaitStep(s, p).1.Slept?
    ensures !HasZombieKid(s, p)
  {
    forall q: nat | q < NPROC && s.procs[q].state == ZOMBIE ensures s.parent[q] != p {
      assert Listed(s, q);
    }
  }

  /**
   wait: a process that goes to sleep in it has a live child and none to collect. However long it then sleeps, and
   whatever happens meanwhile, the exit of any of its children makes it ready.
   */
  lemma WaiterWoken(s: Sys, p: nat, es: seq<Step>, q: nat)
    requires Inv(s) && Enabled(s, DoWait(p)) && WaitStep(s, p).1.Slept?
    requires var t := WaitStep(s, p).0;
      SleepsThrough(t, es, p)
    ensures HasLiveKid(s, p) && !HasZombieKid(s, p) && ValidRun(WaitStep(s, p).0, es)
    ensures var f := Final(WaitStep(s, p).0, es);
      && Asleep(f, p) && f.procs[p].chan == WaitChan(p)
      && (Enabled(f, DoExit(q)) && f.parent[q] == p ==>
            Exit(f, q).procs[p].state == RUNNABLE && Exit(f, q).procs[q].state == ZOMBIE)
  {
    SleepEffect(s, p, WaitChan(p));
    NoneToCollect(s, p);
    var t := WaitStep(s, p).0;
    SleepsOn(t, es, p);
    var f := Final(t, es);
    if Enabled(f, DoExit(q)) && f.parent[q] == p {
      SleepEnds(f, DoExit(q), p);
      ExitSlots(f, q);
    }
  }
}
