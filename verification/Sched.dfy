/**
 The process table of proc.c as a value: the process slots, their parents, and the contents of the
 state lists. Each function below is the effect of one critical section under ptable.lock.
 */
module Sched {
  import opened Seqs

  // param.h
  const NPROC := 64
  const MAX := 6
  const BUDGET := 1700
  const TICKS_TO_PROMOTE := 500

  /** The null process pointer. */
  const NIL := -1

  datatype ProcState = UNUSED | EMBRYO | SLEEPING | RUNNABLE | RUNNING | ZOMBIE

  /** Sleep channels: only wait() sleeps on a process address, everything else on other addresses. */
  datatype Chan = NoChan | WaitChan(proc: int) | Other(id: nat)

  datatype Proc = Proc(
    state: ProcState, prio: int, budget: int, chan: Chan,
    pid: int, killed: bool, ticksIn: int, ticksTotal: int)

  // The lists: ready[0..MAX] come first, then one list per remaining state.
  const FREE := MAX + 1
  const SLEEP := MAX + 2
  const ZOMB := MAX + 3
  const RUN := MAX + 4
  const EMB := MAX + 5
  const NLISTS := MAX + 6

  /** The list a slot has to be on. */
  function ListOf(p: Proc): int {
    match p.state
    case UNUSED => FREE
    case EMBRYO => EMB
    case SLEEPING => SLEEP
    case RUNNABLE => p.prio
    case RUNNING => RUN
    case ZOMBIE => ZOMB
  }

  datatype Sys = Sys(
    procs: seq<Proc>, parent: seq<int>, lists: seq<seq<nat>>,
    promoteAt: int, now: int, nextpid: int, init: int)

  ghost predicate PrioOk(p: Proc) {
    0 <= p.prio <= MAX
  }

  ghost predicate Slots(q: seq<nat>) {
    forall i :: 0 <= i < |q| ==> q[i] < NPROC
  }

  ghost predicate Shaped(s: Sys) {
    && |s.procs| == |s.parent| == NPROC
    && |s.lists| == NLISTS
    && (forall p :: 0 <= p < NPROC ==> PrioOk(s.procs[p]))
    && (forall l :: 0 <= l < NLISTS ==> Slots(s.lists[l]))
  }

  /** A list holds slots that belong there, each once. */
  ghost predicate ListOk(s: Sys, l: nat)
    requires Shaped(s) && l < NLISTS
  {
    && NoDup(s.lists[l])
    && forall i :: 0 <= i < |s.lists[l]| ==> ListOf(s.procs[s.lists[l][i]]) == l
  }

  ghost predicate Listed(s: Sys, p: nat)
    requires Shaped(s) && p < NPROC
  {
    p in s.lists[ListOf(s.procs[p])]
  }

  /** Every slot is on exactly one list, once: the list for its state and, if runnable, its priority. */
  ghost predicate Partition(s: Sys) {
    && Shaped(s)
    && (forall l: nat :: l < NLISTS ==> ListOk(s, l))
    && (forall p: nat :: p < NPROC ==> Listed(s, p))
  }

  /** Take slot `p` off its list, make it `q`, and put it on the list `q` belongs to. */
  function Move(s: Sys, p: nat, q: Proc, atHead: bool): (r: Sys)
    requires Shaped(s) && p < NPROC && PrioOk(q)
    ensures Shaped(r)
  {
    var from, to := ListOf(s.procs[p]), ListOf(q);
    var ls := s.lists[from := Without(s.lists[from], p)];
    s.(procs := s.procs[p := q],
       lists := ls[to := if atHead then [p] + ls[to] else ls[to] + [p]])
  }

  /** Change fields of slot `p` in place. */
  function Update(s: Sys, p: nat, q: Proc): (r: Sys)
    requires Shaped(s) && p < NPROC && PrioOk(q)
    ensures Shaped(r)
  {
    s.(procs := s.procs[p := q])
  }

  // allocproc: proc.c:69-145

  function Alloc(s: Sys): (r: Sys)
    requires Partition(s)
    ensures Shaped(r)
  {
    if s.lists[FREE] == [] then s
    else
      var p := s.lists[FREE][0];
      Move(s, p, s.procs[p].(state := EMBRYO, pid := s.nextpid), true).(nextpid := s.nextpid + 1)
  }

  function InitEmbryo(s: Sys, np: nat): (r: Sys)
    requires Shaped(s) && np < NPROC
    ensures Shaped(r)
  {
    Update(s, np, s.procs[np].(ticksTotal := 0, ticksIn := 0, prio := 0, budget := BUDGET))
  }

  // fork: proc.c:236-295

  function Adopt(s: Sys, np: nat, p: nat): (r: Sys)
    requires Shaped(s) && np < NPROC && p < NPROC
    ensures Shaped(r)
  {
    s.(parent := s.parent[np := p])
  }

  function Abort(s: Sys, np: nat): (r: Sys)
    requires Shaped(s) && np < NPROC
    ensures Shaped(r)
  {
    Move(s, np, s.procs[np].(state := UNUSED), true)
  }

  function Publish(s: Sys, np: nat): (r: Sys)
    requires Shaped(s) && np < NPROC
    ensures Shaped(r)
  {
    Move(s, np, s.procs[np].(state := RUNNABLE), false)
  }

  // budgetupdate and the charging part of sched: proc.c:1250-1261, 646-648

  function BudgetUpdate(p: Proc, now: int): (r: Proc)
    requires PrioOk(p)
    ensures PrioOk(r) && r == p.(prio := r.prio, budget := r.budget)
  {
    var b := p.budget - (now - p.ticksIn);
    if b <= 0 then p.(prio := if p.prio < MAX then p.prio + 1 else p.prio, budget := BUDGET)
    else p.(budget := b)
  }

  function Charge(p: Proc, now: int): Proc {
    p.(ticksTotal := p.ticksTotal + (now - p.ticksIn))
  }

  // yield and sleep: proc.c:654-670, 697-735

  function Yield(s: Sys, p: nat): (r: Sys)
    requires Shaped(s) && p < NPROC
    ensures Shaped(r)
  {
    Move(s, p, Charge(BudgetUpdate(s.procs[p].(state := RUNNABLE), s.now), s.now), false)
  }

  function Sleep(s: Sys, p: nat, c: Chan): (r: Sys)
    requires Shaped(s) && p < NPROC
    ensures Shaped(r)
  {
    Move(s, p, Charge(BudgetUpdate(s.procs[p].(state := SLEEPING, chan := c), s.now), s.now), true)
  }

  // wakeup1: proc.c:750-765

  function WakeOne(s: Sys, p: nat): (r: Sys)
    requires Shaped(s) && p < NPROC
    ensures Shaped(r)
  {
    Move(s, p, s.procs[p].(state := RUNNABLE), false)
  }

  function WakeFrom(s: Sys, q: seq<nat>, c: Chan): (r: Sys)
    requires Shaped(s) && Slots(q)
    ensures Shaped(r)
    decreases |q|
  {
    if q == [] then s
    else WakeFrom(if s.procs[q[0]].chan == c then WakeOne(s, q[0]) else s, q[1..], c)
  }

  function Wake(s: Sys, c: Chan): (r: Sys)
    requires Shaped(s)
    ensures Shaped(r)
  {
    WakeFrom(s, s.lists[SLEEP], c)
  }

  // exit: proc.c:343-408

  /** All children of `p` become children of `to`. */
  function Reparent(parent: seq<int>, p: int, to: int): (r: seq<int>)
    ensures |r| == |parent|
    ensures forall i :: 0 <= i < |r| ==> r[i] == if parent[i] == p then to else parent[i]
  {
    seq(|parent|, i requires 0 <= i < |parent| => if parent[i] == p then to else parent[i])
  }

  predicate HasZombieKid(s: Sys, p: int)
    requires Shaped(s)
  {
    exists q :: 0 <= q < NPROC && s.procs[q].state == ZOMBIE && s.parent[q] == p
  }

  /** The exiting process hands its children over: reparented, and init woken for the zombies. */
  function Orphan(s: Sys, p: nat): (r: Sys)
    requires Partition(s) && p < NPROC
    ensures Shaped(r)
  {
    var t := s.(parent := Reparent(s.parent, p, s.init));
    if HasZombieKid(s, p) then Wake(t, WaitChan(s.init)) else t
  }

  // wait: proc.c:455-521

  /** Position in `q` of the first slot whose parent is `p`. */
  function FirstChild(q: seq<nat>, parent: seq<int>, p: int): (k: nat)
    requires forall i :: 0 <= i < |q| ==> q[i] < |parent|
    ensures k <= |q|
    ensures k < |q| ==> parent[q[k]] == p
    ensures forall i :: 0 <= i < k ==> parent[q[i]] != p
  {
    if q == [] || parent[q[0]] == p then 0 else 1 + FirstChild(q[1..], parent, p)
  }

  predicate HasLiveKid(s: Sys, p: int)
    requires Shaped(s)
  {
    exists q :: 0 <= q < NPROC && s.procs[q].state != ZOMBIE && s.procs[q].state != UNUSED && s.parent[q] == p
  }

  function Reap(s: Sys, q: nat): (r: Sys)
    requires Shaped(s) && q < NPROC
    ensures Shaped(r)
  {
    Move(s, q, s.procs[q].(state := UNUSED, pid := 0, killed := false), true).(parent := s.parent[q := NIL])
  }

  datatype WaitResult = Reaped(pid: int) | NoChildren | Slept

  function WaitStep(s: Sys, p: nat): (r: (Sys, WaitResult))
    requires Partition(s) && p < NPROC
    ensures Shaped(r.0)
  {
    var z := s.lists[ZOMB];
    var k := FirstChild(z, s.parent, p);
    if k < |z| then (Reap(s, z[k]), Reaped(s.procs[z[k]].pid))
    else if !HasLiveKid(s, p) || s.procs[p].killed then (s, NoChildren)
    else (Sleep(s, p, WaitChan(p)), Slept)
  }

  // scheduler and prioadjust: proc.c:577-627, 1227-1248

  /** One level less for every sleeping or running process that is not at the top already. */
  function AgeProc(p: Proc): Proc {
    if (p.state == SLEEPING || p.state == RUNNING) && p.prio > 0 then p.(prio := p.prio - 1) else p
  }

  function Age(s: Sys): (r: Sys)
    requires Shaped(s)
    ensures Shaped(r)
  {
    s.(procs := seq(NPROC, i requires 0 <= i < NPROC => AgeProc(s.procs[i])))
  }

  /** The walk over ready[i] ends after its first element, so only the head moves up. */
  function PromoteHead(s: Sys, i: nat): (r: Sys)
    requires Shaped(s) && 1 <= i <= MAX
    ensures Shaped(r)
  {
    if s.lists[i] == [] then s
    else Move(s, s.lists[i][0], s.procs[s.lists[i][0]].(prio := i - 1), false)
  }

  lemma PromoteHeadPartition(s: Sys, i: nat)
    requires Partition(s) && 1 <= i <= MAX
    ensures Partition(PromoteHead(s, i))
  {
    assert ListOk(s, i);
    if s.lists[i] != [] {
      var h := s.lists[i][0];
      MovePartition(s, h, s.procs[h].(prio := i - 1), false);
    }
  }

  function PromoteFrom(s: Sys, i: nat): (r: Sys)
    requires Partition(s) && 1 <= i
    ensures Partition(r)
    decreases MAX + 1 - i
  {
    if i > MAX then s
    else
      PromoteHeadPartition(s, i);
      PromoteFrom(PromoteHead(s, i), i + 1)
  }

  function PrioAdjust(s: Sys): (r: Sys)
    requires Partition(s)
    ensures Partition(r)
  {
    AgePartition(s);
    var t := PromoteFrom(Age(s), 1);
    SameLists(t, t.(promoteAt := s.now + TICKS_TO_PROMOTE));
    t.(promoteAt := s.now + TICKS_TO_PROMOTE)
  }

  /** The best non-empty ready queue from `i` on, or MAX + 1. */
  function BestQueue(s: Sys, i: nat): (k: nat)
    requires Shaped(s) && i <= MAX + 1
    ensures i <= k <= MAX + 1
    ensures k <= MAX ==> s.lists[k] != []
    ensures forall j :: i <= j < k ==> s.lists[j] == []
    decreases MAX + 1 - i
  {
    if i > MAX || s.lists[i] != [] then i else BestQueue(s, i + 1)
  }

  function Dispatch(s: Sys, p: nat): (r: Sys)
    requires Shaped(s) && p < NPROC
    ensures Shaped(r)
  {
    Move(s, p, s.procs[p].(state := RUNNING, ticksIn := s.now, chan := NoChan), true)
  }

  function Pick(s: Sys): (r: Sys)
    requires Partition(s)
    ensures Shaped(r)
  {
    var i := BestQueue(s, 0);
    if i > MAX then s
    else
      Dispatch(s, s.lists[i][0])
  }

  predicate PromotionDue(s: Sys) {
    s.now >= s.promoteAt
  }

  function Promoted(s: Sys): (r: Sys)
    requires Partition(s)
    ensures Partition(r)
  {
    if PromotionDue(s) then PrioAdjust(s) else s
  }

  function Schedule(s: Sys): (r: Sys)
    requires Partition(s)
    ensures Shaped(r)
  {
    Pick(Promoted(s))
  }

  // kill and setpriority: proc.c:801-852, 1185-1225

  const KILL_ORDER: seq<nat> := [0, 1, 2, 3, 4, 5, 6, RUN, EMB, ZOMB, SLEEP]
  const PRIO_ORDER: seq<nat> := [0, 1, 2, 3, 4, 5, 6, RUN, SLEEP]

  /** The first slot of `q` with the given pid, or NIL. */
  function FindPid(q: seq<nat>, procs: seq<Proc>, pid: int): (p: int)
    requires forall i :: 0 <= i < |q| ==> q[i] < |procs|
    ensures p == NIL || (0 <= p < |procs| && p in q && procs[p].pid == pid)
    ensures p == NIL <==> forall i :: 0 <= i < |q| ==> procs[q[i]].pid != pid
  {
    if q == [] then NIL else if procs[q[0]].pid == pid then q[0] else FindPid(q[1..], procs, pid)
  }

  lemma NotOnList(s: Sys, l: nat, pid: int)
    requires Partition(s) && l < NLISTS && FindPid(s.lists[l], s.procs, pid) == NIL
    ensures forall q: nat :: q < NPROC && ListOf(s.procs[q]) == l ==> s.procs[q].pid != pid
  {
    forall q: nat | q < NPROC && ListOf(s.procs[q]) == l ensures s.procs[q].pid != pid {
      assert Listed(s, q);
    }
  }

  /** The first slot with the given pid, searching the lists in the given order. */
  function FindIn(s: Sys, order: seq<nat>, pid: int): (p: int)
    requires Partition(s) && forall i :: 0 <= i < |order| ==> order[i] < NLISTS
    ensures p == NIL || (0 <= p < NPROC && ListOf(s.procs[p]) in order && s.procs[p].pid == pid)
    ensures p == NIL <==> forall q: nat :: q < NPROC && ListOf(s.procs[q]) in order ==> s.procs[q].pid != pid
  {
    if order == [] then NIL
    else
      assert ListOk(s, order[0]);
      var p := FindPid(s.lists[order[0]], s.procs, pid);
      if p != NIL then p
      else
        NotOnList(s, order[0], pid);
        assert order == [order[0]] + order[1..];
        FindIn(s, order[1..], pid)
  }

  function Kill(s: Sys, pid: int): (r: Sys)
    requires Partition(s)
    ensures Shaped(r)
  {
    var p := FindIn(s, KILL_ORDER, pid);
    if p == NIL then s
    else if s.procs[p].state == SLEEPING then Move(s, p, s.procs[p].(killed := true, state := RUNNABLE), false)
    else Update(s, p, s.procs[p].(killed := true))
  }

  function SetPriority(s: Sys, pid: int, prio: int): (r: Sys)
    requires Partition(s)
    ensures Shaped(r)
  {
    var p := FindIn(s, PRIO_ORDER, pid);
    if !(0 <= prio <= MAX) || p == NIL then s
    else if s.procs[p].state != RUNNABLE then Update(s, p, s.procs[p].(prio := prio, budget := BUDGET))
    else if s.procs[p].prio != prio then Move(s, p, s.procs[p].(prio := prio, budget := BUDGET), false)
    else s
  }

  // The partition is kept by the two ways a slot can change.

  lemma MovePartition(s: Sys, p: nat, q: Proc, atHead: bool)
    requires Partition(s) && p < NPROC && PrioOk(q)
    ensures Partition(Move(s, p, q, atHead))
  {
    var r := Move(s, p, q, atHead);
    forall l: nat | l < NLISTS ensures ListOk(r, l) {
      MoveListOk(s, p, q, atHead, l);
    }
    forall x: nat | x < NPROC ensures Listed(r, x) {
      MoveListed(s, p, q, atHead, x);
    }
  }

  lemma MoveListOk(s: Sys, p: nat, q: Proc, atHead: bool, l: nat)
    requires Partition(s) && p < NPROC && PrioOk(q) && l < NLISTS
    ensures ListOk(Move(s, p, q, atHead), l)
  {
    hide NoDup, Without;
    var from := ListOf(s.procs[p]);
    assert ListOk(s, l);
    WithoutMembers(s.lists[l], p);
    var w := if l == from then Without(s.lists[l], p) else s.lists[l];
    assert p !in w;
    forall i | 0 <= i < |w| ensures w[i] < NPROC && ListOf(s.procs[w[i]]) == l && w[i] != p {
      assert w[i] in w && w[i] in s.lists[l];
    }
    var r := Move(s, p, q, atHead);
    NoDupExtend(w, p);
    assert r.lists[l] == if l != ListOf(q) then w else if atHead then [p] + w else w + [p];
  }

  lemma MoveListed(s: Sys, p: nat, q: Proc, atHead: bool, x: nat)
    requires Partition(s) && p < NPROC && PrioOk(q) && x < NPROC
    ensures Listed(Move(s, p, q, atHead), x)
  {
    var r := Move(s, p, q, atHead);
    var l := ListOf(r.procs[x]);
    if x != p {
      hide NoDup, Without;
      assert Listed(s, x) && ListOk(s, l);
      WithoutMembers(s.lists[l], p);
    }
  }

  lemma SameLists(s: Sys, r: Sys)
    requires Partition(s) && Shaped(r) && r.lists == s.lists
    requires forall p :: 0 <= p < NPROC ==> ListOf(r.procs[p]) == ListOf(s.procs[p])
    ensures Partition(r)
  {
    forall l: nat | l < NLISTS ensures ListOk(r, l) {
      assert ListOk(s, l);
    }
    forall p: nat | p < NPROC ensures Listed(r, p) {
      assert Listed(s, p);
    }
  }

  lemma AgePartition(s: Sys)
    requires Partition(s)
    ensures Partition(Age(s))
  {
    SameLists(s, Age(s));
  }
}
