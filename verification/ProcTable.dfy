/**
 proc.c in its own form: an array of process slots threaded onto singly linked lists. Every method is
 one critical section, proved to compute the corresponding function of module Sched and to reach none
 of the panics.
 */
module ProcTable {
  import opened Seqs
  import opened Sched
  import opened SchedRuns
  import opened SchedLife
  import SchedEffects

  // Chains of next pointers

  function At(q: seq<nat>, i: nat): int {
    if i < |q| then q[i] else NIL
  }

  ghost predicate Chain(head: int, next: seq<int>, q: seq<nat>) {
    && head == At(q, 0)
    && forall i :: 0 <= i < |q| ==> q[i] < |next| && next[q[i]] == At(q, i + 1)
  }

  lemma ChainTail(head: int, next: seq<int>, q: seq<nat>, p: nat)
    requires Chain(head, next, q) && NoDup(q) && p !in q && p < |next| && q != []
    ensures Chain(head, next[q[|q| - 1] := p][p := NIL], q + [p])
  {
    var next' := next[q[|q| - 1] := p][p := NIL];
    forall i | 0 <= i < |q| ensures next'[q[i]] == At(q + [p], i + 1) {
      assert q[i] in q && next[q[i]] == At(q, i + 1);
    }
  }

  lemma ChainRemove(head: int, next: seq<int>, q: seq<nat>, k: nat)
    requires Chain(head, next, q) && NoDup(q) && 0 < k < |q|
    ensures Chain(head, next[q[k - 1] := next[q[k]]][q[k] := NIL], Without(q, q[k]))
  {
    WithoutIsSplice(q, k);
    var r := q[..k] + q[k + 1..];
    var next' := next[q[k - 1] := next[q[k]]][q[k] := NIL];
    hide Without;
    forall i | 0 <= i < |r| ensures r[i] < |next'| && next'[r[i]] == At(r, i + 1) {
      if i < k {
        assert r[i] == q[i] && next[q[i]] == At(q, i + 1);
        assert i == k - 1 ==> next[q[k]] == At(q, k + 1) == At(r, k);
      } else {
        assert r[i] == q[i + 1] && next[q[i + 1]] == At(q, i + 2) == At(r, i + 1);
      }
    }
  }

  lemma ChainRemoveHead(head: int, next: seq<int>, q: seq<nat>)
    requires Chain(head, next, q) && NoDup(q) && q != []
    ensures Chain(next[q[0]], next[q[0] := NIL], q[1..])
  {
    var r := q[1..];
    assert next[q[0]] == At(q, 1) == At(r, 0);
    forall i | 0 <= i < |r| ensures r[i] < |next| && next[q[0] := NIL][r[i]] == At(r, i + 1) {
      assert r[i] == q[i + 1] && next[q[i + 1]] == At(q, i + 2);
    }
  }

  ghost predicate Thread(heads: seq<int>, next: seq<int>, lists: seq<seq<nat>>, loc: seq<int>, l: nat)
    requires |next| == |loc| == NPROC && |heads| == |lists| == NLISTS && l < NLISTS
  {
    && Chain(heads[l], next, lists[l])
    && NoDup(lists[l])
    && Slots(lists[l])
    && forall i :: 0 <= i < |lists[l]| ==> loc[lists[l][i]] == l
  }

  /** The heads and next pointers thread exactly the given lists, and `loc` says who is where. */
  ghost predicate Threads(heads: seq<int>, next: seq<int>, lists: seq<seq<nat>>, loc: seq<int>) {
    && |next| == |loc| == NPROC
    && |heads| == |lists| == NLISTS
    && (forall l :: 0 <= l < NLISTS ==> Slots(lists[l]))
    && forall l: nat :: l < NLISTS ==> Thread(heads, next, lists, loc, l)
  }

  /** Re-threading one list is fine if only slots of that list, or of no list, change their pointer. */
  lemma Rethread(heads: seq<int>, next: seq<int>, lists: seq<seq<nat>>, loc: seq<int>,
                 l: nat, head: int, next': seq<int>, q: seq<nat>, loc': seq<int>)
    requires Threads(heads, next, lists, loc) && l < NLISTS
    requires |next'| == |loc'| == NPROC && Chain(head, next', q) && NoDup(q)
    requires forall i :: 0 <= i < |q| ==> loc'[q[i]] == l
    requires forall x :: 0 <= x < NPROC && loc[x] != l && loc[x] != NIL ==> next'[x] == next[x] && loc'[x] == loc[x]
    ensures Threads(heads[l := head], next', lists[l := q], loc')
  {
    var heads', lists' := heads[l := head], lists[l := q];
    forall k: nat | k < NLISTS ensures Thread(heads', next', lists', loc', k) {
      if k != l {
        assert Thread(heads, next, lists, loc, k);
        forall i | 0 <= i < |lists[k]| ensures next'[lists[k][i]] == At(lists[k], i + 1) {
          assert next[lists[k][i]] == At(lists[k], i + 1);
        }
      }
    }
  }

  lemma Remaining(lists: seq<seq<nat>>, loc: seq<int>, l: nat, p: nat)
    requires |lists| == NLISTS && |loc| == NPROC && l < NLISTS && NoDup(lists[l]) && p < NPROC
    requires forall i :: 0 <= i < |lists[l]| ==> lists[l][i] < NPROC && loc[lists[l][i]] == l
    ensures var w := Without(lists[l], p);
      NoDup(w) && forall i :: 0 <= i < |w| ==> w[i] < NPROC && loc[p := NIL][w[i]] == l
  {
    WithoutMembers(lists[l], p);
    var w := Without(lists[l], p);
    forall i | 0 <= i < |w| ensures w[i] < NPROC && loc[p := NIL][w[i]] == l {
      assert w[i] in w && w[i] in lists[l];
    }
  }

  lemma UnthreadHead(heads: seq<int>, next: seq<int>, lists: seq<seq<nat>>, loc: seq<int>, l: nat)
    requires Threads(heads, next, lists, loc) && l < NLISTS && lists[l] != []
    ensures var p := lists[l][0];
      Threads(heads[l := next[p]], next[p := NIL], lists[l := Without(lists[l], p)], loc[p := NIL])
  {
    assert Thread(heads, next, lists, loc, l);
    var q := lists[l];
    var p := q[0];
    Remaining(lists, loc, l, p);
    ChainRemoveHead(heads[l], next, q);
    Rethread(heads, next, lists, loc, l, next[p], next[p := NIL], Without(q, p), loc[p := NIL]);
  }

  lemma UnthreadAt(heads: seq<int>, next: seq<int>, lists: seq<seq<nat>>, loc: seq<int>, l: nat, k: nat)
    requires Threads(heads, next, lists, loc) && l < NLISTS && 0 < k < |lists[l]|
    ensures var p := lists[l][k];
      Threads(heads, next[lists[l][k - 1] := next[p]][p := NIL], lists[l := Without(lists[l], p)], loc[p := NIL])
  {
    assert Thread(heads, next, lists, loc, l);
    var q := lists[l];
    var p := q[k];
    Remaining(lists, loc, l, p);
    ChainRemove(heads[l], next, q, k);
    assert loc[q[k - 1]] == l;
    Rethread(heads, next, lists, loc, l, heads[l], next[q[k - 1] := next[p]][p := NIL], Without(q, p), loc[p := NIL]);
    assert heads[l := heads[l]] == heads;
  }

  lemma ThreadHead(heads: seq<int>, next: seq<int>, lists: seq<seq<nat>>, loc: seq<int>, l: nat, p: nat)
    requires Threads(heads, next, lists, loc) && l < NLISTS && p < NPROC && loc[p] == NIL
    ensures Threads(heads[l := p], next[p := heads[l]], lists[l := [p] + lists[l]], loc[p := l])
  {
    NewOnList(heads, next, lists, loc, l, p);
    ChainHead(heads[l], next, lists[l], p);
    hide Chain, NoDup, Threads;
    Rethread(heads, next, lists, loc, l, p, next[p := heads[l]], [p] + lists[l], loc[p := l]);
  }

  lemma ChainHead(head: int, next: seq<int>, q: seq<nat>, p: nat)
    requires Chain(head, next, q) && p < |next| && p !in q
    ensures Chain(p, next[p := head], [p] + q)
  {
    var r, next' := [p] + q, next[p := head];
    forall i | 0 <= i < |r| ensures r[i] < |next'| && next'[r[i]] == At(r, i + 1) {
      if i > 0 {
        assert r[i] == q[i - 1] && next[q[i - 1]] == At(q, i);
      }
    }
  }

  /** A slot that is on no list can join any. */
  lemma NewOnList(heads: seq<int>, next: seq<int>, lists: seq<seq<nat>>, loc: seq<int>, l: nat, p: nat)
    requires Threads(heads, next, lists, loc) && l < NLISTS && p < NPROC && loc[p] == NIL
    ensures |next| == |loc| == NPROC && |heads| == |lists| == NLISTS && Chain(heads[l], next, lists[l])
    ensures p !in lists[l] && NoDup([p] + lists[l]) && NoDup(lists[l] + [p])
    ensures forall i :: 0 <= i < |lists[l]| ==> lists[l][i] < NPROC && loc[lists[l][i]] == l
  {
    assert Thread(heads, next, lists, loc, l);
    NoDupExtend(lists[l], p);
  }

  lemma ThreadTail(heads: seq<int>, next: seq<int>, lists: seq<seq<nat>>, loc: seq<int>, l: nat, p: nat)
    requires Threads(heads, next, lists, loc) && l < NLISTS && p < NPROC && loc[p] == NIL
    ensures var q := lists[l];
      if q == [] then Threads(heads[l := p], next[p := NIL], lists[l := q + [p]], loc[p := l])
      else Threads(heads, next[q[|q| - 1] := p][p := NIL], lists[l := q + [p]], loc[p := l])
  {
    if lists[l] == [] {
      ThreadFirst(heads, next, lists, loc, l, p);
    } else {
      ThreadLast(heads, next, lists, loc, l, p);
    }
  }

  lemma ThreadFirst(heads: seq<int>, next: seq<int>, lists: seq<seq<nat>>, loc: seq<int>, l: nat, p: nat)
    requires Threads(heads, next, lists, loc) && l < NLISTS && p < NPROC && loc[p] == NIL && lists[l] == []
    ensures Threads(heads[l := p], next[p := NIL], lists[l := lists[l] + [p]], loc[p := l])
  {
    NewOnList(heads, next, lists, loc, l, p);
    var r := lists[l] + [p];
    assert r == [p] && Chain(p, next[p := NIL], r);
    hide Chain, NoDup, Threads;
    Rethread(heads, next, lists, loc, l, p, next[p := NIL], r, loc[p := l]);
  }

  lemma ThreadLast(heads: seq<int>, next: seq<int>, lists: seq<seq<nat>>, loc: seq<int>, l: nat, p: nat)
    requires Threads(heads, next, lists, loc) && l < NLISTS && p < NPROC && loc[p] == NIL && lists[l] != []
    ensures var q := lists[l];
      Threads(heads, next[q[|q| - 1] := p][p := NIL], lists[l := q + [p]], loc[p := l])
  {
    NewOnList(heads, next, lists, loc, l, p);
    NotEmptyChain(heads, next, lists, loc, l);
    var q := lists[l];
    ChainTail(heads[l], next, q, p);
    hide Chain, NoDup, Threads;
    TailPlaces(loc, q, l, p);
    assert loc[q[|q| - 1]] == l;
    var next' := next[q[|q| - 1] := p][p := NIL];
    Rethread(heads, next, lists, loc, l, heads[l], next', q + [p], loc[p := l]);
    assert heads[l := heads[l]] == heads;
  }

  lemma TailPlaces(loc: seq<int>, q: seq<nat>, l: nat, p: nat)
    requires |loc| == NPROC && p < NPROC && forall i :: 0 <= i < |q| ==> q[i] < NPROC && loc[q[i]] == l
    ensures forall i :: 0 <= i < |q + [p]| ==> (q + [p])[i] < NPROC && loc[p := l][(q + [p])[i]] == l
  {}

  lemma NotEmptyChain(heads: seq<int>, next: seq<int>, lists: seq<seq<nat>>, loc: seq<int>, l: nat)
    requires Threads(heads, next, lists, loc) && l < NLISTS
    ensures NoDup(lists[l])
  {
    assert Thread(heads, next, lists, loc, l);
  }

  lemma HeadOf(heads: seq<int>, next: seq<int>, lists: seq<seq<nat>>, loc: seq<int>, l: nat)
    requires Threads(heads, next, lists, loc) && l < NLISTS
    ensures |heads| == |lists| == NLISTS && heads[l] == At(lists[l], 0)
  {
    assert Thread(heads, next, lists, loc, l);
  }

  lemma OnItsList(s: Sys, p: nat)
    requires Partition(s) && p < NPROC
    ensures Shaped(s) && p in s.lists[ListOf(s.procs[p])]
  {
    assert Listed(s, p);
  }

  lemma HeadState(s: Sys, l: nat)
    requires Partition(s) && l < NLISTS
    ensures Shaped(s) && (s.lists[l] != [] ==> s.lists[l][0] < NPROC && ListOf(s.procs[s.lists[l][0]]) == l)
  {
    assert ListOk(s, l);
  }

  lemma NextOf(heads: seq<int>, next: seq<int>, lists: seq<seq<nat>>, loc: seq<int>, l: nat, i: nat)
    requires Threads(heads, next, lists, loc) && l < NLISTS && i < |lists[l]|
    ensures |next| == NPROC && lists[l][i] < NPROC && next[lists[l][i]] == At(lists[l], i + 1)
  {
    assert Thread(heads, next, lists, loc, l);
  }

  lemma SlotsOf(s: Sys, l: nat)
    requires Partition(s) && l < NLISTS
    ensures Shaped(s) && Slots(s.lists[l]) && NoDup(s.lists[l])
    ensures forall i :: 0 <= i < |s.lists[l]| ==> ListOf(s.procs[s.lists[l][i]]) == l
  {
    assert ListOk(s, l);
  }

  ghost predicate Suffix(r: seq<nat>, q: seq<nat>) {
    |r| <= |q| && r == q[|q| - |r|..]
  }

  /** What is left to visit stays the end of the list when the element just visited is taken out. */
  lemma SuffixStep(r: seq<nat>, q: seq<nat>)
    requires NoDup(q) && Suffix(r, q) && r != []
    ensures r[0] == q[|q| - |r|] && At(r, 1) == At(q, |q| - |r| + 1)
    ensures Suffix(r[1..], q) && Suffix(r[1..], Without(q, r[0]))
  {
    WithoutIsSplice(q, |q| - |r|);
  }

  // Facts about wakeups that the loop over the zombies in exit relies on

  lemma {:induction false} WakeFromParent(s: Sys, q: seq<nat>, c: Chan, par: seq<int>)
    requires Shaped(s) && Slots(q) && |par| == NPROC
    ensures WakeFrom(s.(parent := par), q, c) == WakeFrom(s, q, c).(parent := par)
    decreases |q|
  {
    if q != [] {
      var t := if s.procs[q[0]].chan == c then WakeOne(s, q[0]) else s;
      WakeFromParent(t, q[1..], c, par);
    }
  }

  lemma {:induction false} WakeFromIdle(s: Sys, q: seq<nat>, c: Chan)
    requires Shaped(s) && Slots(q) && forall i :: 0 <= i < |q| ==> s.procs[q[i]].chan != c
    ensures WakeFrom(s, q, c) == s
    decreases |q|
  {
    if q != [] {
      WakeFromIdle(s, q[1..], c);
    }
  }

  /** Once everybody on a channel is awake, waking the channel again does nothing. */
  lemma WakeTwice(s: Sys, c: Chan)
    requires Partition(s)
    ensures Partition(Wake(s, c)) && Wake(Wake(s, c), c) == Wake(s, c)
  {
    WakePartition(s, c);
    WakeRefinesScan(s, c);
    var w := Wake(s, c);
    SlotsOf(w, SLEEP);
    forall i | 0 <= i < |w.lists[SLEEP]| ensures w.procs[w.lists[SLEEP][i]].chan != c {
      assert ListOf(w.procs[w.lists[SLEEP][i]]) == SLEEP;
    }
    WakeFromIdle(w, w.lists[SLEEP], c);
  }

  lemma {:induction false} WakeFromZombies(s: Sys, q: seq<nat>, c: Chan)
    requires Shaped(s) && Slots(q) && NoDup(q) && forall i :: 0 <= i < |q| ==> s.procs[q[i]].state == SLEEPING
    ensures WakeFrom(s, q, c).lists[ZOMB] == s.lists[ZOMB]
    decreases |q|
  {
    if q != [] {
      var t := if s.procs[q[0]].chan == c then WakeOne(s, q[0]) else s;
      WakeFromZombies(t, q[1..], c);
    }
  }

  lemma WakeZombies(s: Sys, c: Chan)
    requires Partition(s)
    ensures Wake(s, c).lists[ZOMB] == s.lists[ZOMB]
  {
    SlotsOf(s, SLEEP);
    assert forall i :: 0 <= i < |s.lists[SLEEP]| ==> s.procs[s.lists[SLEEP][i]].state == SLEEPING;
    WakeFromZombies(s, s.lists[SLEEP], c);
  }

  /** The state the zombie loop of exit is in: parents rewritten so far, and init woken if it had to be. */
  ghost function Woken(s: Sys, par: seq<int>, woke: bool): (r: Sys)
    requires Partition(s) && |par| == NPROC
  {
    SameLists(s, s.(parent := par));
    if woke then Wake(s.(parent := par), WaitChan(s.init)) else s.(parent := par)
  }

  /** The children among the first `k` zombies have been handed over to init, and `woke` says if there are any. */
  ghost predicate HandedTo(s: Sys, parent: seq<int>, z: seq<nat>, k: nat, p: nat, woke: bool) {
    && Shaped(s) && |parent| == NPROC && k <= |z| && (forall j :: 0 <= j < |z| ==> z[j] < NPROC)
    && (woke <==> exists j :: 0 <= j < k && s.parent[z[j]] == p)
    && (forall j :: 0 <= j < |z| ==> parent[z[j]] == if j < k && s.parent[z[j]] == p then s.init else s.parent[z[j]])
    && (forall i: nat :: i < NPROC && i !in z ==> parent[i] == s.parent[i])
  }

  lemma HandedNone(s: Sys, z: seq<nat>, p: nat)
    requires Shaped(s) && forall j :: 0 <= j < |z| ==> z[j] < NPROC
    ensures HandedTo(s, s.parent, z, 0, p, false)
  {}

  lemma HandedStep(s: Sys, parent: seq<int>, z: seq<nat>, k: nat, p: nat, woke: bool)
    requires HandedTo(s, parent, z, k, p, woke) && k < |z| && NoDup(z)
    ensures z[k] < NPROC == |parent|
    ensures if parent[z[k]] == p then HandedTo(s, parent[z[k] := s.init], z, k + 1, p, true)
      else HandedTo(s, parent, z, k + 1, p, woke)
  {
    assert parent[z[k]] == s.parent[z[k]];
  }

  lemma HandedDone(s: Sys, parent: seq<int>, z: seq<nat>, p: nat, woke: bool)
    requires Partition(s) && z == s.lists[ZOMB] && HandedTo(s, parent, z, |z|, p, woke)
    ensures woke <==> exists i :: 0 <= i < NPROC && s.procs[i].state == ZOMBIE && s.parent[i] == p
    ensures forall i :: 0 <= i < NPROC ==>
      parent[i] == if s.procs[i].state == ZOMBIE && s.parent[i] == p then s.init else s.parent[i]
  {
    assert ListOk(s, ZOMB);
    forall i: nat | i < NPROC ensures i in z <==> s.procs[i].state == ZOMBIE {
      if s.procs[i].state == ZOMBIE {
        OnItsList(s, i);
      }
    }
    if exists i :: 0 <= i < NPROC && s.procs[i].state == ZOMBIE && s.parent[i] == p {
      var i :| 0 <= i < NPROC && s.procs[i].state == ZOMBIE && s.parent[i] == p;
      assert i in z;
    }
  }

  lemma WokenFirst(s: Sys)
    requires Partition(s)
    ensures Shaped(s) && Woken(s, s.parent, false) == s
  {}

  lemma WokenAgain(s: Sys, par: seq<int>, woke: bool, par': seq<int>)
    requires Partition(s) && |par| == |par'| == NPROC
    ensures var v := Woken(s, par, woke).(parent := par');
      && Partition(v)
      && v.lists[ZOMB] == s.lists[ZOMB]
      && Wake(v, WaitChan(s.init)) == Woken(s, par', true)
      && Woken(s, par', true).lists[ZOMB] == s.lists[ZOMB]
      && Woken(s, par', true).parent == par'
      && Woken(s, par', true).init == s.init
  {
    var c := WaitChan(s.init);
    var t, t' := s.(parent := par), s.(parent := par');
    SameLists(s, t);
    SameLists(s, t');
    WakePartition(t, c);
    WakeTwice(t', c);
    WakeRefinesScan(t', c);
    WakeZombies(t, c);
    WakeZombies(t', c);
    WakeFromParent(t, t.lists[SLEEP], c, par');
    var v := Woken(s, par, woke).(parent := par');
    SameLists(Woken(s, par, woke), v);
  }

  /** At the end of the loops the children have been handed over exactly as Orphan says. */
  lemma WokenIsOrphan(w: Sys, s: Sys, par: seq<int>, woke: bool, p: nat)
    requires Inv(w) && p < NPROC && |par| == NPROC
    requires s == w.(parent := s.parent) && |s.parent| == NPROC && Partition(s)
    requires forall i :: 0 <= i < NPROC ==>
      par[i] == if w.parent[i] == p && w.procs[i].state != UNUSED then w.init else w.parent[i]
    requires woke <==> HasZombieKid(w, p)
    ensures Woken(s, par, woke) == Orphan(w, p)
  {
    forall i: nat | i < NPROC ensures par[i] == Reparent(w.parent, p, w.init)[i] {
      assert Kin(w, i);
    }
    assert par == Reparent(w.parent, p, w.init);
  }

  /** Neither the wakeups nor the handing over touch the exiting process itself. */
  lemma ExitingRuns(s: Sys, p: nat)
    requires Inv(s) && p < NPROC && s.procs[p].state == RUNNING
    ensures var w := Wake(s, WaitChan(s.parent[p]));
      && Inv(w) && w.init == s.init && w.procs[p].state == RUNNING
      && Partition(Orphan(w, p)) && Orphan(w, p).procs[p].state == RUNNING && Orphan(w, p).now == s.now
      && Partition(SchedRuns.Exit(s, p))
  {
    var c := WaitChan(s.parent[p]);
    WakeLife(s, c);
    WakeRefinesScan(s, c);
    var w := Wake(s, c);
    OrphanPartition(w, p);
    ExitPartition(s, p);
    var t := w.(parent := Reparent(w.parent, p, w.init));
    SameLists(w, t);
    WakeRefinesScan(t, WaitChan(w.init));
  }

  lemma AgedBoth(s: Sys, r: Sys)
    requires Shaped(s) && Shaped(r) && r == s.(procs := r.procs)
    requires forall i :: 0 <= i < NPROC ==>
      r.procs[i] == if s.procs[i].state == SLEEPING || s.procs[i].state == RUNNING then AgeProc(s.procs[i])
        else s.procs[i]
    ensures r == Age(s)
  {
    assert r.procs == Age(s).procs;
  }

  lemma Overwrite(a: seq<Proc>, p: nat, x: Proc, y: Proc)
    requires p < |a|
    ensures a[p := x][p := y] == a[p := y]
  {}

  lemma AdjustIs(s: Sys, r: Sys)
    requires Partition(s) && Partition(Age(s)) && Partition(r.(promoteAt := s.promoteAt))
    requires PromoteFrom(r.(promoteAt := s.promoteAt), MAX + 1) == PromoteFrom(Age(s), 1)
    requires r.promoteAt == s.now + TICKS_TO_PROMOTE
    ensures r == PrioAdjust(s) && Partition(r)
  {}

  class Table {
    var procs: seq<Proc>
    var parent: seq<int>
    var next: seq<int>
    var heads: seq<int>
    var promoteAt: int
    var ticks: int
    var nextpid: int
    var initproc: int
    var panicked: bool

    /** The contents of the lists, and for each slot the list it is on (or NIL). */
    ghost var lists: seq<seq<nat>>
    ghost var loc: seq<int>

    ghost predicate Linked()
      reads this
    {
      && |procs| == |parent| == |next| == |loc| == NPROC
      && |heads| == |lists| == NLISTS
      && (forall p :: 0 <= p < NPROC ==> PrioOk(procs[p]))
      && Threads(heads, next, lists, loc)
    }

    ghost function View(): Sys
      reads this
    {
      Sys(procs, parent, lists, promoteAt, ticks, nextpid, initproc)
    }

    ghost predicate Valid()
      reads this
    {
      && Linked()
      && Shaped(View())
      && Partition(View())
      && !panicked
      && forall p :: 0 <= p < NPROC ==> loc[p] == ListOf(procs[p])
    }

    // userinit: proc.c:148-212

    constructor UserInit()
      ensures Valid() && View() == Boot()
    {
      procs := seq(NPROC, i => ZeroProc());
      parent := seq(NPROC, i => NIL);
      next := seq(NPROC, i => NIL);
      heads := seq(NLISTS, i => NIL);
      promoteAt, ticks, nextpid, initproc, panicked := TICKS_TO_PROMOTE, 0, 1, NIL, false;
      lists := seq(NLISTS, i => []);
      loc := seq(NPROC, i => NIL);
      new;
      FreeAll();
      StartInit();
    }

    /** Put every slot on the free list. */
    method FreeAll()
      requires Linked() && !panicked && View() == EmptyTable().(lists := seq(NLISTS, i => []))
      requires forall x :: 0 <= x < NPROC ==> loc[x] == NIL
      modifies this`procs, this`next, this`heads, this`lists, this`loc
      ensures Valid() && View() == EmptyTable()
    {
      hide Partition, Threads;
      for p := 0 to NPROC
        invariant Linked() && procs == old(procs)
        invariant forall x :: 0 <= x < NPROC ==> loc[x] == if x < p then FREE else NIL
        invariant |lists| == NLISTS && |lists[FREE]| == p
        invariant forall i :: 0 <= i < p ==> lists[FREE][i] == p - 1 - i
        invariant forall l :: 0 <= l < NLISTS && l != FREE ==> lists[l] == []
      {
        procs := procs[p := procs[p].(state := UNUSED)];
        var _ := InsertHead(FREE, p);
      }
      EmptyTablePartition();
      assert lists[FREE] == EmptyTable().lists[FREE];
      assert lists == EmptyTable().lists;
    }

    /** Create the first process and make it runnable, setting the head of ready[0] directly. */
    method StartInit()
      requires Valid() && View() == EmptyTable()
      modifies this
      ensures Valid() && View() == Boot()
    {
      hide Partition, Threads, Without;
      var p := AllocProc();
      InitEmbryo(p);
      initproc := p;
      SameLists(View().(init := NIL), View());
      FirstReady(p);
    }

    method FirstReady(p: nat)
      requires Valid() && p < NPROC && procs[p].state == EMBRYO && procs[p].prio == 0 && lists[0] == []
      modifies this`procs, this`next, this`heads, this`lists, this`loc, this`panicked
      ensures Valid() && View() == Publish(old(View()), p)
    {
      hide Partition, Threads, Without, Shaped;
      MovePartition(View(), p, procs[p].(state := RUNNABLE), false);
      Unlist(p, EMB, EMBRYO);
      procs := procs[p := procs[p].(state := RUNNABLE)];
      ThreadTail(heads, next, lists, loc, 0, p);
      heads := heads[0 := p];
      next := next[heads[0] := NIL];
      lists := lists[0 := lists[0] + [p as nat]];
      loc := loc[p := 0];
    }

    // List helpers: proc.c:1033-1109

    method InsertHead(l: nat, p: int) returns (r: int)
      requires Linked() && l < NLISTS && (p == NIL || (0 <= p < NPROC && loc[p] == NIL))
      modifies this`next, this`heads, this`lists, this`loc
      ensures Linked()
      ensures p == NIL ==> r == -1 && unchanged(this)
      ensures p != NIL ==>
        && r == 0
        && lists == old(lists)[l := [p as nat] + old(lists[l])]
        && loc == old(loc)[p := l]
    {
      if p == NIL {
        return -1;
      }
      ThreadHead(heads, next, lists, loc, l, p);
      next := next[p := heads[l]];
      heads := heads[l := p];
      lists := lists[l := [p as nat] + lists[l]];
      loc := loc[p := l];
      return 0;
    }

    method InsertTail(l: nat, p: int) returns (r: int)
      requires Linked() && l < NLISTS && (p == NIL || (0 <= p < NPROC && loc[p] == NIL))
      modifies this`next, this`heads, this`lists, this`loc
      ensures Linked()
      ensures p == NIL ==> r == -1 && unchanged(this)
      ensures p != NIL ==>
        && r == 0
        && lists == old(lists)[l := old(lists[l]) + [p as nat]]
        && loc == old(loc)[p := l]
        && next[p] == NIL
    {
      hide Threads;
      HeadOf(heads, next, lists, loc, l);
      var curr := heads[l];
      if p == NIL {
        return -1;
      }
      ghost var q := lists[l];
      ThreadTail(heads, next, lists, loc, l, p);
      if heads[l] == NIL {
        heads := heads[l := p];
        next := next[p := NIL];
      } else {
        ghost var i := 0;
        NextOf(heads, next, lists, loc, l, 0);
        while next[curr] != NIL
          modifies {}
          invariant 0 <= i < |q| && curr == q[i] < NPROC
          decreases |q| - i
        {
          NextOf(heads, next, lists, loc, l, i);
          NextOf(heads, next, lists, loc, l, i + 1);
          curr := next[curr];
          i := i + 1;
        }
        NextOf(heads, next, lists, loc, l, i);
        next := next[curr := p];
        next := next[next[curr] := NIL];
      }
      lists := lists[l := q + [p as nat]];
      loc := loc[p := l];
      return 0;
    }

    method RemoveFromStateList(l: nat, p: int) returns (r: int)
      requires Linked() && l < NLISTS && (p == NIL || 0 <= p < NPROC)
      modifies this`next, this`heads, this`lists, this`loc
      ensures Linked()
      ensures p == NIL || p !in old(lists[l]) ==> r == -1 && unchanged(this)
      ensures p != NIL && p in old(lists[l]) ==>
        && r == 0
        && lists == old(lists)[l := Without(old(lists[l]), p as nat)]
        && loc == old(loc)[p := NIL]
        && next[p] == NIL
    {
      hide Threads, Without;
      HeadOf(heads, next, lists, loc, l);
      ghost var q := lists[l];
      if heads[l] == NIL || p == NIL {
        return -1;
      }
      if heads[l] == p {
        UnthreadHead(heads, next, lists, loc, l);
        var n := heads[l];
        heads := heads[l := next[heads[l]]];
        next := next[n := NIL];
      } else {
        var curr, n := heads[l], NIL;
        ghost var i := 0;
        while curr != NIL && curr != p
          modifies {}
          invariant 0 <= i <= |q| && curr == At(q, i)
          invariant forall j :: 0 <= j < i ==> q[j] != p
          invariant i > 0 ==> n == q[i - 1]
          decreases |q| - i
        {
          NextOf(heads, next, lists, loc, l, i);
          n, curr := curr, next[curr];
          i := i + 1;
        }
        if curr == NIL {
          return -1;
        }
        NextOf(heads, next, lists, loc, l, i - 1);
        UnthreadAt(heads, next, lists, loc, l, i);
        next := next[n := next[curr]];
        next := next[curr := NIL];
      }
      lists := lists[l := Without(q, p as nat)];
      loc := loc[p := NIL];
      return 0;
    }

    method AssertState(p: nat, st: ProcState)
      requires Linked() && p < NPROC
      modifies this`panicked
      ensures panicked == (old(panicked) || procs[p].state != st)
    {
      if procs[p].state != st {
        panicked := true;
      }
    }

    method AssertPrio(p: nat, prio: int)
      requires Linked() && p < NPROC
      modifies this`panicked
      ensures panicked == (old(panicked) || procs[p].prio != prio)
    {
      if procs[p].prio != prio {
        panicked := true;
      }
    }

    method RemoveFromReadyList(p: nat, prio: nat)
      requires Valid() && p < NPROC && prio <= MAX && procs[p].state == RUNNABLE && procs[p].prio == prio
      modifies this`next, this`heads, this`lists, this`loc, this`panicked
      ensures Linked() && !panicked
      ensures lists == old(lists)[prio := Without(old(lists[prio]), p)]
      ensures loc == old(loc)[p := NIL] && next[p] == NIL
    {
      OnItsList(View(), p);
      var _ := RemoveFromStateList(prio, p);
      AssertPrio(p, prio);
      AssertState(p, RUNNABLE);
    }

    // Life of a process: proc.c:69-145, 236-295, 653-735

    /** Take `p` off the list of its state, whose entry the caller relies on. */
    method Unlist(p: nat, l: nat, st: ProcState)
      requires Valid() && p < NPROC && procs[p].state == st && ListOf(procs[p]) == l
      modifies this`next, this`heads, this`lists, this`loc, this`panicked
      ensures Linked() && !panicked
      ensures lists == old(lists)[l := Without(old(lists[l]), p)]
      ensures loc == old(loc)[p := NIL] && next[p] == NIL
    {
      OnItsList(View(), p);
      var _ := RemoveFromStateList(l, p);
      AssertState(p, st);
    }

    method AllocProc() returns (p: int)
      requires Valid()
      modifies this
      ensures Valid() && View() == Alloc(old(View()))
      ensures p == At(old(lists[FREE]), 0)
    {
      hide Partition, Threads, Without, Shaped;
      NextPartition(View(), DoAlloc);
      HeadOf(heads, next, lists, loc, FREE);
      HeadState(View(), FREE);
      p := heads[FREE];
      if p == NIL {
        return;
      }
      Unlist(p, FREE, UNUSED);
      ghost var q := procs[p].(state := EMBRYO);
      Overwrite(procs, p, q, q.(pid := nextpid));
      procs := procs[p := procs[p].(state := EMBRYO)];
      var _ := InsertHead(EMB, p);
      procs := procs[p := procs[p].(pid := nextpid)];
      nextpid := nextpid + 1;
    }

    method InitEmbryo(np: nat)
      requires Valid() && Enabled(View(), DoInitEmbryo(np))
      modifies this`procs
      ensures Valid() && View() == Sched.InitEmbryo(old(View()), np)
    {
      hide Partition, Threads, Without, Shaped;
      NextPartition(View(), DoInitEmbryo(np));
      procs := procs[np := procs[np].(ticksTotal := 0, ticksIn := 0)];
      procs := procs[np := procs[np].(prio := 0, budget := BUDGET)];
      assert View() == Sched.InitEmbryo(old(View()), np);
    }

    method SetParent(np: nat, p: nat)
      requires Valid() && Enabled(View(), DoAdopt(np, p))
      modifies this`parent
      ensures Valid() && View() == Adopt(old(View()), np, p)
    {
      hide Partition, Threads, Without, Shaped;
      NextPartition(View(), DoAdopt(np, p));
      parent := parent[np := p];
    }

    method AbortEmbryo(np: nat)
      requires Valid() && Enabled(View(), DoAbort(np))
      modifies this`procs, this`next, this`heads, this`lists, this`loc, this`panicked
      ensures Valid() && View() == Abort(old(View()), np)
    {
      hide Partition, Threads, Without, Shaped;
      NextPartition(View(), DoAbort(np));
      Unlist(np, EMB, EMBRYO);
      procs := procs[np := procs[np].(state := UNUSED)];
      var _ := InsertHead(FREE, np);
    }

    method PublishEmbryo(np: nat)
      requires Valid() && Enabled(View(), DoPublish(np))
      modifies this`procs, this`next, this`heads, this`lists, this`loc, this`panicked
      ensures Valid() && View() == Publish(old(View()), np)
    {
      hide Partition, Threads, Without, Shaped;
      NextPartition(View(), DoPublish(np));
      Unlist(np, EMB, EMBRYO);
      procs := procs[np := procs[np].(state := RUNNABLE)];
      var _ := InsertTail(0, np);
    }

    /**
     fork, where `copied` says if copyuvm succeeded. Without a free slot nothing changes; if the copy fails the
     lists are as before; otherwise the child is the last of the top queue.
     */
    method Fork(p: nat, copied: bool) returns (pid: int)
      requires Valid() && InState(View(), p, RUNNING)
      requires forall q: nat :: q < NPROC && procs[q].state == UNUSED ==> parent[q] == NIL
      modifies this
      ensures Valid()
      ensures old(lists[FREE]) == [] ==> pid == -1 && View() == old(View())
      ensures old(lists[FREE]) != [] ==>
        var np := old(lists[FREE][0]);
        && np < NPROC && pid == (if copied then old(nextpid) else -1)
        && View() == if copied then Forked(old(View()), np, p) else ForkAborted(old(View()), np)
    {
      hide Partition, Threads, Without, Shaped, Linked;
      ghost var s := View();
      HeadState(s, FREE);
      var np := AllocProc();
      if np == NIL {
        return -1;
      }
      AllocLists(s, np);
      InitEmbryo(np);
      if !copied {
        AbortEmbryo(np);
        return -1;
      }
      SetParent(np, p);
      pid := procs[np].pid;
      PublishEmbryo(np);
    }

    method BudgetUpdate(p: nat)
      requires |procs| == NPROC && p < NPROC && PrioOk(procs[p])
      modifies this`procs
      ensures procs == old(procs)[p := Sched.BudgetUpdate(old(procs[p]), ticks)]
    {
      procs := procs[p := procs[p].(budget := procs[p].budget - (ticks - procs[p].ticksIn))];
      if 0 >= procs[p].budget {
        if MAX > procs[p].prio {
          procs := procs[p := procs[p].(prio := procs[p].prio + 1)];
        }
        procs := procs[p := procs[p].(budget := BUDGET)];
      }
    }

    /** The bookkeeping half of sched; the switch itself is the end of the critical section. */
    method ChargeTicks(p: nat)
      requires |procs| == NPROC && p < NPROC
      modifies this`procs, this`panicked
      ensures procs == old(procs)[p := Charge(old(procs[p]), ticks)]
      ensures panicked == (old(panicked) || old(procs[p].state) == RUNNING)
    {
      if procs[p].state == RUNNING {
        panicked := true;
      }
      procs := procs[p := procs[p].(ticksTotal := procs[p].ticksTotal + (ticks - procs[p].ticksIn))];
    }

    method Yield(p: nat)
      requires Valid() && Enabled(View(), DoYield(p))
      modifies this`procs, this`next, this`heads, this`lists, this`loc, this`panicked
      ensures Valid() && View() == Sched.Yield(old(View()), p)
      ensures procs[p].state == RUNNABLE && SchedEffects.Settled(old(procs[p]), procs[p], ticks)
      ensures lists[procs[p].prio] == old(lists)[procs[p].prio] + [p]
    {
      SchedEffects.YieldEffect(View(), p);
      hide Partition, Threads, Without, Shaped, Sched.BudgetUpdate;
      ghost var a := procs[p].(state := RUNNABLE);
      ghost var b := Sched.BudgetUpdate(a, ticks);
      MovePartition(View(), p, Charge(b, ticks), false);
      Unlist(p, RUN, RUNNING);
      Overwrite(procs, p, a, b);
      Overwrite(procs, p, b, Charge(b, ticks));
      procs := procs[p := procs[p].(state := RUNNABLE)];
      BudgetUpdate(p);
      var _ := InsertTail(procs[p].prio, p);
      ChargeTicks(p);
    }

    method Sleep(p: nat, chan: Chan)
      requires Valid() && p < NPROC && procs[p].state == RUNNING
      modifies this`procs, this`next, this`heads, this`lists, this`loc, this`panicked
      ensures Valid() && View() == Sched.Sleep(old(View()), p, chan)
      ensures procs[p].state == SLEEPING && procs[p].chan == chan
      ensures SchedEffects.Settled(old(procs[p]), procs[p], ticks)
    {
      SchedEffects.SleepEffect(View(), p, chan);
      hide Partition, Threads, Without, Shaped, Sched.BudgetUpdate;
      ghost var q := procs[p].(state := SLEEPING, chan := chan);
      ghost var b := Sched.BudgetUpdate(q, ticks);
      MovePartition(View(), p, Charge(b, ticks), true);
      OnItsList(View(), p);
      Overwrite(procs, p, procs[p].(chan := chan), q);
      Overwrite(procs, p, q, b);
      Overwrite(procs, p, b, Charge(b, ticks));
      procs := procs[p := procs[p].(chan := chan)];
      var _ := RemoveFromStateList(RUN, p);
      AssertState(p, RUNNING);
      procs := procs[p := procs[p].(state := SLEEPING)];
      BudgetUpdate(p);
      var _ := InsertHead(SLEEP, p);
      ChargeTicks(p);
    }

    // wakeup1: proc.c:750-765

    method WakeProc(p: nat)
      requires Valid() && p < NPROC && procs[p].state == SLEEPING
      modifies this`procs, this`next, this`heads, this`lists, this`loc, this`panicked
      ensures Valid() && View() == WakeOne(old(View()), p)
    {
      hide Partition, Threads, Without, Shaped;
      MovePartition(View(), p, procs[p].(state := RUNNABLE), false);
      Unlist(p, SLEEP, SLEEPING);
      procs := procs[p := procs[p].(state := RUNNABLE)];
      var _ := InsertTail(procs[p].prio, p);
    }

    method Wakeup1(chan: Chan)
      requires Valid()
      modifies this`procs, this`next, this`heads, this`lists, this`loc, this`panicked
      ensures Valid() && View() == Wake(old(View()), chan)
    {
      hide Partition, Threads, Without, Shaped;
      ghost var rest := lists[SLEEP];
      SlotsOf(View(), SLEEP);
      HeadOf(heads, next, lists, loc, SLEEP);
      var p := heads[SLEEP];
      while p != NIL
        invariant Valid() && Slots(rest)
        invariant p == At(rest, 0) && Suffix(rest, lists[SLEEP])
        invariant WakeFrom(View(), rest, chan) == Wake(old(View()), chan)
        decreases |rest|
      {
        SlotsOf(View(), SLEEP);
        SuffixStep(rest, lists[SLEEP]);
        NextOf(heads, next, lists, loc, SLEEP, |lists[SLEEP]| - |rest|);
        var curr := next[p];
        if procs[p].chan == chan {
          WakeProc(p);
        }
        p := curr;
        rest := rest[1..];
      }
    }

    // exit: proc.c:343-408

    /** One of the loops that hand the children on a list over to init. */
    method ReparentList(l: nat, p: nat)
      requires Valid() && l < NLISTS && p < NPROC
      modifies this`parent
      ensures Valid()
      ensures forall i :: 0 <= i < NPROC ==>
        parent[i] == if ListOf(procs[i]) == l && old(parent[i]) == p then initproc else old(parent[i])
    {
      hide Partition, Threads;
      ghost var s0, q, k := View(), lists[l], 0;
      SlotsOf(s0, l);
      HeadOf(heads, next, lists, loc, l);
      var x := heads[l];
      while x != NIL
        invariant 0 <= k <= |q| && x == At(q, k) && |parent| == NPROC
        invariant forall j :: 0 <= j < |q| ==>
          parent[q[j]] == if j < k && s0.parent[q[j]] == p then initproc else s0.parent[q[j]]
        invariant forall i :: 0 <= i < NPROC && ListOf(procs[i]) != l ==> parent[i] == s0.parent[i]
        decreases |q| - k
      {
        NextOf(heads, next, lists, loc, l, k);
        if parent[x] == p {
          parent := parent[x := initproc];
        }
        x := next[x];
        k := k + 1;
      }
      SameLists(s0, View());
      forall i: nat | i < NPROC && ListOf(procs[i]) == l ensures exists j :: 0 <= j < |q| && q[j] == i {
        OnItsList(s0, i);
      }
    }

    method HandOver(x: nat, ghost s0: Sys, ghost woke: bool)
      requires Valid() && x < NPROC && Partition(s0) && initproc == s0.init && View() == Woken(s0, parent, woke)
      modifies this`parent, this`procs, this`next, this`heads, this`lists, this`loc, this`panicked
      ensures Valid() && View() == Woken(s0, parent, true)
      ensures parent == old(parent)[x := initproc] && lists[ZOMB] == s0.lists[ZOMB]
    {
      hide Partition, Threads, Shaped, Wake, Woken;
      WokenAgain(s0, parent, woke, parent[x := initproc]);
      parent := parent[x := initproc];
      Wakeup1(WaitChan(initproc));
    }

    /** The loop over the zombies: hand over, and wake init for each. */
    method ReparentZombies(p: nat) returns (ghost woke: bool)
      requires Valid() && p < NPROC && p != initproc
      modifies this`parent, this`procs, this`next, this`heads, this`lists, this`loc, this`panicked
      ensures Valid()
      ensures woke <==> exists i :: 0 <= i < NPROC && old(procs[i].state) == ZOMBIE && old(parent[i]) == p
      ensures forall i :: 0 <= i < NPROC ==>
        parent[i] == if old(procs[i].state) == ZOMBIE && old(parent[i]) == p then initproc else old(parent[i])
      ensures View() == Woken(old(View()), parent, woke)
    {
      hide Partition, Threads, Shaped, Wake, Woken, HandedTo;
      WokenFirst(View());
      ghost var s0, z, k := View(), lists[ZOMB], 0;
      woke := false;
      SlotsOf(s0, ZOMB);
      HandedNone(s0, z, p);
      HeadOf(heads, next, lists, loc, ZOMB);
      var x := heads[ZOMB];
      while x != NIL
        invariant Valid() && 0 <= k <= |z| && lists[ZOMB] == z && x == At(z, k)
        invariant View() == Woken(s0, parent, woke)
        invariant HandedTo(s0, parent, z, k, p, woke)
        decreases |z| - k
      {
        HandedStep(s0, parent, z, k, p, woke);
        if parent[x] == p {
          HandOver(x, s0, woke);
          woke := true;
        }
        NextOf(heads, next, lists, loc, ZOMB, k);
        x := next[x];
        k := k + 1;
      }
      HandedDone(s0, parent, z, p, woke);
    }

    /** The lists that hold live children. */
    method ReparentLive(p: nat)
      requires Valid() && p < NPROC
      modifies this`parent
      ensures Valid()
      ensures forall i :: 0 <= i < NPROC ==>
        parent[i] == if procs[i].state != UNUSED && procs[i].state != ZOMBIE && old(parent[i]) == p
                     then initproc else old(parent[i])
    {
      hide Partition, Threads;
      for i := 0 to MAX + 1
        invariant Valid()
        invariant forall x :: 0 <= x < NPROC ==>
          parent[x] == if ListOf(procs[x]) < i && old(parent[x]) == p then initproc else old(parent[x])
      {
        ReparentList(i, p);
      }
      ReparentList(RUN, p);
      ReparentList(SLEEP, p);
      ReparentList(EMB, p);
    }

    method Exit(p: nat)
      requires Valid() && Life(View()) && p < NPROC && procs[p].state == RUNNING
      modifies this
      ensures p == old(initproc) ==> panicked && View() == old(View())
      ensures p != old(initproc) ==> Valid() && View() == SchedRuns.Exit(old(View()), p)
    {
      hide Partition, Threads, Shaped, Wake, Woken, Orphan, Life, Without;
      if p == initproc {
        panicked := true;
        return;
      }
      ghost var s0 := View();
      ExitingRuns(s0, p);
      Wakeup1(WaitChan(parent[p]));
      ghost var w := View();
      ReparentLive(p);
      ghost var s := View();
      ghost var woke := ReparentZombies(p);
      WokenIsOrphan(w, s, parent, woke, p);
      BecomeZombie(p);
    }

    method BecomeZombie(p: nat)
      requires Valid() && p < NPROC && procs[p].state == RUNNING
      modifies this`procs, this`next, this`heads, this`lists, this`loc, this`panicked
      ensures Valid() && View() == Move(old(View()), p, Charge(old(procs[p]).(state := ZOMBIE), ticks), true)
    {
      hide Partition, Threads, Shaped, Without;
      MovePartition(View(), p, Charge(procs[p].(state := ZOMBIE), ticks), true);
      Unlist(p, RUN, RUNNING);
      procs := procs[p := procs[p].(state := ZOMBIE)];
      var _ := InsertHead(ZOMB, p);
      ChargeTicks(p);
      assert View() == Move(old(View()), p, Charge(old(procs[p]).(state := ZOMBIE), ticks), true);
    }

    // wait: proc.c:455-521

    /** One of the loops of wait that look for a child on a list. */
    method HasChildOn(l: nat, p: nat) returns (found: bool)
      requires Valid() && l < NLISTS && p < NPROC
      ensures found <==> exists i :: 0 <= i < NPROC && ListOf(procs[i]) == l && parent[i] == p
    {
      hide Partition, Threads;
      SlotsOf(View(), l);
      HeadOf(heads, next, lists, loc, l);
      ghost var q, k := lists[l], 0;
      var x := heads[l];
      found := false;
      while x != NIL && !found
        invariant 0 <= k <= |q| && (found || x == At(q, k))
        invariant !found ==> forall j :: 0 <= j < k ==> parent[q[j]] != p
        invariant found ==> exists i :: 0 <= i < NPROC && ListOf(procs[i]) == l && parent[i] == p
        decreases !found, |q| - k
      {
        NextOf(heads, next, lists, loc, l, k);
        if parent[x] == p {
          assert ListOf(procs[q[k]]) == l;
          found := true;
        }
        x := next[x];
        k := k + 1;
      }
      if !found {
        forall i: nat | i < NPROC && ListOf(procs[i]) == l ensures parent[i] != p {
          OnItsList(View(), i);
          assert i in q;
        }
      }
    }

    method HasLiveChild(p: nat) returns (havekids: bool)
      requires Valid() && p < NPROC
      ensures havekids <==> HasLiveKid(View(), p)
    {
      hide Partition, Threads;
      havekids := false;
      for i := 0 to MAX + 1
        invariant havekids <==> exists x :: 0 <= x < NPROC && ListOf(procs[x]) < i && parent[x] == p
      {
        if !havekids {
          havekids := HasChildOn(i, p);
        }
      }
      if !havekids {
        havekids := HasChildOn(RUN, p);
      }
      if !havekids {
        havekids := HasChildOn(SLEEP, p);
      }
      if !havekids {
        havekids := HasChildOn(EMB, p);
      }
    }

    /** The first zombie on the list that is a child of `p`, or NIL. */
    method FindZombieChild(p: nat) returns (x: int)
      requires Valid() && p < NPROC
      ensures Slots(lists[ZOMB]) && x == At(lists[ZOMB], FirstChild(lists[ZOMB], parent, p))
    {
      hide Partition, Threads;
      SlotsOf(View(), ZOMB);
      HeadOf(heads, next, lists, loc, ZOMB);
      ghost var z, k := lists[ZOMB], 0;
      x := heads[ZOMB];
      while x != NIL && parent[x] != p
        invariant 0 <= k <= |z| && x == At(z, k)
        invariant forall j :: 0 <= j < k ==> parent[z[j]] != p
        decreases |z| - k
      {
        NextOf(heads, next, lists, loc, ZOMB, k);
        x := next[x];
        k := k + 1;
      }
      assert k == FirstChild(z, parent, p);
    }

    method ReapZombie(x: nat)
      requires Valid() && x < NPROC && procs[x].state == ZOMBIE
      modifies this
      ensures Valid() && View() == Reap(old(View()), x)
    {
      hide Partition, Threads, Shaped, Without;
      ReapPartition(View(), x);
      Unlist(x, ZOMB, ZOMBIE);
      procs := procs[x := procs[x].(state := UNUSED)];
      var _ := InsertHead(FREE, x);
      procs := procs[x := procs[x].(pid := 0)];
      parent := parent[x := NIL];
      procs := procs[x := procs[x].(killed := false)];
      assert View() == Reap(old(View()), x);
    }

    /** One round of wait's loop: collect a zombie, give up, or go to sleep. */
    method Wait(p: nat) returns (r: WaitResult)
      requires Valid() && Enabled(View(), DoWait(p))
      modifies this
      ensures Valid() && (View(), r) == WaitStep(old(View()), p)
      ensures r.Slept? ==> procs[p].state == SLEEPING && procs[p].chan == WaitChan(p)
    {
      hide Partition, Threads, Shaped, Without;
      ghost var s0 := View();
      SlotsOf(s0, ZOMB);
      var x := FindZombieChild(p);
      if x != NIL {
        r := Reaped(procs[x].pid);
        ReapZombie(x);
        return;
      }
      var havekids := HasLiveChild(p);
      if !havekids || procs[p].killed {
        return NoChildren;
      }
      Sleep(p, WaitChan(p));
      return Slept;
    }

    // scheduler and prioadjust: proc.c:577-627, 1227-1248

    /** One of the two loops of prioadjust over processes that are not in a ready queue. */
    method AgeList(l: nat)
      requires Valid() && (l == SLEEP || l == RUN)
      modifies this`procs
      ensures Valid()
      ensures forall i :: 0 <= i < NPROC ==>
        procs[i] == if ListOf(old(procs[i])) == l then AgeProc(old(procs[i])) else old(procs[i])
    {
      hide Partition, Threads;
      ghost var s0, q, k := View(), lists[l], 0;
      SlotsOf(s0, l);
      HeadOf(heads, next, lists, loc, l);
      var x := heads[l];
      while x != NIL
        invariant 0 <= k <= |q| && x == At(q, k) && |procs| == NPROC
        invariant forall j :: 0 <= j < |q| ==>
          procs[q[j]] == if j < k then AgeProc(s0.procs[q[j]]) else s0.procs[q[j]]
        invariant forall i :: 0 <= i < NPROC && ListOf(s0.procs[i]) != l ==> procs[i] == s0.procs[i]
        decreases |q| - k
      {
        NextOf(heads, next, lists, loc, l, k);
        assert ListOf(s0.procs[q[k]]) == l;
        if procs[x].prio != 0 {
          procs := procs[x := procs[x].(prio := procs[x].prio - 1)];
        }
        x := next[x];
        k := k + 1;
      }
      forall i: nat | i < NPROC && ListOf(s0.procs[i]) == l ensures procs[i] == AgeProc(s0.procs[i]) {
        OnItsList(s0, i);
      }
      SameLists(s0, View());
    }

    /** The walk over ready[i]: taking the head out clears its next pointer, which ends the walk. */
    method PromoteQueue(i: nat)
      requires Valid() && 1 <= i <= MAX
      modifies this`procs, this`next, this`heads, this`lists, this`loc, this`panicked
      ensures Valid() && Slots(old(lists[i])) && View() == PromoteHead(old(View()), i)
    {
      hide Partition, Threads, Shaped, Without;
      ghost var s0 := View();
      SlotsOf(s0, i);
      HeadState(s0, i);
      PromoteHeadPartition(s0, i);
      HeadOf(heads, next, lists, loc, i);
      var p := heads[i];
      while p != NIL
        invariant Valid()
        invariant p != NIL ==> View() == s0 && p == At(s0.lists[i], 0)
        invariant p == NIL ==> View() == PromoteHead(s0, i)
        decreases if p == NIL then 0 else 1
      {
        RemoveFromReadyList(p, i);
        procs := procs[p := procs[p].(prio := procs[p].prio - 1)];
        var _ := InsertTail(procs[p].prio, p);
        p := next[p];
        assert View() == PromoteHead(s0, i);
      }
    }

    method PrioAdjust()
      requires Valid()
      modifies this`procs, this`next, this`heads, this`lists, this`loc, this`panicked, this`promoteAt
      ensures Valid() && View() == Sched.PrioAdjust(old(View()))
    {
      hide Partition, Threads, Shaped, PromoteHead;
      ghost var s0 := View();
      AgePartition(s0);
      AgeList(SLEEP);
      AgeList(RUN);
      AgedBoth(s0, View());
      for i := 1 to MAX + 1
        invariant Valid() && promoteAt == s0.promoteAt
        invariant PromoteFrom(View(), i) == PromoteFrom(Age(s0), 1)
      {
        PromoteHeadPartition(View(), i);
        PromoteQueue(i);
      }
      promoteAt := ticks + TICKS_TO_PROMOTE;
      AdjustIs(s0, View());
    }

    method Scheduler() returns (p: int)
      requires Valid()
      modifies this
      ensures Valid() && View() == Schedule(old(View()))
      ensures p == NIL <==> BestQueue(Promoted(old(View())), 0) > MAX
    {
      hide Partition, Threads, Shaped, Without, Sched.PrioAdjust;
      if ticks >= promoteAt {
        PrioAdjust();
      }
      ghost var s := View();
      PickPartition(s);
      p := NIL;
      var i := 0;
      while i <= MAX
        invariant 0 <= i <= MAX + 1 && View() == s
        invariant Valid() && BestQueue(s, i) == BestQueue(s, 0)
      {
        HeadOf(heads, next, lists, loc, i);
        HeadState(s, i);
        if heads[i] != NIL {
          p := heads[i];
          RunProc(p, i);
          return;
        }
        i := i + 1;
      }
    }

    /** Put the head of ready[i] on the processor; it comes back from sleep with its channel cleared. */
    method RunProc(p: nat, i: nat)
      requires Valid() && p < NPROC && i <= MAX && procs[p].state == RUNNABLE && procs[p].prio == i
      modifies this`procs, this`next, this`heads, this`lists, this`loc, this`panicked
      ensures Valid() && View() == Dispatch(old(View()), p)
    {
      hide Partition, Threads, Shaped, Without;
      MovePartition(View(), p, procs[p].(state := RUNNING, ticksIn := ticks, chan := NoChan), true);
      RemoveFromReadyList(p, i);
      procs := procs[p := procs[p].(state := RUNNING)];
      var _ := InsertHead(RUN, p);
      ghost var q := procs[p].(ticksIn := ticks);
      Overwrite(old(procs), p, procs[p], q);
      procs := procs[p := procs[p].(ticksIn := ticks)];
      Overwrite(old(procs), p, q, q.(chan := NoChan));
      procs := procs[p := procs[p].(chan := NoChan)];
    }

    // kill and setpriority: proc.c:801-852, 1185-1225

    method FindPidOn(l: nat, pid: int) returns (x: int)
      requires Valid() && l < NLISTS
      ensures Slots(lists[l]) && x == FindPid(lists[l], procs, pid)
    {
      hide Partition, Threads;
      SlotsOf(View(), l);
      HeadOf(heads, next, lists, loc, l);
      ghost var q, k := lists[l], 0;
      x := heads[l];
      while x != NIL && procs[x].pid != pid
        invariant 0 <= k <= |q| && x == At(q, k)
        invariant FindPid(q[k..], procs, pid) == FindPid(q, procs, pid)
        decreases |q| - k
      {
        NextOf(heads, next, lists, loc, l, k);
        x := next[x];
        assert q[k..][1..] == q[k + 1..];
        k := k + 1;
      }
    }

    /** The searches of kill and setpriority, list after list. */
    method Search(order: seq<nat>, pid: int) returns (x: int)
      requires Valid() && forall i :: 0 <= i < |order| ==> order[i] < NLISTS
      ensures x == FindIn(View(), order, pid)
    {
      hide Partition, Threads;
      for i := 0 to |order|
        invariant FindIn(View(), order[i..], pid) == FindIn(View(), order, pid)
      {
        x := FindPidOn(order[i], pid);
        if x != NIL {
          return;
        }
        assert order[i..][1..] == order[i + 1..];
      }
      x := NIL;
    }

    method Kill(pid: int) returns (r: int)
      requires Valid()
      modifies this
      ensures Valid() && View() == Sched.Kill(old(View()), pid)
      ensures r == if FindIn(old(View()), KILL_ORDER, pid) == NIL then -1 else 0
    {
      hide Partition, Threads, Shaped, Without, FindIn;
      ghost var s0 := View();
      var x := Search(KILL_ORDER, pid);
      if x == NIL {
        return -1;
      }
      UpdatePartition(s0, x, procs[x].(killed := true));
      procs := procs[x := procs[x].(killed := true)];
      if procs[x].state == SLEEPING {
        WakeProc(x);
      }
      assert View() == Sched.Kill(s0, pid);
      return 0;
    }

    /** A ready process moves to the end of another queue with a fresh budget. */
    method Requeue(x: nat, priority: nat)
      requires Valid() && x < NPROC && priority <= MAX && procs[x].state == RUNNABLE
      modifies this`procs, this`next, this`heads, this`lists, this`loc, this`panicked
      ensures Valid() && View() == Move(old(View()), x, old(procs[x]).(prio := priority, budget := BUDGET), false)
    {
      hide Partition, Threads, Shaped, Without;
      ghost var q := procs[x].(prio := priority);
      MovePartition(View(), x, q.(budget := BUDGET), false);
      RemoveFromReadyList(x, procs[x].prio);
      procs := procs[x := procs[x].(prio := priority)];
      Overwrite(old(procs), x, q, q.(budget := BUDGET));
      procs := procs[x := procs[x].(budget := BUDGET)];
      var _ := InsertTail(priority, x);
    }

    method SetPriority(pid: int, priority: int) returns (r: int)
      requires Valid()
      modifies this
      ensures Valid() && View() == Sched.SetPriority(old(View()), pid, priority)
      ensures r == if !(0 <= priority <= MAX) || FindIn(old(View()), PRIO_ORDER, pid) == NIL then -1 else 0
    {
      hide Partition, Threads, Shaped, Without, FindIn;
      ghost var s0 := View();
      if 0 > priority || MAX < priority {
        return -1;
      }
      var x := Search(PRIO_ORDER, pid);
      if x == NIL {
        return -1;
      }
      if procs[x].state == RUNNABLE {
        if priority != procs[x].prio {
          Requeue(x, priority);
        }
      } else {
        ghost var q := procs[x].(prio := priority);
        Overwrite(procs, x, q, q.(budget := BUDGET));
        UpdatePartition(s0, x, q.(budget := BUDGET));
        procs := procs[x := procs[x].(prio := priority)];
        procs := procs[x := procs[x].(budget := BUDGET)];
      }
      return 0;
    }
  }
}
