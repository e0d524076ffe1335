/**
 The original table scans of exit and wait, kept in proc.c as the version without lists, are what the
 list versions compute.
 */
module SchedScan {
  import opened Sched
  import opened SchedRuns
  import opened SchedLife

  /** The loop of proc.c:329-335 from slot `i` on: reparent each child, waking init for each zombie. */
  function ScanOrphans(procs: seq<Proc>, parent: seq<int>, p: int, init: int, i: nat): (r: (seq<Proc>, seq<int>))
    requires |procs| == |parent| && i <= |procs|
    ensures |r.0| == |r.1| == |procs|
    decreases |procs| - i
  {
    if i == |procs| then (procs, parent)
    else if parent[i] != p then ScanOrphans(procs, parent, p, init, i + 1)
    else
      ScanOrphans(if procs[i].state == ZOMBIE then ScanWake(procs, WaitChan(init)) else procs,
                  parent[i := init], p, init, i + 1)
  }

  /** exit without lists: proc.c:323-340. */
  function ScanExit(s: Sys, p: nat): (r: (seq<Proc>, seq<int>))
    requires Shaped(s) && p < NPROC
    ensures |r.0| == NPROC
  {
    var o := ScanOrphans(ScanWake(s.procs, WaitChan(s.parent[p])), s.parent, p, s.init, 0);
    (o.0[p := Charge(o.0[p].(state := ZOMBIE), s.now)], o.1)
  }

  lemma ScanWakeTwice(procs: seq<Proc>, c: Chan)
    ensures ScanWake(ScanWake(procs, c), c) == ScanWake(procs, c)
  {}

  ghost predicate ZombieKidFrom(procs: seq<Proc>, parent: seq<int>, p: int, i: nat)
    requires |procs| == |parent|
  {
    exists j :: i <= j < |procs| && procs[j].state == ZOMBIE && parent[j] == p
  }

  lemma {:induction false} ScanOrphansEffect(procs: seq<Proc>, parent: seq<int>, p: int, init: int, i: nat)
    requires |procs| == |parent| && i <= |procs| && p != init
    ensures var r := ScanOrphans(procs, parent, p, init, i);
      && r.0 == (if ZombieKidFrom(procs, parent, p, i) then ScanWake(procs, WaitChan(init)) else procs)
      && forall j :: 0 <= j < |parent| ==> r.1[j] == if j >= i && parent[j] == p then init else parent[j]
    decreases |procs| - i
  {
    if i < |procs| {
      if parent[i] != p {
        ScanOrphansEffect(procs, parent, p, init, i + 1);
        assert ZombieKidFrom(procs, parent, p, i) == ZombieKidFrom(procs, parent, p, i + 1);
      } else {
        var procs' := if procs[i].state == ZOMBIE then ScanWake(procs, WaitChan(init)) else procs;
        var parent' := parent[i := init];
        ScanOrphansEffect(procs', parent', p, init, i + 1);
        ScanWakeTwice(procs, WaitChan(init));
        assert ZombieKidFrom(procs', parent', p, i + 1) == ZombieKidFrom(procs, parent, p, i + 1) by {
          assert forall j :: i + 1 <= j < |procs| ==>
            (procs'[j].state == ZOMBIE <==> procs[j].state == ZOMBIE) && parent'[j] == parent[j];
        }
        assert ZombieKidFrom(procs, parent, p, i) ==
          (procs[i].state == ZOMBIE || ZombieKidFrom(procs, parent, p, i + 1));
      }
    }
  }

  /** Exit over the lists leaves the slots and the parents as exit over the table does. */
  lemma ExitRefinesScan(s: Sys, p: nat)
    requires Partition(s) && p < NPROC && p != s.init
    ensures (Exit(s, p).procs, Exit(s, p).parent) == ScanExit(s, p)
  {
    ExitSlots(s, p);
    var a := ScanWake(s.procs, WaitChan(s.parent[p]));
    ScanOrphansEffect(a, s.parent, p, s.init, 0);
    assert ZombieKidFrom(a, s.parent, p, 0) == HasZombieKid(s, p) by {
      assert forall j :: 0 <= j < NPROC ==> (a[j].state == ZOMBIE <==> s.procs[j].state == ZOMBIE);
    }
    assert Reparent(s.parent, p, s.init) == ScanOrphans(a, s.parent, p, s.init, 0).1;
  }

  /** The scan of proc.c:424-442: the first zombie child in table order from `i` on, or NIL. */
  function ScanZombie(s: Sys, p: int, i: nat): (q: int)
    requires Shaped(s) && i <= NPROC
    ensures q == NIL || (i <= q < NPROC && s.procs[q].state == ZOMBIE && s.parent[q] == p)
    ensures q == NIL <==> forall j :: i <= j < NPROC ==> !(s.procs[j].state == ZOMBIE && s.parent[j] == p)
    decreases NPROC - i
  {
    if i == NPROC then NIL
    else if s.parent[i] == p && s.procs[i].state == ZOMBIE then i
    else ScanZombie(s, p, i + 1)
  }

  predicate ScanHasKids(s: Sys, p: int)
    requires Shaped(s)
  {
    exists q :: 0 <= q < NPROC && s.parent[q] == p
  }

  /** wait without lists: proc.c:420-452, with the outcome only. */
  function ScanWait(s: Sys, p: nat): WaitResult
    requires Shaped(s) && p < NPROC
  {
    var q := ScanZombie(s, p, 0);
    if q != NIL then Reaped(s.procs[q].pid)
    else if !ScanHasKids(s, p) || s.procs[p].killed then NoChildren
    else Slept
  }

  /** `q` was a zombie child of `p` and is now a free slot; nothing else changed. */
  ghost predicate FreesZombie(s: Sys, r: Sys, p: nat, q: nat)
    requires Shaped(s) && q < NPROC
  {
    && s.procs[q].state == ZOMBIE
    && s.parent[q] == p
    && r.parent == s.parent[q := NIL]
    && r.procs == s.procs[q := s.procs[q].(state := UNUSED, pid := 0, killed := false)]
  }

  /**
   Wait over the lists reaps, gives up or sleeps in the same cases as wait over the table; when it
   reaps it may pick another zombie child, and it frees exactly that one.
   */
  lemma WaitRefinesScan(s: Sys, p: nat)
    requires Inv(s) && p < NPROC
    ensures var (r, o) := WaitStep(s, p);
      && (o.Reaped? <==> ScanWait(s, p).Reaped?)
      && (o.NoChildren? <==> ScanWait(s, p).NoChildren?)
      && (o.NoChildren? ==> r == s)
      && (o.Reaped? ==> exists q: nat :: q < NPROC && FreesZombie(s, r, p, q) && o.pid == s.procs[q].pid)
  {
    var z := s.lists[ZOMB];
    var k := FirstChild(z, s.parent, p);
    if k < |z| {
      assert ListOk(s, ZOMB);
      assert FreesZombie(s, WaitStep(s, p).0, p, z[k]);
    } else {
      forall q: nat | q < NPROC && s.procs[q].state == ZOMBIE ensures s.parent[q] != p {
        assert Listed(s, q);
      }
      assert ScanHasKids(s, p) == HasLiveKid(s, p) by {
        forall q: nat | q < NPROC && s.parent[q] == p
          ensures s.procs[q].state != ZOMBIE && s.procs[q].state != UNUSED
        {
          assert Kin(s, q);
        }
      }
    }
  }
}
