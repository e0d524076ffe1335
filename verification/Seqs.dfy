/**
 Sequences without repetition: the abstract value of every intrusive linked list in the kernel.
 */
module Seqs {

  ghost predicate NoDup(q: seq<nat>) {
    forall i, j :: 0 <= i < j < |q| ==> q[i] != q[j]
  }

  /** Position of the first occurrence of `x`, or the length when there is none. */
  function IndexOf(q: seq<nat>, x: nat): (i: nat)
    ensures i <= |q|
    ensures i < |q| ==> q[i] == x
    ensures i == |q| ==> x !in q
  {
    if q == [] then 0 else if q[0] == x then 0 else 1 + IndexOf(q[1..], x)
  }

  /** The sequence with the first occurrence of `x` taken out. */
  function Without(q: seq<nat>, x: nat): (r: seq<nat>) {
    var k := IndexOf(q, x);
    if k == |q| then q else q[..k] + q[k + 1..]
  }

  lemma IndexOfUnique(q: seq<nat>, k: nat)
    requires NoDup(q) && k < |q|
    ensures IndexOf(q, q[k]) == k
  {
    assert q[k] in q;
  }

  lemma {:induction false} IndexOfAppend(q: seq<nat>, r: seq<nat>, x: nat)
    requires x in q
    ensures IndexOf(q + r, x) == IndexOf(q, x)
  {
    if q[0] != x {
      assert (q + r)[1..] == q[1..] + r;
      IndexOfAppend(q[1..], r, x);
    }
  }

  lemma WithoutIsSplice(q: seq<nat>, k: nat)
    requires NoDup(q) && k < |q|
    ensures Without(q, q[k]) == q[..k] + q[k + 1..]
  {
    IndexOfUnique(q, k);
  }

  /** What is left, in the same order: nothing is lost but `x`, and nothing is doubled. */
  lemma WithoutMembers(q: seq<nat>, x: nat)
    requires NoDup(q)
    ensures NoDup(Without(q, x)) && x !in Without(q, x)
    ensures forall y :: y in Without(q, x) <==> y in q && y != x
  {
    var k := IndexOf(q, x);
    if k < |q| {
      var r := Without(q, x);
      assert forall i :: 0 <= i < |r| ==> r[i] == q[if i < k then i else i + 1];
      forall y | y in q && y != x ensures y in r {
        var j :| 0 <= j < |q| && q[j] == y;
        assert r[if j < k then j else j - 1] == y;
      }
    }
  }

  lemma NoDupExtend(q: seq<nat>, x: nat)
    requires NoDup(q) && x !in q
    ensures NoDup([x] + q) && NoDup(q + [x])
  {}

  /** Taking out `x` moves what stood behind it one place forward and leaves the rest in place. */
  lemma WithoutIndex(q: seq<nat>, x: nat, y: nat)
    requires NoDup(q) && x in q && y in q && x != y
    ensures IndexOf(Without(q, x), y)
         == IndexOf(q, y) - (if IndexOf(q, x) < IndexOf(q, y) then 1 else 0)
  {
    var i, j := IndexOf(q, x), IndexOf(q, y);
    WithoutMembers(q, x);
    IndexOfUnique(Without(q, x), if i < j then j - 1 else j);
  }

  /** Distinct members of a finite set: no more of them than the set has elements. */
  lemma {:induction false} Pigeonhole(q: seq<nat>, s: set<nat>)
    requires NoDup(q) && forall i :: 0 <= i < |q| ==> q[i] in s
    ensures |q| <= |s|
  {
    if q != [] {
      Pigeonhole(q[1..], s - {q[0]});
    }
  }

  ghost function Below(n: nat): (s: set<nat>)
    ensures |s| == n
    ensures forall i: nat :: i in s <==> i < n
  {
    if n == 0 then {} else Below(n - 1) + {n - 1}
  }

  /** Distinct naturals below `n`: at most `n` of them. */
  lemma BoundedNoDup(q: seq<nat>, n: nat)
    requires NoDup(q) && forall i :: 0 <= i < |q| ==> q[i] < n
    ensures |q| <= n
  {
    Pigeonhole(q, Below(n));
  }

  ghost function Elements(q: seq<nat>): set<nat> {
    if q == [] then {} else {q[0]} + Elements(q[1..])
  }

  lemma {:induction false} ElementsAre(q: seq<nat>)
    ensures |Elements(q)| <= |q|
    ensures forall x :: x in Elements(q) <==> x in q
  {
    if q != [] {
      ElementsAre(q[1..]);
    }
  }
}
