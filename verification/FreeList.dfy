/**
 The free list of the user-level allocator (umalloc.c) as a value: blocks of units in address order,
 never touching each other. Freeing and taking change exactly the units they should, and the list is
 determined by its units.
 */
module FreeList {
  datatype Blk = Blk(addr: nat, len: nat)

  ghost predicate Has(b: Blk, u: nat) {
    b.addr <= u < b.addr + b.len
  }

  ghost predicate Before(a: Blk, b: Blk) {
    a.addr + a.len < b.addr
  }

  /** Sorted, disjoint and fully coalesced: between two blocks there is a unit that is not free. */
  ghost predicate Apart(bs: seq<Blk>) {
    && (forall i :: 0 <= i < |bs| ==> bs[i].len > 0)
    && forall i, j :: 0 <= i < j < |bs| ==> Before(bs[i], bs[j])
  }

  ghost predicate Covers(bs: seq<Blk>, u: nat) {
    exists i :: 0 <= i < |bs| && Has(bs[i], u)
  }

  ghost predicate Same(a: seq<Blk>, b: seq<Blk>) {
    forall u: nat :: Covers(a, u) <==> Covers(b, u)
  }

  lemma CoversTail(bs: seq<Blk>, u: nat)
    requires |bs| > 0
    ensures Covers(bs, u) <==> Has(bs[0], u) || Covers(bs[1..], u)
  {
    if Covers(bs, u) && !Has(bs[0], u) {
      var i :| 0 <= i < |bs| && Has(bs[i], u);
      assert bs[1..][i - 1] == bs[i];
    }
    if Covers(bs[1..], u) {
      var i :| 0 <= i < |bs[1..]| && Has(bs[1..][i], u);
      assert Has(bs[i + 1], u);
    }
  }

  /** The first block starts at the first free unit and ends at the first unit after it that is not free. */
  lemma FirstBlock(bs: seq<Blk>)
    requires Apart(bs) && |bs| > 0
    ensures Covers(bs, bs[0].addr) && !Covers(bs, bs[0].addr + bs[0].len)
    ensures forall u: nat :: u < bs[0].addr ==> !Covers(bs, u)
    ensures forall u: nat :: bs[0].addr <= u < bs[0].addr + bs[0].len ==> Covers(bs, u)
  {
    assert Has(bs[0], bs[0].addr);
    forall i, u: nat | 0 <= i < |bs| && (u < bs[0].addr || u == bs[0].addr + bs[0].len) ensures !Has(bs[i], u) {
      assert i > 0 ==> Before(bs[0], bs[i]);
    }
    forall u: nat | bs[0].addr <= u < bs[0].addr + bs[0].len ensures Covers(bs, u) {
      assert Has(bs[0], u);
    }
  }

  lemma SameHead(a: seq<Blk>, b: seq<Blk>)
    requires Apart(a) && Apart(b) && Same(a, b) && |a| > 0
    ensures |b| > 0 && a[0] == b[0]
  {
    FirstBlock(a);
    assert Covers(b, a[0].addr);
    FirstBlock(b);
    var x, y := a[0].addr + a[0].len, b[0].addr + b[0].len;
    assert Covers(a, b[0].addr) <==> Covers(b, b[0].addr);
    assert Covers(a, x) <==> Covers(b, x);
    assert Covers(a, y) <==> Covers(b, y);
  }

  /** Lists with the same units are the same list. */
  lemma {:induction false} Canonical(a: seq<Blk>, b: seq<Blk>)
    requires Apart(a) && Apart(b) && Same(a, b)
    ensures a == b
    decreases |a|
  {
    if |b| > 0 {
      SameHead(b, a);
    }
    if |a| > 0 {
      SameHead(a, b);
      var a', b' := a[1..], b[1..];
      forall u: nat ensures Covers(a', u) <==> Covers(b', u) {
        CoversTail(a, u);
        CoversTail(b, u);
        assert Covers(a, u) <==> Covers(b, u);
        NotInTail(a, u);
        NotInTail(b, u);
      }
      Canonical(a', b');
      assert a == [a[0]] + a' && b == [b[0]] + b';
    }
  }

  lemma NotInTail(bs: seq<Blk>, u: nat)
    requires Apart(bs) && |bs| > 0
    ensures Has(bs[0], u) ==> !Covers(bs[1..], u)
  {
    if Has(bs[0], u) {
      forall i | 0 <= i < |bs[1..]| ensures !Has(bs[1..][i], u) {
        assert Before(bs[0], bs[i + 1]);
      }
    }
  }

  lemma ApartSlice(bs: seq<Blk>, i: nat, j: nat)
    requires Apart(bs) && i <= j <= |bs|
    ensures Apart(bs[i..j]) && Apart(bs[..j]) && Apart(bs[i..])
    ensures i + 1 < |bs| ==> Before(bs[i], bs[i + 1])
    ensures i < |bs| ==> bs[i].len > 0
  {
    forall x, y | 0 <= x < y < j - i ensures Before(bs[i..j][x], bs[i..j][y]) {
      assert Before(bs[i + x], bs[i + y]);
    }
    forall x, y | 0 <= x < y < |bs| - i ensures Before(bs[i..][x], bs[i..][y]) {
      assert Before(bs[i + x], bs[i + y]);
    }
  }

  lemma ApartOne(b: Blk)
    ensures Apart([b]) <==> b.len > 0
  {
    assert [b][0] == b;
  }

  // Freeing

  /** The block goes between the k-th block and the one before it. */
  ghost predicate Fits(bs: seq<Blk>, k: nat, b: Blk) {
    && k <= |bs| && b.len > 0
    && (k > 0 ==> bs[k - 1].addr + bs[k - 1].len <= b.addr)
    && (k < |bs| ==> b.addr + b.len <= bs[k].addr)
  }

  /** A block that shares no unit with the list fits where its address belongs. */
  lemma FitsThere(bs: seq<Blk>, k: nat, b: Blk)
    requires Apart(bs) && b.len > 0 && k <= |bs|
    requires forall u: nat :: Has(b, u) ==> !Covers(bs, u)
    requires k > 0 ==> bs[k - 1].addr < b.addr
    requires k < |bs| ==> b.addr < bs[k].addr
    ensures Fits(bs, k, b)
  {
    assert Has(b, b.addr);
    if k > 0 && b.addr < bs[k - 1].addr + bs[k - 1].len {
      assert Has(bs[k - 1], b.addr);
    }
    if k < |bs| && bs[k].addr < b.addr + b.len {
      assert Has(bs[k], bs[k].addr) && Has(b, bs[k].addr);
    }
  }

  function MergeUp(bs: seq<Blk>, k: nat, b: Blk): seq<Blk>
    requires k <= |bs|
  {
    if k < |bs| && b.addr + b.len == bs[k].addr then [Blk(b.addr, b.len + bs[k].len)] + bs[k + 1..] else [b] + bs[k..]
  }

  /** free: join the block with its neighbours where they touch. */
  function Insert(bs: seq<Blk>, k: nat, b: Blk): seq<Blk>
    requires k <= |bs|
  {
    var up := MergeUp(bs, k, b);
    if k > 0 && bs[k - 1].addr + bs[k - 1].len == b.addr then
      bs[..k - 1] + [Blk(bs[k - 1].addr, bs[k - 1].len + up[0].len)] + up[1..]
    else
      bs[..k] + up
  }

  lemma CoversJoin(a: seq<Blk>, b: seq<Blk>, u: nat)
    ensures Covers(a + b, u) <==> Covers(a, u) || Covers(b, u)
  {
    if Covers(a, u) {
      var i :| 0 <= i < |a| && Has(a[i], u);
      assert (a + b)[i] == a[i];
    }
    if Covers(b, u) {
      var i :| 0 <= i < |b| && Has(b[i], u);
      assert (a + b)[|a| + i] == b[i];
    }
    if Covers(a + b, u) {
      var i :| 0 <= i < |a + b| && Has((a + b)[i], u);
      assert if i < |a| then Has(a[i], u) else Has(b[i - |a|], u);
    }
  }

  lemma CoversOne(b: Blk, u: nat)
    ensures Covers([b], u) <==> Has(b, u)
  {
    assert [b][0] == b;
  }

  lemma ApartJoin(a: seq<Blk>, b: seq<Blk>)
    requires Apart(a) && Apart(b) && (|a| > 0 && |b| > 0 ==> Before(a[|a| - 1], b[0]))
    ensures Apart(a + b)
  {
    forall i, j | 0 <= i < j < |a + b| ensures Before((a + b)[i], (a + b)[j]) {
      if i < |a| <= j {
        assert i < |a| - 1 ==> Before(a[i], a[|a| - 1]);
        assert j > |a| ==> Before(b[0], b[j - |a|]);
      }
    }
  }

  lemma MergeUpSpec(bs: seq<Blk>, k: nat, b: Blk, u: nat)
    requires Apart(bs) && Fits(bs, k, b)
    ensures var up := MergeUp(bs, k, b);
      && |up| > 0 && up[0].addr == b.addr && up[0].len >= b.len && Apart(up)
      && (Covers(up, u) <==> Covers(bs[k..], u) || Has(b, u))
  {
    hide Apart, Covers;
    if k < |bs| && b.addr + b.len == bs[k].addr {
      var m := Blk(b.addr, b.len + bs[k].len);
      ApartSlice(bs, k, k + 1);
      ApartSlice(bs, k + 1, |bs|);
      ApartOne(m);
      ApartJoin([m], bs[k + 1..]);
      CoversJoin([m], bs[k + 1..], u);
      CoversOne(m, u);
      CoversTail(bs[k..], u);
      assert bs[k..][1..] == bs[k + 1..];
    } else {
      ApartSlice(bs, k, |bs|);
      ApartOne(b);
      ApartJoin([b], bs[k..]);
      CoversJoin([b], bs[k..], u);
      CoversOne(b, u);
    }
  }

  /** The list stays coalesced, and has exactly the units of the block more. */
  lemma InsertSpec(bs: seq<Blk>, k: nat, b: Blk, u: nat)
    requires Apart(bs) && Fits(bs, k, b)
    ensures Apart(Insert(bs, k, b))
    ensures Covers(Insert(bs, k, b), u) <==> Covers(bs, u) || Has(b, u)
  {
    hide Apart, Covers, MergeUp;
    var up := MergeUp(bs, k, b);
    MergeUpSpec(bs, k, b, u);
    CoversJoin(bs[..k], bs[k..], u);
    assert bs == bs[..k] + bs[k..];
    if k > 0 && bs[k - 1].addr + bs[k - 1].len == b.addr {
      InsertLow(bs, k, b, up, u);
    } else {
      ApartSlice(bs, 0, k);
      ApartJoin(bs[..k], up);
      CoversJoin(bs[..k], up, u);
    }
  }

  lemma InsertLow(bs: seq<Blk>, k: nat, b: Blk, up: seq<Blk>, u: nat)
    requires Apart(bs) && 0 < k <= |bs| && bs[k - 1].addr + bs[k - 1].len == b.addr
    requires |up| > 0 && up[0].addr == b.addr && Apart(up)
    ensures var r := bs[..k - 1] + [Blk(bs[k - 1].addr, bs[k - 1].len + up[0].len)] + up[1..];
      Apart(r) && (Covers(r, u) <==> Covers(bs[..k], u) || Covers(up, u))
  {
    hide Apart, Covers;
    var lo, m := bs[..k - 1], Blk(bs[k - 1].addr, bs[k - 1].len + up[0].len);
    ApartSlice(bs, k - 1, k);
    ApartSlice(bs, if k > 1 then k - 2 else 0, k - 1);
    ApartSlice(up, 0, 1);
    ApartSlice(up, 1, |up|);
    ApartOne(m);
    ApartJoin(lo, [m]);
    ApartJoin(lo + [m], up[1..]);
    CoversJoin(lo + [m], up[1..], u);
    CoversJoin(lo, [m], u);
    CoversOne(m, u);
    CoversTail(up, u);
    CoversJoin(lo, [bs[k - 1]], u);
    CoversOne(bs[k - 1], u);
    assert bs[..k] == lo + [bs[k - 1]];
  }

  // Taking

  /** malloc: a block of the right size leaves the list, a larger one gives its upper end. */
  function Take(bs: seq<Blk>, k: nat, n: nat): seq<Blk>
    requires k < |bs| && n <= bs[k].len
  {
    if bs[k].len == n then bs[..k] + bs[k + 1..] else bs[k := Blk(bs[k].addr, bs[k].len - n)]
  }

  function Taken(b: Blk, n: nat): Blk
    requires n <= b.len
  {
    Blk(b.addr + (b.len - n), n)
  }

  lemma TakeSpec(bs: seq<Blk>, k: nat, n: nat, u: nat)
    requires Apart(bs) && k < |bs| && 0 < n <= bs[k].len
    ensures Apart(Take(bs, k, n))
    ensures Covers(Take(bs, k, n), u) <==> Covers(bs, u) && !Has(Taken(bs[k], n), u)
    ensures Has(Taken(bs[k], n), u) ==> Covers(bs, u)
  {
    hide Apart, Covers;
    var lo, hi, b := bs[..k], bs[k + 1..], bs[k];
    var m: seq<Blk> := if b.len == n then [] else [Blk(b.addr, b.len - n)];
    assert Take(bs, k, n) == lo + m + hi;
    assert bs == lo + [b] + hi;
    ApartAround(bs, k, m);
    CoversJoin(lo + m, hi, u);
    CoversJoin(lo, m, u);
    CoversJoin(lo + [b], hi, u);
    CoversJoin(lo, [b], u);
    CoversOne(b, u);
    CoversOne(Blk(b.addr, b.len - n), u);
    NothingCovered(u);
    NotAround(bs, k, u);
  }

  lemma NothingCovered(u: nat)
    ensures !Covers([], u)
  {}

  /** What is in one block is in no other. */
  lemma NotAround(bs: seq<Blk>, k: nat, u: nat)
    requires Apart(bs) && k < |bs|
    ensures Has(bs[k], u) ==> !Covers(bs[..k], u) && !Covers(bs[k + 1..], u)
  {
    if Has(bs[k], u) {
      forall i | 0 <= i < k ensures !Has(bs[..k][i], u) {
        assert Before(bs[i], bs[k]);
      }
      var hi := bs[k + 1..];
      forall i | 0 <= i < |hi| ensures !Has(hi[i], u) {
        assert Before(bs[k], bs[k + 1 + i]);
      }
    }
  }

  /** Leaving out or shortening a block keeps the others apart. */
  lemma ApartAround(bs: seq<Blk>, k: nat, m: seq<Blk>)
    requires Apart(bs) && k < |bs|
    requires m == [] || (|m| == 1 && m[0].addr == bs[k].addr && 0 < m[0].len <= bs[k].len)
    ensures Apart(bs[..k] + m + bs[k + 1..])
  {
    hide Apart;
    var lo, hi := bs[..k], bs[k + 1..];
    ApartSlice(bs, k + 1, |bs|);
    ApartSlice(bs, k, k + 1);
    ApartSlice(bs, if k > 0 then k - 1 else 0, k);
    if m == [] {
      ApartJoin(lo, hi);
      assert lo + m + hi == lo + hi;
    } else {
      ApartOne(m[0]);
      assert m == [m[0]];
      ApartJoin(lo, m);
      ApartJoin(lo + m, hi);
    }
  }

  /** Taking a block and freeing it again gives the same list. */
  lemma TakeThenInsert(bs: seq<Blk>, k: nat, n: nat, k': nat)
    requires Apart(bs) && k < |bs| && 0 < n <= bs[k].len
    requires k' <= |Take(bs, k, n)| && Fits(Take(bs, k, n), k', Taken(bs[k], n))
    ensures Insert(Take(bs, k, n), k', Taken(bs[k], n)) == bs
  {
    var mid, b := Take(bs, k, n), Taken(bs[k], n);
    TakeSpec(bs, k, n, 0);
    InsertSpec(mid, k', b, 0);
    forall u: nat ensures Covers(Insert(mid, k', b), u) <==> Covers(bs, u) {
      TakeSpec(bs, k, n, u);
      InsertSpec(mid, k', b, u);
    }
    Canonical(Insert(mid, k', b), bs);
  }
}
