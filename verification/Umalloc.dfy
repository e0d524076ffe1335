/**
 umalloc.c: the circular free list threaded through memory. Addresses count headers, 8 bytes each; the
 static header `base` lies below the heap, so the ring starts with it.
 */
module Umalloc {
  import opened FreeList

  datatype Option<T> = None | Some(value: T)

  // The ring

  function Node(base: nat, bs: seq<Blk>, i: nat): nat
    requires i <= |bs|
  {
    if i == 0 then base else bs[i - 1].addr
  }

  function NodeLen(bs: seq<Blk>, i: nat): nat
    requires i <= |bs|
  {
    if i == 0 then 0 else bs[i - 1].len
  }

  function NextIx(bs: seq<Blk>, i: nat): (j: nat)
    requires i <= |bs|
    ensures j <= |bs|
  {
    if i == |bs| then 0 else i + 1
  }

  ghost predicate Linked(ptr: map<nat, nat>, size: map<nat, nat>, base: nat, bs: seq<Blk>, i: nat)
    requires i <= |bs|
  {
    var a := Node(base, bs, i);
    && a in ptr && ptr[a] == Node(base, bs, NextIx(bs, i))
    && a in size && size[a] == NodeLen(bs, i)
  }

  /** The memory holds this free list, in address order after `base`. */
  ghost predicate Rep(ptr: map<nat, nat>, size: map<nat, nat>, base: nat, bs: seq<Blk>) {
    && Apart(bs)
    && (|bs| > 0 ==> base < bs[0].addr)
    && forall i: nat :: i <= |bs| ==> Linked(ptr, size, base, bs, i)
  }

  lemma NodesUp(base: nat, bs: seq<Blk>, i: nat, j: nat)
    requires Apart(bs) && (|bs| > 0 ==> base < bs[0].addr) && i < j <= |bs|
    ensures Node(base, bs, i) + NodeLen(bs, i) < Node(base, bs, j)
  {
    if i > 0 {
      assert Before(bs[i - 1], bs[j - 1]);
    } else if j > 1 {
      assert Before(bs[0], bs[j - 1]);
    }
  }

  /** Where a block belongs in the ring. */
  ghost predicate Place(base: nat, bs: seq<Blk>, k: nat, a: nat) {
    k <= |bs| && Node(base, bs, k) < a && (k < |bs| ==> a < bs[k].addr)
  }

  lemma NotNode(base: nat, bs: seq<Blk>, k: nat, a: nat, i: nat)
    requires Apart(bs) && (|bs| > 0 ==> base < bs[0].addr) && Place(base, bs, k, a) && i <= |bs|
    ensures i <= k ==> Node(base, bs, i) < a
    ensures i > k ==> a < Node(base, bs, i)
  {
    if i < k {
      NodesUp(base, bs, i, k);
    } else if i > k + 1 {
      NodesUp(base, bs, k + 1, i);
    }
  }

  // Who has which unit

  ghost predicate InLive(live: map<nat, nat>, u: nat) {
    exists b :: b in live && Has(Blk(b, live[b]), u)
  }

  ghost predicate UnitOk(bs: seq<Blk>, live: map<nat, nat>, heap: set<nat>, u: nat) {
    (u in heap <==> Covers(bs, u) || InLive(live, u)) && !(Covers(bs, u) && InLive(live, u))
  }

  ghost predicate Disjoint(live: map<nat, nat>, b: nat, c: nat)
    requires b in live && c in live
  {
    b != c ==> b + live[b] <= c || c + live[c] <= b
  }

  /** Every unit obtained from the kernel is in exactly one block, free or live. */
  ghost predicate Parted(bs: seq<Blk>, live: map<nat, nat>, heap: set<nat>) {
    && (forall u: nat :: UnitOk(bs, live, heap, u))
    && (forall b :: b in live ==> live[b] > 0)
    && (forall b, c :: b in live && c in live ==> Disjoint(live, b, c))
  }

  ghost function Range(a: nat, n: nat): set<nat> {
    set u: nat | a <= u < a + n && Has(Blk(a, n), u)
  }

  lemma LiveMinus(live: map<nat, nat>, b: nat, u: nat)
    requires b in live && forall x, c :: x in live && c in live ==> Disjoint(live, x, c)
    ensures InLive(live - {b}, u) <==> InLive(live, u) && !Has(Blk(b, live[b]), u)
    ensures Has(Blk(b, live[b]), u) ==> InLive(live, u)
  {
    var live' := live - {b};
    if InLive(live', u) {
      var x :| x in live' && Has(Blk(x, live'[x]), u);
      assert x in live && Has(Blk(x, live[x]), u);
      assert Disjoint(live, x, b);
    }
    if InLive(live, u) && !Has(Blk(b, live[b]), u) {
      var x :| x in live && Has(Blk(x, live[x]), u);
      assert x in live' && Has(Blk(x, live'[x]), u);
    }
  }

  lemma LivePlus(live: map<nat, nat>, b: nat, n: nat, u: nat)
    requires b !in live
    ensures InLive(live[b := n], u) <==> InLive(live, u) || Has(Blk(b, n), u)
  {
    var live' := live[b := n];
    if InLive(live, u) {
      var x :| x in live && Has(Blk(x, live[x]), u);
      assert x in live' && Has(Blk(x, live'[x]), u);
    }
    assert b in live' && live'[b] == n;
    if InLive(live', u) && !Has(Blk(b, n), u) {
      var x :| x in live' && Has(Blk(x, live'[x]), u);
      assert x in live && Has(Blk(x, live[x]), u);
    }
  }

  lemma PartedFree(bs: seq<Blk>, live: map<nat, nat>, heap: set<nat>, b: nat, k: nat)
    requires Parted(bs, live, heap) && Apart(bs) && b in live && k <= |bs| && Fits(bs, k, Blk(b, live[b]))
    ensures Parted(Insert(bs, k, Blk(b, live[b])), live - {b}, heap)
  {
    var bs', live' := Insert(bs, k, Blk(b, live[b])), live - {b};
    forall u: nat ensures UnitOk(bs', live', heap, u) {
      assert UnitOk(bs, live, heap, u);
      InsertSpec(bs, k, Blk(b, live[b]), u);
      LiveMinus(live, b, u);
    }
    forall x, c | x in live' && c in live' ensures Disjoint(live', x, c) {
      assert Disjoint(live, x, c);
    }
  }

  lemma PartedTake(bs: seq<Blk>, live: map<nat, nat>, heap: set<nat>, k: nat, n: nat)
    requires Parted(bs, live, heap) && Apart(bs) && k < |bs| && 0 < n <= bs[k].len
    ensures var t := Taken(bs[k], n);
      t.addr !in live && Parted(Take(bs, k, n), live[t.addr := n], heap)
  {
    var t := Taken(bs[k], n);
    var bs', live' := Take(bs, k, n), live[t.addr := n];
    forall x | x in live ensures x != t.addr && (x + live[x] <= t.addr || t.addr + n <= x) {
      TakenApart(bs, live, heap, k, n, x);
    }
    forall u: nat ensures UnitOk(bs', live', heap, u) {
      assert UnitOk(bs, live, heap, u);
      TakeSpec(bs, k, n, u);
      LivePlus(live, t.addr, n, u);
    }
    forall x, c | x in live' && c in live' ensures Disjoint(live', x, c) {
      assert x in live && c in live ==> Disjoint(live, x, c);
    }
  }

  lemma TakenApart(bs: seq<Blk>, live: map<nat, nat>, heap: set<nat>, k: nat, n: nat, x: nat)
    requires Parted(bs, live, heap) && Apart(bs) && k < |bs| && 0 < n <= bs[k].len && x in live
    ensures var t := Taken(bs[k], n);
      x != t.addr && (x + live[x] <= t.addr || t.addr + n <= x)
  {
    var t := Taken(bs[k], n);
    var u := if x <= t.addr then t.addr else x;
    assert Has(t, u) ==> Has(bs[k], u);
    assert UnitOk(bs, live, heap, u);
    assert Has(Blk(x, live[x]), x);
  }

  /** New memory first counts as a block in use; morecore then frees it. */
  lemma PartedGrow(bs: seq<Blk>, live: map<nat, nat>, heap: set<nat>, brk: nat, at: nat, n: nat)
    requires Parted(bs, live, heap) && (forall u :: u in heap ==> u < brk) && at >= brk && n > 0
    ensures at !in live && Parted(bs, live[at := n], heap + Range(at, n))
  {
    var live', heap' := live[at := n], heap + Range(at, n);
    forall x | x in live ensures x + live[x] <= at {
      var u := x + live[x] - 1;
      assert Has(Blk(x, live[x]), u);
      assert UnitOk(bs, live, heap, u);
    }
    forall u: nat ensures UnitOk(bs, live', heap', u) {
      assert UnitOk(bs, live, heap, u);
      LivePlus(live, at, n, u);
    }
    forall x, c | x in live' && c in live' ensures Disjoint(live', x, c) {
      assert x in live && c in live ==> Disjoint(live, x, c);
    }
  }

  // Threading the ring

  /** The pointers and sizes after free has put `b` after ring position `k`. */
  ghost predicate Relinked(ptr: map<nat, nat>, size: map<nat, nat>, ptr': map<nat, nat>, size': map<nat, nat>,
                           base: nat, bs: seq<Blk>, k: nat, b: Blk)
    requires k <= |bs|
  {
    var p := Node(base, bs, k);
    var up := k < |bs| && b.addr + b.len == bs[k].addr;
    var low := Low(bs, k, b);
    var len := if up then b.len + bs[k].len else b.len;
    var after := Node(base, bs, NextIx(bs, if up then k + 1 else k));
    && b.addr in ptr' && b.addr in size' && p in ptr' && p in size'
    && (if low then ptr'[p] == after && size'[p] == bs[k - 1].len + len
        else ptr'[p] == b.addr && size'[p] == NodeLen(bs, k) && ptr'[b.addr] == after && size'[b.addr] == len)
    && forall a :: a != p && a != b.addr ==> SameHeader(ptr, size, ptr', size', a)
  }

  ghost predicate SameHeader(ptr: map<nat, nat>, size: map<nat, nat>, ptr': map<nat, nat>, size': map<nat, nat>,
      a: nat) {
    && (a in ptr ==> a in ptr' && ptr'[a] == ptr[a])
    && (a in size ==> a in size' && size'[a] == size[a])
  }

  /** Ring positions before the insertion, seen from after it. */
  ghost function OldIx(bs: seq<Blk>, k: nat, b: Blk, i: nat): int
    requires k <= |bs|
  {
    var up := k < |bs| && b.addr + b.len == bs[k].addr;
    var low := Low(bs, k, b);
    if i <= k then i else i + (if up then 1 else 0) + (if low then 1 else 0) - 1
  }

  lemma InsertForm(bs: seq<Blk>, k: nat, b: Blk)
    requires k <= |bs|
    ensures var up := k < |bs| && b.addr + b.len == bs[k].addr;
      var low := k > 0 && bs[k - 1].addr + bs[k - 1].len == b.addr;
      var len := MergeUp(bs, k, b)[0].len;
      var m := if low then Blk(bs[k - 1].addr, bs[k - 1].len + len) else Blk(b.addr, len);
      && len == (if up then b.len + bs[k].len else b.len)
      && Insert(bs, k, b) == bs[..if low then k - 1 else k] + [m] + bs[if up then k + 1 else k..]
  {}

  ghost predicate Low(bs: seq<Blk>, k: nat, b: Blk)
    requires k <= |bs|
  {
    k > 0 && bs[k - 1].addr + bs[k - 1].len == b.addr
  }

  /** The ring after an insertion that joined with the block below. */
  lemma NodesLow(base: nat, bs: seq<Blk>, k: nat, b: Blk, i: nat)
    requires k <= |bs| && i <= |Insert(bs, k, b)| && Low(bs, k, b)
    ensures var bs' := Insert(bs, k, b);
      var j := OldIx(bs, k, b, i);
      && 0 <= j <= |bs| && Node(base, bs', i) == Node(base, bs, j)
      && NodeLen(bs', i) == (if i == k then bs[k - 1].len + MergeUp(bs, k, b)[0].len else NodeLen(bs, j))
      && (i == |bs'| ==> j == |bs| || i == k)
  {
    InsertForm(bs, k, b);
    hide Insert, MergeUp, Node, NodeLen;
    var hi := if k < |bs| && b.addr + b.len == bs[k].addr then k + 1 else k;
    SameNode(base, bs, k);
    SplicedNodes(base, bs, k - 1, Blk(bs[k - 1].addr, bs[k - 1].len + MergeUp(bs, k, b)[0].len), hi, i);
  }

  /** The ring after an insertion that did not. */
  lemma NodesNew(base: nat, bs: seq<Blk>, k: nat, b: Blk, i: nat)
    requires k <= |bs| && i <= |Insert(bs, k, b)| && !Low(bs, k, b)
    ensures var bs' := Insert(bs, k, b);
      var j := OldIx(bs, k, b, i);
      && (i == k + 1 ==> Node(base, bs', i) == b.addr && NodeLen(bs', i) == MergeUp(bs, k, b)[0].len)
      && (i != k + 1 ==> 0 <= j <= |bs| && Node(base, bs', i) == Node(base, bs, j) && NodeLen(bs', i) == NodeLen(bs, j))
      && (i == |bs'| ==> i == k + 1 || j == |bs|)
  {
    InsertForm(bs, k, b);
    hide Insert, MergeUp, Node, NodeLen;
    var hi := if k < |bs| && b.addr + b.len == bs[k].addr then k + 1 else k;
    SplicedNodes(base, bs, k, Blk(b.addr, MergeUp(bs, k, b)[0].len), hi, i);
  }

  lemma SameNode(base: nat, bs: seq<Blk>, k: nat)
    requires k <= |bs|
    ensures k > 0 ==> Node(base, bs, k) == bs[k - 1].addr
  {}

  lemma SplicedNodes(base: nat, bs: seq<Blk>, lo: nat, m: Blk, hi: nat, i: nat)
    requires lo <= hi <= |bs| && i <= lo + 1 + |bs| - hi
    ensures var bs' := bs[..lo] + [m] + bs[hi..];
      var j := if i <= lo then i else i + hi - lo - 1;
      && |bs'| == lo + 1 + |bs| - hi
      && (i == lo + 1 ==> Node(base, bs', i) == m.addr && NodeLen(bs', i) == m.len)
      && (i != lo + 1 ==>
         0 <= j <= |bs| && Node(base, bs', i) == Node(base, bs, j) && NodeLen(bs', i) == NodeLen(bs, j))
  {}

  lemma RelinkedRep(ptr: map<nat, nat>, size: map<nat, nat>, ptr': map<nat, nat>, size': map<nat, nat>,
                    base: nat, bs: seq<Blk>, k: nat, b: Blk)
    requires Rep(ptr, size, base, bs) && k <= |bs| && Fits(bs, k, b) && Place(base, bs, k, b.addr)
    requires Relinked(ptr, size, ptr', size', base, bs, k, b)
    ensures Rep(ptr', size', base, Insert(bs, k, b))
  {
    var bs' := Insert(bs, k, b);
    InsertSpec(bs, k, b, 0);
    InsertForm(bs, k, b);
    forall i: nat | i <= |bs'| ensures Linked(ptr', size', base, bs', i) {
      if Low(bs, k, b) {
        RelinkedLow(ptr, size, ptr', size', base, bs, k, b, i);
      } else {
        RelinkedNew(ptr, size, ptr', size', base, bs, k, b, i);
      }
    }
    if k > 1 {
      NodesUp(base, bs, 0, 1);
    }
  }

  /** A header away from the place of insertion is as it was. */
  lemma OtherHeader(ptr: map<nat, nat>, size: map<nat, nat>, ptr': map<nat, nat>, size': map<nat, nat>,
                    base: nat, bs: seq<Blk>, k: nat, b: Blk, j: nat)
    requires Rep(ptr, size, base, bs) && k <= |bs| && Place(base, bs, k, b.addr) && j <= |bs| && j != k
    requires Relinked(ptr, size, ptr', size', base, bs, k, b)
    ensures var a := Node(base, bs, j);
      && a in ptr' && ptr'[a] == Node(base, bs, NextIx(bs, j))
      && a in size' && size'[a] == NodeLen(bs, j)
  {
    assert Linked(ptr, size, base, bs, j);
    NotNode(base, bs, k, b.addr, j);
    if j < k {
      NodesUp(base, bs, j, k);
    } else {
      NodesUp(base, bs, k, j);
    }
    assert SameHeader(ptr, size, ptr', size', Node(base, bs, j));
  }

  lemma RelinkedLow(ptr: map<nat, nat>, size: map<nat, nat>, ptr': map<nat, nat>, size': map<nat, nat>,
                    base: nat, bs: seq<Blk>, k: nat, b: Blk, i: nat)
    requires Rep(ptr, size, base, bs) && k <= |bs| && Low(bs, k, b) && Place(base, bs, k, b.addr)
    requires Relinked(ptr, size, ptr', size', base, bs, k, b) && i <= |Insert(bs, k, b)|
    ensures Linked(ptr', size', base, Insert(bs, k, b), i)
  {
    NodesLow(base, bs, k, b, i);
    NodesLow(base, bs, k, b, NextIx(Insert(bs, k, b), i));
    InsertForm(bs, k, b);
    var j := OldIx(bs, k, b, i);
    hide Insert, MergeUp, Rep;
    if i != k {
      OtherHeader(ptr, size, ptr', size', base, bs, k, b, j);
    }
  }

  lemma RelinkedNew(ptr: map<nat, nat>, size: map<nat, nat>, ptr': map<nat, nat>, size': map<nat, nat>,
                    base: nat, bs: seq<Blk>, k: nat, b: Blk, i: nat)
    requires Rep(ptr, size, base, bs) && k <= |bs| && !Low(bs, k, b) && Place(base, bs, k, b.addr)
    requires Relinked(ptr, size, ptr', size', base, bs, k, b) && i <= |Insert(bs, k, b)|
    ensures Linked(ptr', size', base, Insert(bs, k, b), i)
  {
    NodesNew(base, bs, k, b, i);
    NodesNew(base, bs, k, b, NextIx(Insert(bs, k, b), i));
    InsertForm(bs, k, b);
    var j := OldIx(bs, k, b, i);
    hide Insert, MergeUp, Rep;
    if i != k && i != k + 1 {
      OtherHeader(ptr, size, ptr', size', base, bs, k, b, j);
    }
  }

  lemma UnlinkNodes(base: nat, bs: seq<Blk>, k: nat, n: nat, i: nat)
    requires k < |bs| && bs[k].len == n && i < |bs|
    ensures var bs' := Take(bs, k, n);
      var j := if i <= k then i else i + 1;
      |bs'| == |bs| - 1 && Node(base, bs', i) == Node(base, bs, j) && NodeLen(bs', i) == NodeLen(bs, j)
  {}

  lemma UnlinkAt(ptr: map<nat, nat>, size: map<nat, nat>, base: nat, bs: seq<Blk>, k: nat, n: nat, i: nat)
    requires Rep(ptr, size, base, bs) && k < |bs| && bs[k].len == n > 0 && i <= |Take(bs, k, n)|
    ensures Linked(ptr[Node(base, bs, k) := Node(base, bs, NextIx(bs, k + 1))], size, base, Take(bs, k, n), i)
  {
    UnlinkNodes(base, bs, k, n, i);
    UnlinkNodes(base, bs, k, n, NextIx(Take(bs, k, n), i));
    var j := if i <= k then i else i + 1;
    assert Linked(ptr, size, base, bs, j);
    hide Take, Apart, Rep;
    if j < k {
      NodesUp(base, bs, j, k);
    } else if k < j {
      NodesUp(base, bs, k, j);
    }
  }

  lemma UnlinkRep(ptr: map<nat, nat>, size: map<nat, nat>, base: nat, bs: seq<Blk>, k: nat, n: nat)
    requires Rep(ptr, size, base, bs) && k < |bs| && bs[k].len == n > 0
    ensures Rep(ptr[Node(base, bs, k) := Node(base, bs, NextIx(bs, k + 1))], size, base, Take(bs, k, n))
  {
    var bs', ptr' := Take(bs, k, n), ptr[Node(base, bs, k) := Node(base, bs, NextIx(bs, k + 1))];
    TakeSpec(bs, k, n, 0);
    forall i: nat | i <= |bs'| ensures Linked(ptr', size, base, bs', i) {
      UnlinkAt(ptr, size, base, bs, k, n, i);
    }
    if |bs| > 1 {
      NodesUp(base, bs, 0, 1);
      NodesUp(base, bs, 0, 2);
    }
  }

  lemma SplitRep(ptr: map<nat, nat>, size: map<nat, nat>, base: nat, bs: seq<Blk>, k: nat, n: nat)
    requires Rep(ptr, size, base, bs) && k < |bs| && 0 < n < bs[k].len
    ensures var q := Taken(bs[k], n).addr;
      Rep(ptr, size[bs[k].addr := bs[k].len - n][q := n], base, Take(bs, k, n))
  {
    var q := Taken(bs[k], n).addr;
    var bs', size' := Take(bs, k, n), size[bs[k].addr := bs[k].len - n][q := n];
    TakeSpec(bs, k, n, 0);
    forall i: nat | i <= |bs'| ensures Linked(ptr, size', base, bs', i) {
      assert Linked(ptr, size, base, bs, i);
      if i < k + 1 {
        NodesUp(base, bs, i, k + 1);
      } else if k + 1 < i {
        NodesUp(base, bs, k + 1, i);
      }
    }
  }

  /** The place for an address: after all the blocks below it. */
  ghost function PlaceOf(bs: seq<Blk>, a: nat): (k: nat)
    ensures k <= |bs|
  {
    if bs == [] || bs[|bs| - 1].addr < a then |bs| else PlaceOf(bs[..|bs| - 1], a)
  }

  lemma {:induction false} PlaceOfIs(base: nat, bs: seq<Blk>, a: nat)
    requires Apart(bs) && base < a && forall i :: 0 <= i < |bs| ==> bs[i].addr != a
    ensures Place(base, bs, PlaceOf(bs, a), a)
    decreases |bs|
  {
    if bs != [] && bs[|bs| - 1].addr > a {
      ApartSlice(bs, 0, |bs| - 1);
      PlaceOfIs(base, bs[..|bs| - 1], a);
    }
  }

  const UNIT := 8
  const WORD := 0x1_0000_0000

  /** Units for a request, header included, in 32-bit arithmetic. */
  function NUnits(nbytes: nat): (n: nat)
    ensures n > 0
  {
    (nbytes + UNIT - 1) % WORD / UNIT + 1
  }

  /** The block is large enough exactly if the sum does not wrap around. */
  lemma NUnitsSuffice(nbytes: nat)
    requires nbytes < WORD
    ensures (NUnits(nbytes) - 1) * UNIT >= nbytes <==> nbytes <= WORD - UNIT
    ensures nbytes <= WORD - UNIT ==> (NUnits(nbytes) - 2) * UNIT < nbytes
  {}

  /** The argument of sbrk is an int: it is the number of bytes meant exactly below 2^28 units. */
  function SbrkArg(nu: nat): int {
    var n := nu * UNIT % WORD;
    if n < 0x8000_0000 then n else n - WORD
  }

  lemma SbrkArgExact(nu: nat)
    ensures SbrkArg(nu) == nu * UNIT <==> nu < 0x1000_0000
  {}

  class Heap {
    const base: nat
    var freep: nat
    var ptr: map<nat, nat>
    var size: map<nat, nat>

    /** A header was written where sbrk gave no memory. */
    var strayed: bool

    ghost var bs: seq<Blk>
    ghost var fi: nat
    ghost var live: map<nat, nat>
    ghost var heap: set<nat>
    ghost var brk: nat

    ghost predicate Ring()
      reads this
    {
      freep != 0 && Rep(ptr, size, base, bs) && fi <= |bs| && freep == Node(base, bs, fi)
    }

    ghost predicate Blocks()
      reads this
    {
      && Parted(bs, live, heap)
      && (forall b :: b in live ==> b in size && size[b] == live[b])
      && (forall u :: u in heap ==> base < u < brk)
    }

    ghost predicate Valid()
      reads this
    {
      && 0 < base < brk && !strayed && Blocks()
      && (if freep == 0 then bs == [] && live == map[] else Ring())
    }

    constructor (base: nat, brk: nat)
      requires 0 < base < brk
      ensures Valid() && live == map[] && heap == {} && this.base == base && this.brk == brk
    {
      this.base, this.brk, freep, ptr, size, strayed := base, brk, 0, map[], map[], false;
      bs, fi, live, heap := [], 0, map[], {};
      new;
      forall u: nat ensures UnitOk(bs, live, heap, u) {
      }
    }

    /** The search of free: from wherever the ring was left. */
    method FindPlace(bp: nat) returns (p: nat, ghost k: nat)
      requires Ring() && bp > base && forall i :: 0 <= i < |bs| ==> bs[i].addr != bp
      ensures Place(base, bs, k, bp) && p == Node(base, bs, k)
      ensures p in ptr && p < bp && (bp < ptr[p] || ptr[p] == base)
    {
      hide Apart;
      PlaceOfIs(base, bs, bp);
      ghost var t := PlaceOf(bs, bp);
      p, k := freep, fi;
      assert Linked(ptr, size, base, bs, k);
      while !(bp > p && bp < ptr[p])
        invariant k <= |bs| && p == Node(base, bs, k) && Linked(ptr, size, base, bs, k)
        decreases if k <= t then t - k else |bs| + 1 - k + t
      {
        StopsAt(ptr, size, base, bs, t, k, bp);
        if p >= ptr[p] && (bp > p || bp < ptr[p]) {
          break;
        }
        p, k := ptr[p], NextIx(bs, k);
        assert Linked(ptr, size, base, bs, k);
      }
      StopsAt(ptr, size, base, bs, t, k, bp);
    }

    /** The links of free, joining blocks that touch. */
    method LinkIn(bp: nat, p: nat, ghost k: nat)
      requires k <= |bs| && p == Node(base, bs, k) && Place(base, bs, k, bp) && p >= base && bp in size && size[bp] > 0
      requires Linked(ptr, size, base, bs, k) && Linked(ptr, size, base, bs, NextIx(bs, k))
      modifies this`ptr, this`size
      ensures Relinked(old(ptr), old(size), ptr, size, base, bs, k, Blk(bp, old(size)[bp]))
    {
      var nx := ptr[p];
      if bp + size[bp] == nx {
        size := size[bp := size[bp] + size[nx]];
        ptr := ptr[bp := ptr[nx]];
      } else {
        ptr := ptr[bp := nx];
      }
      if p + size[p] == bp {
        size := size[p := size[p] + size[bp]];
        ptr := ptr[p := ptr[bp]];
      } else {
        ptr := ptr[p := bp];
      }
    }

    /**
     free: the block's units join the free list, which stays in order and coalesced. The ring is left
     before the block, and position `t` has it.
     */
    method Free(ap: nat) returns (ghost t: nat)
      requires Valid() && ap > 0 && ap - 1 in live
      modifies this`freep, this`ptr, this`size, this`bs, this`fi, this`live
      ensures Valid() && freep != 0 && live == old(live) - {ap - 1}
      ensures Joined(old(bs), bs, Blk(ap - 1, old(live)[ap - 1]))
      ensures t <= |bs| && NodeLen(bs, t) >= old(live)[ap - 1]
    {
      hide Apart, Rep, Parted, Insert, Covers, Relinked;
      var bp := ap - 1;
      ghost var b, ptr0, size0 := Blk(bp, live[bp]), ptr, size;
      LiveBlock(ptr, size, base, bs, live, heap, brk, bp);
      var p;
      ghost var k;
      p, k := FindPlace(bp);
      RepAt(ptr, size, base, bs, k);
      LinkIn(bp, p, k);
      freep := p;
      t := FreeDone(ptr0, size0, ptr, size, base, bs, live, heap, brk, bp, k);
      bs, fi, live := Insert(bs, k, b), k, live - {bp};
    }

    /**
     More memory, or 0 if the kernel has none. Each grant lies above everything before it. A request of
     2^28 units or more is not what sbrk gets to see, so the header written then lies outside of what it
     gave.
     */
    method Morecore(nunits: nat, grant: Option<nat>) returns (p: nat, ghost t: nat)
      requires Valid() && freep != 0 && nunits > 0 && (grant.Some? ==> grant.value >= brk)
      modifies this
      ensures grant.None? ==> Valid() && p == 0 && bs == old(bs) && live == old(live) && heap == old(heap)
      ensures strayed <==> grant.Some? && nunits >= 0x1000_0000
      ensures grant.Some? && !strayed ==>
        && Valid() && p == freep != 0 && live == old(live)
        && heap == old(heap) + Range(grant.value, Asked(nunits))
        && t <= |bs| && NodeLen(bs, t) >= nunits
    {
      hide Apart, Rep, Parted;
      t := 0;
      var nu := nunits;
      if nu < 4096 {
        nu := 4096;
      }
      if grant.None? {
        return 0, 0;
      }
      SbrkArgExact(nu);
      if SbrkArg(nu) != nu * UNIT {
        strayed := true;
        return 0, 0;
      }
      var hp := grant.value;
      PartedGrow(bs, live, heap, brk, hp, nu);
      NewHeader(ptr, size, base, bs, live, heap, brk, hp, nu);
      ghost var live0 := live;
      size := size[hp := nu];
      live, heap, brk := live[hp := nu], heap + Range(hp, nu), hp + nu;
      t := Free(hp + 1);
      assert live == live0;
      p := freep;
    }

    /** What malloc does once it has found a block: unlink it, or cut off its upper end. */
    method TakeFrom(p: nat, prevp: nat, n: nat, ghost k: nat) returns (r: nat)
      requires Valid() && freep != 0 && n > 0 && k < |bs|
      requires p == Node(base, bs, k + 1) && prevp == Node(base, bs, k) && bs[k].len >= n
      modifies this`freep, this`ptr, this`size, this`bs, this`fi, this`live
      ensures Valid() && freep != 0 && r !in old(live) && live == old(live)[r := n]
      ensures Blk(r, n) == Taken(old(bs)[k], n)
    {
      hide Apart, Rep, Parted, Take;
      RepAt(ptr, size, base, bs, k);
      RepAt(ptr, size, base, bs, k + 1);
      PartedTake(bs, live, heap, k, n);
      TakenHeaders(ptr, size, base, bs, live, heap, brk, k, n);
      TakeNode(base, bs, k, n);
      if size[p] == n {
        UnlinkRep(ptr, size, base, bs, k, n);
        ptr := ptr[prevp := ptr[p]];
        r := p;
      } else {
        SplitRep(ptr, size, base, bs, k, n);
        size := size[p := size[p] - n];
        r := p + size[p];
        size := size[r := n];
      }
      freep := prevp;
      bs, fi, live := Take(bs, k, n), k, live[r := n];
    }

    /** The first call of malloc makes a ring of `base` alone. */
    method Start()
      requires Valid()
      modifies this`freep, this`ptr, this`size, this`fi
      ensures Valid() && freep != 0
    {
      if freep == 0 {
        ptr, size := ptr[base := base], size[base := 0];
        freep, fi := base, 0;
        FirstRing(ptr, size, base, bs);
      }
    }

    /**
     malloc: a block that was not in use, of the size asked for. Memory is asked from the kernel at most
     once, and only if no free block is large enough; 0 is returned only if the kernel refuses.
     */
    method Malloc(nbytes: nat, grant: Option<nat>) returns (r: nat)
      requires Valid() && nbytes < WORD && (grant.Some? ==> grant.value >= brk)
      modifies this
      ensures strayed <==> grant.Some? && NoneFits(old(bs), NUnits(nbytes)) && NUnits(nbytes) >= 0x1000_0000
      ensures !strayed ==> Valid()
      ensures !strayed && r == 0 ==>
        && NoneFits(old(bs), NUnits(nbytes)) && grant.None?
        && bs == old(bs) && live == old(live) && heap == old(heap)
      ensures !strayed && r != 0 ==>
        && r - 1 !in old(live) && live == old(live)[r - 1 := NUnits(nbytes)]
        && heap == old(heap) + (if NoneFits(old(bs), NUnits(nbytes)) && grant.Some?
                                then Range(grant.value, Asked(NUnits(nbytes))) else {})
        && (NoneFits(old(bs), NUnits(nbytes)) ==> grant.Some?)
    {
      hide Apart, Rep, Parted, NUnits, Range, Smaller, NoneFits, Ahead, Asked, Blocks;
      var nunits := NUnits(nbytes);
      Start();
      var prevp := freep;
      RepAt(ptr, size, base, bs, fi);
      var p := ptr[prevp];
      ghost var pk: nat, t: nat, called := fi, 0, false;
      NoneSmaller(bs, fi, nunits);
      assert heap == old(heap) + {};
      while true
        invariant Valid() && freep != 0
        invariant pk <= |bs| && prevp == Node(base, bs, pk) && p == Node(base, bs, NextIx(bs, pk))
        invariant Smaller(bs, fi, NextIx(bs, pk), nunits)
        invariant live == old(live)
        invariant !called ==> bs == old(bs) && heap == old(heap) && brk == old(brk)
        invariant t <= |bs|
        invariant called ==> grant.Some? && NoneFits(old(bs), nunits) && NodeLen(bs, t) >= nunits
        invariant called ==> heap == old(heap) + Range(grant.value, Asked(nunits)) && nunits < 0x1000_0000
        decreases if called then 0 else 1, Ahead(bs, NextIx(bs, pk), fi)
      {
        ghost var k := NextIx(bs, pk);
        RepAt(ptr, size, base, bs, k);
        if size[p] >= nunits {
          FitsSomewhere(bs, nunits, k);
          r := TakeFrom(p, prevp, nunits, k - 1);
          r := r + 1;
          return;
        }
        SameIx(ptr, size, base, bs, k, fi);
        SmallerStep(bs, fi, k, nunits);
        if p == freep {
          AllSmaller(bs, fi, nunits);
          assert NodeLen(bs, t) < nunits && !called;
          p, t := Morecore(nunits, grant);
          if strayed || p == 0 {
            r := 0;
            return;
          }
          called, k := true, fi;
          NoneSmaller(bs, fi, nunits);
        }
        RepAt(ptr, size, base, bs, k);
        prevp, pk := p, k;
        p := ptr[p];
      }
    }
  }

  /** Malloc would have to ask for more. */
  ghost predicate NoneFits(bs: seq<Blk>, n: nat) {
    forall i :: 0 <= i < |bs| ==> bs[i].len < n
  }

  /** Position `j` comes after `f` and before `k`, going around. */
  ghost predicate Passed(f: nat, k: nat, j: nat) {
    if f < k then f < j < k else f < j || j < k
  }

  /** The positions passed since `f` are all too small. */
  ghost predicate Smaller(bs: seq<Blk>, f: nat, k: nat, n: nat) {
    forall j: nat :: j <= |bs| && Passed(f, k, j) ==> NodeLen(bs, j) < n
  }

  /** How far it is to position `f`. */
  ghost function Ahead(bs: seq<Blk>, k: nat, f: nat): nat
    requires k <= |bs|
  {
    if k <= f then f - k else |bs| + 1 - k + f
  }

  lemma FirstRing(ptr: map<nat, nat>, size: map<nat, nat>, base: nat, bs: seq<Blk>)
    requires bs == [] && base in ptr && ptr[base] == base && base in size && size[base] == 0
    ensures Rep(ptr, size, base, bs)
  {}

  lemma FitsSomewhere(bs: seq<Blk>, n: nat, k: nat)
    requires k <= |bs| && 0 < n <= NodeLen(bs, k)
    ensures k > 0 && bs[k - 1].len >= n && !NoneFits(bs, n)
  {}

  lemma SameIx(ptr: map<nat, nat>, size: map<nat, nat>, base: nat, bs: seq<Blk>, k: nat, f: nat)
    requires Rep(ptr, size, base, bs) && k <= |bs| && f <= |bs|
    ensures Node(base, bs, k) == Node(base, bs, f) <==> k == f
  {
    if k < f {
      NodesUp(base, bs, k, f);
    } else if f < k {
      NodesUp(base, bs, f, k);
    }
  }

  lemma SmallerStep(bs: seq<Blk>, f: nat, k: nat, n: nat)
    requires f <= |bs| && k <= |bs| && Smaller(bs, f, k, n) && NodeLen(bs, k) < n
    ensures k != f ==> Smaller(bs, f, NextIx(bs, k), n) && Ahead(bs, NextIx(bs, k), f) < Ahead(bs, k, f)
    ensures k == f ==> forall j: nat :: j <= |bs| ==> NodeLen(bs, j) < n
  {
    if k != f {
      forall j: nat | j <= |bs| && Passed(f, NextIx(bs, k), j) ensures NodeLen(bs, j) < n {
        assert j == k || Passed(f, k, j);
      }
    } else {
      forall j: nat | j <= |bs| ensures NodeLen(bs, j) < n {
        assert j == k || Passed(f, k, j);
      }
    }
  }

  lemma AllSmaller(bs: seq<Blk>, f: nat, n: nat)
    requires forall j: nat :: j <= |bs| ==> NodeLen(bs, j) < n
    ensures NoneFits(bs, n)
  {
    forall i | 0 <= i < |bs| ensures bs[i].len < n {
      assert NodeLen(bs, i + 1) < n;
    }
  }

  /** Right after `f` nothing has been passed. */
  lemma NoneSmaller(bs: seq<Blk>, f: nat, n: nat)
    requires f <= |bs|
    ensures Smaller(bs, f, NextIx(bs, f), n)
  {}

  function Asked(nunits: nat): nat {
    if nunits < 4096 then 4096 else nunits
  }

  /** A header beyond the break disturbs nothing. */
  lemma NewHeader(ptr: map<nat, nat>, size: map<nat, nat>, base: nat, bs: seq<Blk>, live: map<nat, nat>, heap: set<nat>,
      brk: nat, hp: nat, n: nat)
    requires Rep(ptr, size, base, bs) && Parted(bs, live, heap) && (forall u :: u in heap ==> base < u < brk)
      && base < brk <= hp
    ensures Rep(ptr, size[hp := n], base, bs)
  {
    var size' := size[hp := n];
    forall i: nat | i <= |bs| ensures Linked(ptr, size', base, bs, i) {
      assert Linked(ptr, size, base, bs, i);
      if i > 0 {
        assert Has(bs[i - 1], bs[i - 1].addr);
        assert UnitOk(bs, live, heap, bs[i - 1].addr);
      }
    }
  }

  /** The headers written when taking a block are in that block, away from the blocks in use. */
  lemma TakenHeaders(ptr: map<nat, nat>, size: map<nat, nat>, base: nat, bs: seq<Blk>, live: map<nat, nat>,
      heap: set<nat>, brk: nat, k: nat, n: nat)
    requires Rep(ptr, size, base, bs) && Parted(bs, live, heap) && (forall u :: u in heap ==> base < u < brk)
    requires k < |bs| && 0 < n <= bs[k].len
    ensures bs[k].addr !in live && Taken(bs[k], n).addr !in live && Taken(bs[k], n).addr > base
  {
    var q := Taken(bs[k], n).addr;
    assert Has(bs[k], bs[k].addr) && Has(bs[k], q);
    assert UnitOk(bs, live, heap, bs[k].addr) && UnitOk(bs, live, heap, q);
    assert q in live ==> Has(Blk(q, live[q]), q);
    assert bs[k].addr in live ==> Has(Blk(bs[k].addr, live[bs[k].addr]), bs[k].addr);
  }

  lemma TakeNode(base: nat, bs: seq<Blk>, k: nat, n: nat)
    requires k < |bs| && n <= bs[k].len
    ensures k <= |Take(bs, k, n)| && Node(base, Take(bs, k, n), k) == Node(base, bs, k)
  {}

  /** The list has the units of one block more. */
  ghost predicate Joined(bs: seq<Blk>, bs': seq<Blk>, b: Blk) {
    forall u: nat :: Covers(bs', u) <==> Covers(bs, u) || Has(b, u)
  }

  lemma RepAt(ptr: map<nat, nat>, size: map<nat, nat>, base: nat, bs: seq<Blk>, k: nat)
    requires Rep(ptr, size, base, bs) && k <= |bs|
    ensures Apart(bs) && Linked(ptr, size, base, bs, k) && Linked(ptr, size, base, bs, NextIx(bs, k))
    ensures |bs| > 0 ==> base < bs[0].addr
    ensures k < |bs| ==> Node(base, bs, k) < bs[k].addr
    ensures Node(base, bs, k) >= base
  {
    if k < |bs| {
      NodesUp(base, bs, k, k + 1);
    }
    if k > 0 {
      NodesUp(base, bs, 0, k);
    }
  }

  /** A block in use is above `base`, and its header is no node of the ring. */
  lemma LiveBlock(ptr: map<nat, nat>, size: map<nat, nat>, base: nat, bs: seq<Blk>, live: map<nat, nat>, heap: set<nat>,
      brk: nat, bp: nat)
    requires Rep(ptr, size, base, bs) && Parted(bs, live, heap) && (forall u :: u in heap ==> base < u < brk)
      && bp in live
    ensures bp > base && live[bp] > 0 && forall i :: 0 <= i < |bs| ==> bs[i].addr != bp
    ensures forall i: nat :: i <= |bs| ==> Node(base, bs, i) != bp
  {
    assert Has(Blk(bp, live[bp]), bp) && UnitOk(bs, live, heap, bp);
    forall i | 0 <= i < |bs| ensures bs[i].addr != bp {
      assert bs[i].addr == bp ==> Has(bs[i], bp);
    }
  }

  lemma LiveFits(bs: seq<Blk>, live: map<nat, nat>, heap: set<nat>, base: nat, bp: nat, k: nat)
    requires Apart(bs) && Parted(bs, live, heap) && bp in live && Place(base, bs, k, bp)
    ensures Fits(bs, k, Blk(bp, live[bp]))
  {
    var b := Blk(bp, live[bp]);
    forall u: nat | Has(b, u) ensures !Covers(bs, u) {
      assert UnitOk(bs, live, heap, u);
    }
    FitsThere(bs, k, b);
  }

  lemma FreeDone(ptr: map<nat, nat>, size: map<nat, nat>, ptr': map<nat, nat>, size': map<nat, nat>,
      base: nat, bs: seq<Blk>, live: map<nat, nat>, heap: set<nat>, brk: nat, bp: nat, k: nat)
      returns (t: nat)
    requires Rep(ptr, size, base, bs) && Parted(bs, live, heap) && (forall u :: u in heap ==> base < u < brk)
      && bp in live
    requires k <= |bs| && Place(base, bs, k, bp) && Relinked(ptr, size, ptr', size', base, bs, k, Blk(bp, live[bp]))
    requires forall b :: b in live ==> b in size && size[b] == live[b]
    ensures var bs', live' := Insert(bs, k, Blk(bp, live[bp])), live - {bp};
      && Rep(ptr', size', base, bs') && Parted(bs', live', heap)
      && k <= |bs'| && Node(base, bs', k) == Node(base, bs, k)
      && t <= |bs'| && NodeLen(bs', t) >= live[bp]
      && (forall b :: b in live' ==> b in size' && size'[b] == live'[b])
      && Joined(bs, bs', Blk(bp, live[bp]))
  {
    var b := Blk(bp, live[bp]);
    var bs', live' := Insert(bs, k, b), live - {bp};
    LiveFits(bs, live, heap, base, bp, k);
    RelinkedRep(ptr, size, ptr', size', base, bs, k, b);
    PartedFree(bs, live, heap, bp, k);
    InsertForm(bs, k, b);
    if Low(bs, k, b) {
      NodesLow(base, bs, k, b, k);
      t := k;
    } else {
      NodesNew(base, bs, k, b, k);
      NodesNew(base, bs, k, b, k + 1);
      t := k + 1;
    }
    forall x | x in live' ensures x in size' && size'[x] == live'[x] {
      LiveBlock(ptr, size, base, bs, live, heap, brk, x);
      assert Node(base, bs, k) != x;
      assert SameHeader(ptr, size, ptr', size', x);
    }
    forall u: nat ensures Covers(bs', u) <==> Covers(bs, u) || Has(b, u) {
      InsertSpec(bs, k, b, u);
    }
  }

  /** The two tests of the search hold exactly at the right place. */
  lemma StopsAt(ptr: map<nat, nat>, size: map<nat, nat>, base: nat, bs: seq<Blk>, t: nat, k: nat, bp: nat)
    requires Rep(ptr, size, base, bs) && k <= |bs| && Place(base, bs, t, bp) && bp > base
    ensures var p := Node(base, bs, k);
      && p in ptr
      && ((bp > p && bp < ptr[p]) || (p >= ptr[p] && (bp > p || bp < ptr[p])) <==> k == t)
  {
    assert Linked(ptr, size, base, bs, k);
    NotNode(base, bs, t, bp, k);
    NotNode(base, bs, t, bp, NextIx(bs, k));
    if k < |bs| {
      NodesUp(base, bs, k, k + 1);
    }
    if k == |bs| && k > 0 {
      NodesUp(base, bs, 0, k);
    }
  }
}
