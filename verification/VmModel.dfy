/**
 A user address space as a value: a two-level page table and the list of free pages, in units of pages.
 Every page has one use at a time: directory, page table, user memory, or free.
 */
module VmModel {
  import opened Seqs

  const NPD: nat := 1024
  const NPT: nat := 1024
  const PGSIZE: nat := 4096
  const KERNBASE: nat := 0x8000_0000
  const USERPAGES: nat := KERNBASE / PGSIZE

  datatype Use = Directory | Table(d: nat) | User(v: nat)

  /** Page numbers, 0 for none. The directory's own page is `root`. */
  datatype Space = Space(root: nat, pgdir: seq<nat>, tables: map<nat, seq<nat>>, free: seq<nat>)

  type Owner = map<nat, Use>

  ghost predicate TableHere(s: Space, d: nat)
    requires d < |s.pgdir|
  {
    s.pgdir[d] != 0 ==> s.pgdir[d] in s.tables && |s.tables[s.pgdir[d]]| == NPT
  }

  ghost predicate Shape(s: Space) {
    |s.pgdir| == NPD && forall d: nat :: d < NPD ==> TableHere(s, d)
  }

  /** The page at user page number `v`. */
  function Entry(s: Space, v: nat): nat
    requires Shape(s) && v < USERPAGES
  {
    assert TableHere(s, v / NPT);
    if s.pgdir[v / NPT] == 0 then 0 else s.tables[s.pgdir[v / NPT]][v % NPT]
  }

  ghost predicate TableOk(s: Space, owner: Owner, d: nat)
    requires Shape(s) && d < NPD
  {
    s.pgdir[d] != 0 ==> s.pgdir[d] in owner && owner[s.pgdir[d]] == Table(d)
  }

  ghost predicate EntryOk(s: Space, owner: Owner, v: nat)
    requires Shape(s) && v < USERPAGES
  {
    Entry(s, v) != 0 ==> Entry(s, v) in owner && owner[Entry(s, v)] == User(v)
  }

  ghost predicate OwnerOk(s: Space, owner: Owner, p: nat)
    requires Shape(s) && p in owner
  {
    && p != 0
    && match owner[p]
       case Directory => p == s.root
       case Table(d) => d < NPD && s.pgdir[d] == p
       case User(v) => v < USERPAGES && Entry(s, v) == p
  }

  ghost predicate FreeOk(s: Space, owner: Owner) {
    NoDup(s.free) && forall p :: p in s.free ==> p != 0 && p !in owner
  }

  /** Each page of the address space has exactly one use, and none of them is free. */
  ghost predicate Sound(s: Space, owner: Owner) {
    && Shape(s) && FreeOk(s, owner)
    && s.root in owner && owner[s.root] == Directory
    && (forall d: nat :: d < NPD ==> TableOk(s, owner, d))
    && (forall v: nat :: v < USERPAGES ==> EntryOk(s, owner, v))
    && (forall p :: p in owner ==> OwnerOk(s, owner, p))
  }

  /** All the pages in question: held by the address space or free. */
  ghost function Pages(s: Space, owner: Owner): set<nat> {
    owner.Keys + Elements(s.free)
  }

  // Unmapping one page

  function SetEntry(s: Space, v: nat, p: nat): Space
    requires Shape(s) && v < USERPAGES && s.pgdir[v / NPT] != 0
  {
    assert TableHere(s, v / NPT);
    var t := s.pgdir[v / NPT];
    var row: seq<nat> := s.tables[t][v % NPT := p];
    s.(tables := s.tables[t := row])
  }

  lemma SamePage(v: nat, w: nat)
    ensures v / NPT == w / NPT && v % NPT == w % NPT ==> v == w
  {}

  lemma SetEntryAt(s: Space, owner: Owner, v: nat, p: nat, w: nat)
    requires Sound(s, owner) && v < USERPAGES && w < USERPAGES && s.pgdir[v / NPT] != 0
    ensures Shape(SetEntry(s, v, p)) && Entry(SetEntry(s, v, p), w) == if w == v then p else Entry(s, w)
  {
    var r := SetEntry(s, v, p);
    forall d: nat | d < NPD ensures TableHere(r, d) {
      assert TableHere(s, d);
    }
    SamePage(v, w);
    assert TableOk(s, owner, v / NPT) && TableOk(s, owner, w / NPT);
    assert TableHere(s, v / NPT) && TableHere(s, w / NPT);
  }

  function Unmap(s: Space, v: nat): Space
    requires Shape(s) && v < USERPAGES && Entry(s, v) != 0
  {
    SetEntry(s, v, 0).(free := [Entry(s, v)] + s.free)
  }

  lemma UnmapAt(s: Space, owner: Owner, v: nat, w: nat)
    requires Sound(s, owner) && v < USERPAGES && w < USERPAGES && Entry(s, v) != 0
    ensures Shape(Unmap(s, v)) && Entry(Unmap(s, v), w) == if w == v then 0 else Entry(s, w)
  {
    SetEntryAt(s, owner, v, 0, w);
    var q, r := SetEntry(s, v, 0), Unmap(s, v);
    forall d: nat | d < NPD ensures TableHere(r, d) {
      assert TableHere(q, d);
    }
  }

  lemma Pushed(q: seq<nat>, p: nat)
    ensures Elements([p] + q) == {p} + Elements(q)
  {
    assert ([p] + q)[1..] == q;
  }

  lemma UnmapSound(s: Space, owner: Owner, v: nat)
    requires Sound(s, owner) && v < USERPAGES && Entry(s, v) != 0
    ensures var p := Entry(s, v);
      && p in owner && owner[p] == User(v)
      && Sound(Unmap(s, v), owner - {p})
      && Pages(Unmap(s, v), owner - {p}) == Pages(s, owner)
  {
    var p := Entry(s, v);
    var r, owner' := Unmap(s, v), owner - {p};
    assert EntryOk(s, owner, v);
    UnmapAt(s, owner, v, v);
    forall d: nat | d < NPD ensures TableOk(r, owner', d) {
      assert TableOk(s, owner, d);
    }
    forall w: nat | w < USERPAGES ensures EntryOk(r, owner', w) {
      UnmapAt(s, owner, v, w);
      assert EntryOk(s, owner, w);
    }
    forall x | x in owner' ensures OwnerOk(r, owner', x) {
      assert OwnerOk(s, owner, x);
      if owner[x].User? {
        UnmapAt(s, owner, v, owner[x].v);
      }
    }
    assert OwnerOk(s, owner, p);
    NoDupExtend(s.free, p);
    Pushed(s.free, p);
  }

  // deallocuvm

  /**
   What deallocuvm does from page `a` up to `n`. Where there is no page table it goes on 1024 pages
   further, which is in the middle of the next table unless `a` is the first page of its own.
   */
  function Dealloc(s: Space, a: nat, n: nat): Space
    requires Shape(s) && n <= USERPAGES
    decreases n - a
  {
    if a >= n then s
    else if s.pgdir[a / NPT] == 0 then Dealloc(s, a + NPT, n)
    else if Entry(s, a) == 0 then Dealloc(s, a + 1, n)
    else
      UnmapShape(s, a);
      Dealloc(Unmap(s, a), a + 1, n)
  }

  lemma UnmapShape(s: Space, v: nat)
    requires Shape(s) && v < USERPAGES && Entry(s, v) != 0
    ensures Shape(Unmap(s, v)) && Unmap(s, v).pgdir == s.pgdir && Unmap(s, v).root == s.root
  {
    var r := Unmap(s, v);
    assert TableHere(s, v / NPT);
    forall d: nat | d < NPD ensures TableHere(r, d) {
      assert TableHere(s, d);
    }
  }

  /** The first page table after directory entry `d`, if any. */
  function NextTable(s: Space, d: nat): (e: nat)
    requires |s.pgdir| == NPD
    ensures d < e
    decreases NPD - d
  {
    if d + 1 < NPD && s.pgdir[d + 1] == 0 then NextTable(s, d + 1) else d + 1
  }

  /** The pages that are jumped over although they have a page table. */
  predicate Missed(s: Space, a: nat, v: nat)
    requires |s.pgdir| == NPD && a < USERPAGES
  {
    s.pgdir[a / NPT] == 0 && v / NPT == NextTable(s, a / NPT) && v % NPT < a % NPT
  }

  lemma NextPage(a: nat)
    ensures (a + 1) % NPT != 0 ==> (a + 1) / NPT == a / NPT
    ensures (a + NPT) / NPT == a / NPT + 1 && (a + NPT) % NPT == a % NPT
  {}

  lemma PageOrder(v: nat, a: nat)
    ensures v / NPT < a / NPT ==> v < a
    ensures v / NPT == a / NPT ==> (v < a <==> v % NPT < a % NPT)
  {}

  /** Exactly the pages from `a` up to `n` that are not missed are unmapped. */
  lemma {:induction false} DeallocAt(s: Space, owner: Owner, a: nat, n: nat, v: nat)
    requires Sound(s, owner) && n <= USERPAGES && v < USERPAGES
    ensures Shape(Dealloc(s, a, n)) && Dealloc(s, a, n).pgdir == s.pgdir && Dealloc(s, a, n).root == s.root
    ensures Entry(Dealloc(s, a, n), v) == if a <= v < n && !Missed(s, a, v) then 0 else Entry(s, v)
    decreases n - a
  {
    hide Sound, Missed, Entry, Unmap;
    SoundShape(s, owner);
    if a >= n {
    } else if s.pgdir[a / NPT] == 0 {
      DeallocAt(s, owner, a + NPT, n, v);
      NextPage(a);
      JumpCases(s, a, n, v);
    } else {
      if Entry(s, a) == 0 {
        DeallocAt(s, owner, a + 1, n, v);
      } else {
        UnmapSound(s, owner, a);
        UnmapAt(s, owner, a, v);
        UnmapShape(s, a);
        StepCases(Unmap(s, a), a, n, v);
        DeallocAt(Unmap(s, a), owner - {Entry(s, a)}, a + 1, n, v);
      }
      StepCases(s, a, n, v);
    }
  }

  lemma SoundShape(s: Space, owner: Owner)
    requires Sound(s, owner)
    ensures Shape(s)
  {}

  lemma JumpCases(s: Space, a: nat, n: nat, v: nat)
    requires Shape(s) && a < n <= USERPAGES && v < USERPAGES && s.pgdir[a / NPT] == 0
    ensures Entry(s, v) != 0 ==>
      (a <= v < n && !Missed(s, a, v) <==> a + NPT <= v < n && !Missed(s, a + NPT, v))
  {
    NextPage(a);
    PageOrder(v, a);
    PageOrder(v, a + NPT);
  }

  lemma StepCases(s: Space, a: nat, n: nat, v: nat)
    requires Shape(s) && a < n <= USERPAGES && v < USERPAGES && s.pgdir[a / NPT] != 0
    ensures !Missed(s, a, v)
    ensures a + 1 < n ==> !Missed(s, a + 1, v)
  {
    NextPage(a);
  }

  /** The whole range is unmapped exactly if nothing is mapped among the pages jumped over. */
  lemma DeallocAll(s: Space, owner: Owner, a: nat, n: nat)
    requires Sound(s, owner) && a < n <= USERPAGES
    ensures Shape(Dealloc(s, a, n))
    ensures (forall v: nat :: a <= v < n ==> Entry(Dealloc(s, a, n), v) == 0)
       <==> (forall v: nat :: a <= v < n && Missed(s, a, v) ==> Entry(s, v) == 0)
  {
    hide Sound, Missed, Entry, Dealloc;
    SoundShape(s, owner);
    DeallocAt(s, owner, a, n, a);
    var r := Dealloc(s, a, n);
    forall v: nat | a <= v < n ensures Entry(r, v) == if Missed(s, a, v) then Entry(s, v) else 0 {
      DeallocAt(s, owner, a, n, v);
    }
  }

  /** It does happen: a page table for pages from 1024 on, none before, and a start at page 1. */
  lemma JumpMisses() returns (s: Space, owner: Owner)
    ensures Sound(s, owner) && Shape(Dealloc(s, 1, 2048)) && Entry(s, 1024) == Entry(Dealloc(s, 1, 2048), 1024) == 9
  {
    var none: seq<nat> := seq(NPD, d => 0);
    s := Space(5, none[1 := 7], map[7 := NoEntries()[0 := 9]], []);
    owner := map[5 := Directory, 7 := Table(1), 9 := User(1024)];
    forall d: nat | d < NPD ensures TableHere(s, d) && (s.pgdir[d] == 0 <==> d != 1) {
    }
    assert Shape(s);
    forall v: nat | v < USERPAGES ensures Entry(s, v) == if v == 1024 then 9 else 0 {
      SamePage(v, 1024);
    }
    forall d: nat | d < NPD ensures TableOk(s, owner, d) {
    }
    forall v: nat | v < USERPAGES ensures EntryOk(s, owner, v) {
    }
    forall p | p in owner ensures OwnerOk(s, owner, p) {
    }
    DeallocAt(s, owner, 1, 2048, 1024);
    assert Missed(s, 1, 1024);
  }

  /** User memory is one stretch of pages from 0 on. */
  ghost predicate UpTo(s: Space, n: nat)
    requires Shape(s)
  {
    forall v: nat :: v < USERPAGES ==> (Entry(s, v) != 0 <==> v < n)
  }

  /** Nothing is missed then. */
  lemma NoneMissed(s: Space, n: nat, a: nat, v: nat)
    requires Shape(s) && UpTo(s, n) && a < USERPAGES && v < USERPAGES && a <= v && Missed(s, a, v)
    ensures Entry(s, v) == 0
  {
    assert Entry(s, a) == 0;
  }

  /** Shrinking a process leaves the stretch of pages up to its new size. */
  lemma DeallocUpTo(s: Space, owner: Owner, k: nat, a: nat, n: nat)
    requires Sound(s, owner) && UpTo(s, k) && a <= k <= n <= USERPAGES
    ensures Shape(Dealloc(s, a, n)) && UpTo(Dealloc(s, a, n), a)
    ensures forall v: nat :: v < a ==> Entry(Dealloc(s, a, n), v) == Entry(s, v)
  {
    hide Sound, Missed, Entry, Dealloc;
    SoundShape(s, owner);
    DeallocAt(s, owner, a, n, 0);
    var r := Dealloc(s, a, n);
    forall v: nat | v < USERPAGES ensures Entry(r, v) == (if v < a then Entry(s, v) else 0) {
      DeallocAt(s, owner, a, n, v);
      if a <= v < n && Missed(s, a, v) {
        NoneMissed(s, k, a, v);
      }
    }
  }

  /** Nothing is missed from page 0 on either, whatever is mapped: freevm starts there. */
  lemma NoneMissedFromZero(s: Space, v: nat)
    requires Shape(s) && v < USERPAGES
    ensures !Missed(s, 0, v)
  {}

  /** Every page unmapped goes to the free list, once, and no other page does. */
  lemma {:induction false} DeallocSound(s: Space, owner: Owner, a: nat, n: nat) returns (owner': Owner)
    requires Sound(s, owner) && n <= USERPAGES
    ensures Sound(Dealloc(s, a, n), owner') && Pages(Dealloc(s, a, n), owner') == Pages(s, owner)
    decreases n - a
  {
    hide Entry, Unmap, Pages, Sound;
    SoundShape(s, owner);
    if a >= n {
      owner' := owner;
    } else if s.pgdir[a / NPT] == 0 {
      owner' := DeallocSound(s, owner, a + NPT, n);
    } else if Entry(s, a) == 0 {
      owner' := DeallocSound(s, owner, a + 1, n);
    } else {
      UnmapSound(s, owner, a);
      owner' := DeallocSound(Unmap(s, a), owner - {Entry(s, a)}, a + 1, n);
    }
  }

  // Allocation

  function NoEntries(): (t: seq<nat>)
    ensures |t| == NPT && forall i :: 0 <= i < NPT ==> t[i] == 0
  {
    seq(NPT, i => 0)
  }

  /** A page that was taken off the free list and has no use yet. */
  ghost predicate Held(s: Space, owner: Owner, p: nat) {
    p != 0 && p !in owner && p !in s.free
  }

  function Pop(s: Space): Space
    requires s.free != []
  {
    s.(free := s.free[1..])
  }

  lemma Popped(q: seq<nat>)
    requires q != [] && NoDup(q)
    ensures NoDup(q[1..]) && q[0] !in q[1..] && Elements(q) == {q[0]} + Elements(q[1..])
    ensures forall x :: x in q[1..] ==> x in q
  {}

  lemma PopFree(s: Space, owner: Owner)
    requires FreeOk(s, owner) && s.free != []
    ensures FreeOk(Pop(s), owner) && Held(Pop(s), owner, s.free[0])
  {
    hide Elements;
    Popped(s.free);
    assert s.free[0] in s.free;
  }

  lemma PopPages(s: Space, owner: Owner)
    requires s.free != [] && s.free[0] !in s.free[1..] && s.free[0] !in owner
    ensures Pages(s, owner) == Pages(Pop(s), owner) + {s.free[0]} && s.free[0] !in Pages(Pop(s), owner)
  {
    ElementsAre(s.free[1..]);
  }

  lemma PopShape(s: Space)
    requires Shape(s) && s.free != []
    ensures Shape(Pop(s)) && forall v: nat :: v < USERPAGES ==> Entry(Pop(s), v) == Entry(s, v)
  {
    var r := Pop(s);
    forall d: nat | d < NPD ensures TableHere(r, d) {
      assert TableHere(s, d);
    }
  }

  lemma PopSound(s: Space, owner: Owner)
    requires Sound(s, owner) && s.free != []
    ensures Sound(Pop(s), owner) && Held(Pop(s), owner, s.free[0])
    ensures Pages(s, owner) == Pages(Pop(s), owner) + {s.free[0]} && s.free[0] !in Pages(Pop(s), owner)
    ensures forall v: nat :: v < USERPAGES ==> Entry(Pop(s), v) == Entry(s, v)
  {
    hide Entry, Pages, FreeOk;
    PopFree(s, owner);
    PopPages(s, owner);
    PopShape(s);
    var r := Pop(s);
    forall d: nat | d < NPD ensures TableOk(r, owner, d) {
      assert TableOk(s, owner, d);
    }
    forall v: nat | v < USERPAGES ensures EntryOk(r, owner, v) {
      assert EntryOk(s, owner, v);
    }
    forall x | x in owner ensures OwnerOk(r, owner, x) {
      assert OwnerOk(s, owner, x);
    }
  }

  /** A new, empty page table in a page held. */
  function AddTable(s: Space, d: nat, p: nat): Space
    requires Shape(s) && d < NPD
  {
    s.(pgdir := s.pgdir[d := p], tables := s.tables[p := NoEntries()])
  }

  lemma AddTableAt(s: Space, owner: Owner, d: nat, p: nat, v: nat)
    requires Sound(s, owner) && d < NPD && s.pgdir[d] == 0 && Held(s, owner, p) && v < USERPAGES
    ensures Shape(AddTable(s, d, p)) && Entry(AddTable(s, d, p), v) == Entry(s, v)
  {
    var r := AddTable(s, d, p);
    forall e: nat | e < NPD ensures TableHere(r, e) {
      assert TableHere(s, e) && TableOk(s, owner, e);
    }
    assert TableHere(s, v / NPT) && TableOk(s, owner, v / NPT);
  }

  lemma AddTableSound(s: Space, owner: Owner, d: nat, p: nat)
    requires Sound(s, owner) && d < NPD && s.pgdir[d] == 0 && Held(s, owner, p)
    ensures Sound(AddTable(s, d, p), owner[p := Table(d)])
    ensures Pages(AddTable(s, d, p), owner[p := Table(d)]) == Pages(s, owner) + {p}
  {
    var r, owner' := AddTable(s, d, p), owner[p := Table(d)];
    AddTableAt(s, owner, d, p, 0);
    forall e: nat | e < NPD ensures TableOk(r, owner', e) {
      assert TableOk(s, owner, e);
    }
    forall v: nat | v < USERPAGES ensures EntryOk(r, owner', v) {
      AddTableAt(s, owner, d, p, v);
      assert EntryOk(s, owner, v);
    }
    forall x | x in owner' ensures OwnerOk(r, owner', x) {
      if x != p {
        assert OwnerOk(s, owner, x);
        if owner[x].User? {
          AddTableAt(s, owner, d, p, owner[x].v);
        }
      }
    }
  }

  /** A page held goes into an empty entry. */
  lemma MapSound(s: Space, owner: Owner, v: nat, p: nat)
    requires Sound(s, owner) && v < USERPAGES && s.pgdir[v / NPT] != 0 && Held(s, owner, p) && Entry(s, v) == 0
    ensures Sound(SetEntry(s, v, p), owner[p := User(v)])
    ensures Pages(SetEntry(s, v, p), owner[p := User(v)]) == Pages(s, owner) + {p}
  {
    var r, owner' := SetEntry(s, v, p), owner[p := User(v)];
    SetEntryAt(s, owner, v, p, v);
    forall d: nat | d < NPD ensures TableOk(r, owner', d) {
      assert TableOk(s, owner, d);
    }
    forall w: nat | w < USERPAGES ensures EntryOk(r, owner', w) {
      SetEntryAt(s, owner, v, p, w);
      assert EntryOk(s, owner, w);
    }
    forall x | x in owner' ensures OwnerOk(r, owner', x) {
      if x != p {
        assert OwnerOk(s, owner, x);
        if owner[x].User? {
          SetEntryAt(s, owner, v, p, owner[x].v);
        }
      }
    }
  }

  // How many pages growing takes

  /** The page is the first of the new ones to need its page table. */
  predicate NeedsTable(s: Space, a: nat, v: nat)
    requires |s.pgdir| == NPD && v < USERPAGES
  {
    s.pgdir[v / NPT] == 0 && (v == a || v % NPT == 0)
  }

  /** Calls of kalloc for the pages from `a` up to `v`, page tables included. */
  function Need(s: Space, a: nat, v: nat): nat
    requires |s.pgdir| == NPD && v <= USERPAGES
  {
    if v <= a then 0 else Need(s, a, v - 1) + 1 + (if NeedsTable(s, a, v - 1) then 1 else 0)
  }

  lemma {:induction false} NeedUp(s: Space, a: nat, v: nat, w: nat)
    requires |s.pgdir| == NPD && a <= v < w <= USERPAGES
    ensures Need(s, a, v) < Need(s, a, w)
    ensures Need(s, a, v + 1) <= Need(s, a, w)
  {
    if v + 1 < w {
      NeedUp(s, a, v, w - 1);
    }
  }

  /** Of the tables for pages from `a` up to `v` none is missing; the others are missing as before. */
  ghost predicate TablesTo(s: Space, r: Space, a: nat, v: nat) {
    && |s.pgdir| == |r.pgdir| == NPD
    && forall d: nat :: d < NPD ==> (r.pgdir[d] == 0 <==> s.pgdir[d] == 0 && !(a < v && a / NPT <= d <= (v - 1) / NPT))
  }

  lemma TableMissing(s: Space, r: Space, a: nat, v: nat)
    requires TablesTo(s, r, a, v) && a <= v < USERPAGES
    ensures r.pgdir[v / NPT] == 0 <==> NeedsTable(s, a, v)
  {
    if v > a && v % NPT != 0 {
      NextPage(v - 1);
    }
    PageOrder(a, v);
    if v > a && v % NPT == 0 {
      PageBefore(v);
    }
  }

  lemma PageBefore(v: nat)
    requires v > 0 && v % NPT == 0
    ensures (v - 1) / NPT < v / NPT
  {}

  lemma TablesNext(s: Space, r: Space, q: Space, a: nat, v: nat)
    requires TablesTo(s, r, a, v) && a <= v < USERPAGES && |q.pgdir| == NPD && q.pgdir[v / NPT] != 0
    requires forall d: nat :: d < NPD && d != v / NPT ==> q.pgdir[d] == r.pgdir[d]
    ensures TablesTo(s, q, a, v + 1)
  {
    if v > a {
      if v % NPT == 0 {
        PageBefore(v);
        OneDirection(v);
      } else {
        NextPage(v - 1);
      }
    }
    DirOrder(a, v);
  }

  lemma DirOrder(a: nat, v: nat)
    requires a <= v
    ensures a / NPT <= v / NPT
  {}

  lemma OneDirection(v: nat)
    requires v > 0 && v % NPT == 0
    ensures (v - 1) / NPT == v / NPT - 1
  {}

  // freevm

  /** The page tables of the first `i` directory entries. */
  ghost function TablesBelow(pgdir: seq<nat>, i: nat): set<nat>
    requires i <= |pgdir|
  {
    if i == 0 then {} else TablesBelow(pgdir, i - 1) + (if pgdir[i - 1] == 0 then {} else {pgdir[i - 1]})
  }

  lemma {:induction false} TablesBelowAre(s: Space, owner: Owner, i: nat, p: nat)
    requires Sound(s, owner) && i <= NPD
    ensures p in TablesBelow(s.pgdir, i) <==> p in owner && owner[p].Table? && owner[p].d < i
  {
    if i > 0 {
      TablesBelowAre(s, owner, i - 1, p);
      assert TableOk(s, owner, i - 1);
      if p in owner {
        assert OwnerOk(s, owner, p);
      }
    }
  }

  /** A page table that has not been freed yet is not on the free list. */
  lemma TableNotFree(s: Space, owner: Owner, i: nat)
    requires Sound(s, owner) && i < NPD && s.pgdir[i] != 0
    ensures s.pgdir[i] !in TablesBelow(s.pgdir, i) && s.pgdir[i] !in s.free && s.pgdir[i] in owner
  {
    assert TableOk(s, owner, i);
    TablesBelowAre(s, owner, i, s.pgdir[i]);
  }

  /** Without user pages, an address space is its directory and its page tables. */
  lemma OnlyTables(s: Space, owner: Owner)
    requires Sound(s, owner) && forall v: nat :: v < USERPAGES ==> Entry(s, v) == 0
    ensures owner.Keys == TablesBelow(s.pgdir, NPD) + {s.root}
    ensures s.root !in TablesBelow(s.pgdir, NPD) && s.root !in s.free
  {
    forall p ensures p in owner <==> p in TablesBelow(s.pgdir, NPD) + {s.root} {
      TablesBelowAre(s, owner, NPD, p);
      if p in owner {
        assert OwnerOk(s, owner, p);
      }
    }
    TablesBelowAre(s, owner, NPD, s.root);
  }
}
