/**
 vm.c and kalloc.c in their own form, for one address space: page tables and the free list are changed
 in place.
 */
module Vm {
  import opened Seqs
  import opened VmModel

  /** PGROUNDUP, in pages. */
  function PagesFor(sz: nat): nat {
    (sz + PGSIZE - 1) / PGSIZE
  }

  /** What is in a page. */
  type Page = seq<int>

  /** What kfree fills a page with, and memset a new one. */
  function Junk(): Page {
    seq(PGSIZE, i => 1)
  }

  function ZeroPage(): Page {
    seq(PGSIZE, i => 0)
  }

  /** Pages outside of `s` hold what they held. */
  ghost predicate SameBut(c: map<nat, Page>, c': map<nat, Page>, s: set<nat>) {
    forall p :: p !in s ==> (p in c' <==> p in c) && (p in c ==> c'[p] == c[p])
  }

  lemma SameButRefl(c: map<nat, Page>, s: set<nat>)
    ensures SameBut(c, c, s)
  {}

  lemma SameButSet(c: map<nat, Page>, c': map<nat, Page>, s: set<nat>, p: nat, x: Page)
    requires SameBut(c, c', s) && p in s
    ensures SameBut(c, c'[p := x], s)
  {}

  lemma SameButTrans(a: map<nat, Page>, b: map<nat, Page>, c: map<nat, Page>, s: set<nat>)
    requires SameBut(a, b, s) && SameBut(b, c, s)
    ensures SameBut(a, c, s)
  {}

  /** The pages in question, those lost, and what the pages hold. */
  datatype Stock = Stock(pages: set<nat>, lost: set<nat>, content: map<nat, Page>)

  /** No page comes or goes but by being lost, and other pages hold what they held. */
  ghost predicate Tame(a: Stock, b: Stock) {
    b.pages + b.lost == a.pages + a.lost && b.pages <= a.pages && SameBut(a.content, b.content, a.pages)
  }

  lemma TameRefl(a: Stock)
    ensures Tame(a, a)
  {}

  lemma TameKept(a: Stock, b: Stock)
    requires b.pages == a.pages && b.lost == a.lost && SameBut(a.content, b.content, a.pages)
    ensures Tame(a, b)
  {}

  lemma TameTrans(a: Stock, b: Stock, c: Stock)
    requires Tame(a, b) && Tame(b, c)
    ensures Tame(a, c)
  {}

  datatype Outcome = Mapped | NoPage | NoTable

  /** The free list as kalloc.c keeps it: each free page holds the number of the next one. */
  ghost predicate Chain(next: map<nat, nat>, head: nat, q: seq<nat>)
    decreases |q|
  {
    if q == [] then head == 0 else head == q[0] != 0 && head in next && Chain(next, next[head], q[1..])
  }

  lemma {:induction false} ChainKept(next: map<nat, nat>, head: nat, q: seq<nat>, p: nat, x: nat)
    requires Chain(next, head, q) && p !in q
    ensures Chain(next[p := x], head, q)
    decreases |q|
  {
    if q != [] {
      ChainKept(next, next[head], q[1..], p, x);
    }
  }

  class AddressSpace {
    const root: nat
    const lo: nat
    const hi: nat
    var pgdir: seq<nat>
    var tables: map<nat, seq<nat>>
    var freelist: nat
    var next: map<nat, nat>
    var panicked: bool
    var content: map<nat, Page>

    /** The pages on the free list, in its order. */
    ghost var free: seq<nat>

    ghost var owner: Owner

    /** Pages taken from the free list and then forgotten. */
    ghost var lost: set<nat>

    ghost function View(): Space
      reads this
    {
      Space(root, pgdir, tables, free)
    }

    ghost function Stocks(): Stock
      reads this
    {
      Stock(Pages(View(), owner), lost, content)
    }

    /** Pages have one use each, and are pages that kfree accepts. */
    ghost predicate Valid()
      reads this
    {
      && Sound(View(), owner) && Chain(next, freelist, free) && !panicked && 0 < lo && lost !! Pages(View(), owner)
      && forall p :: p in Pages(View(), owner) ==> lo <= p < hi
    }

    // kalloc.c

    /** kinit and setupkvm without the kernel's own mappings: all pages of a range free but one, the directory. */
    constructor (lo: nat, hi: nat)
      requires 0 < lo < hi
      ensures this.lo == lo && this.hi == hi && Valid() && UpTo(View(), 0) && lost == {}
      ensures pgdir == NoEntries() && |free| == hi - lo - 1
      ensures forall p :: p in Pages(View(), owner) <==> lo <= p < hi
    {
      this.lo, this.hi, root := lo, hi, hi - 1;
      pgdir, tables, panicked := NoEntries(), map[], false;
      freelist, next, free, content := 0, map[], [], map[];
      owner, lost := map[(hi - 1) as nat := Directory], {};
      new;
      hide Sound, Pages, UpTo, NoDup, Chain;
      assert Chain(next, freelist, free) && NoDup(free);
      FreeRange();
      Taken(free);
      var _ := Kalloc();
      FreshSound(View(), owner, lo, hi);
    }

    /** freerange, over the pages that kfree accepts. */
    method FreeRange()
      requires 0 < lo <= hi && !panicked && free == [] && Chain(next, freelist, free)
      modifies this`freelist, this`next, this`free, this`panicked, this`content
      ensures !panicked && |free| == hi - lo && NoDup(free) && Chain(next, freelist, free)
      ensures forall x :: x in free <==> lo <= x < hi
      ensures lo < hi ==> free[0] == hi - 1
    {
      hide Chain, NoDup;
      assert NoDup(free) by {
        EmptyNoDup();
      }
      var p := lo;
      while p < hi
        invariant lo <= p <= hi && !panicked && |free| == p - lo && NoDup(free) && Chain(next, freelist, free)
        invariant forall x :: x in free <==> lo <= x < p
        invariant p > lo ==> free[0] == p - 1
      {
        NoDupExtend(free, p);
        Kfree(p * PGSIZE);
        p := p + 1;
      }
    }

    /** Free the page at address `v`, or panic if it is no page that kalloc could have given out. */
    method Kfree(v: nat)
      requires Chain(next, freelist, free) && v / PGSIZE !in free && 0 < lo
      modifies this`freelist, this`next, this`free, this`panicked, this`content
      ensures Chain(next, freelist, free)
      ensures panicked <==> old(panicked) || !Freeable(v)
      ensures free == if Freeable(v) then [v / PGSIZE] + old(free) else old(free)
      ensures content == if Freeable(v) then old(content)[v / PGSIZE := Junk()] else old(content)
      ensures Freeable(v) ==>
        |content[v / PGSIZE]| == PGSIZE && forall i :: 0 <= i < PGSIZE ==> content[v / PGSIZE][i] == 1
    {
      if v % PGSIZE != 0 || v / PGSIZE < lo || v / PGSIZE >= hi {
        panicked := true;
        return;
      }
      var p := v / PGSIZE;
      ChainKept(next, freelist, free, p, freelist);
      content := content[p := Junk()];
      next := next[p := freelist];
      freelist := p;
      free := [p] + free;
      assert free[1..] == old(free);
    }

    predicate Freeable(v: nat) {
      v % PGSIZE == 0 && lo <= v / PGSIZE < hi
    }

    method Kalloc() returns (p: nat)
      requires Chain(next, freelist, free)
      modifies this`freelist, this`free
      ensures Chain(next, freelist, free)
      ensures old(free) == [] ==> p == 0 && free == []
      ensures old(free) != [] ==> p != 0 && old(free) == [p] + free
    {
      p := freelist;
      if p != 0 {
        freelist := next[p];
        free := free[1..];
      }
    }

    // deallocuvm: vm.c:249-273

    /** One page of the loop. */
    method UnmapPage(v: nat)
      requires Valid() && v < USERPAGES && pgdir[v / NPT] != 0
      modifies this`tables, this`freelist, this`next, this`free, this`panicked, this`content, this`owner
      ensures Valid() && Pages(View(), owner) == old(Pages(View(), owner))
      ensures View() == if Entry(old(View()), v) == 0 then old(View()) else Unmap(old(View()), v)
      ensures SameBut(old(content), content, old(Pages(View(), owner)))
      ensures Still(old(View()), old(content), View(), content)
    {
      hide Sound, Pages, Chain, SameBut, Still;
      SameButRefl(content, Pages(View(), owner));
      SoundShape(View(), owner);
      StillRefl(View(), content);
      assert TableHere(View(), v / NPT);
      ghost var s := View();
      var t := pgdir[v / NPT];
      if tables[t][v % NPT] != 0 {
        UnmapSound(s, owner, v);
        var pa := tables[t][v % NPT];
        InPages(s, owner, pa);
        NotFree(s, owner, pa);
        SameButSet(content, content, Pages(s, owner), pa, Junk());
        StillUnmap(s, owner, v, content, Junk());
        Kfree(pa * PGSIZE);
        var row: seq<nat> := tables[t][v % NPT := 0];
        tables := tables[t := row];
        owner := owner - {pa};
        assert View() == Unmap(s, v);
      }
    }

    /**
     Unmap the pages of a range, with a jump of 4 MB where there is no page table. Each page unmapped is
     on the free list, once; what exactly is unmapped, DeallocAt says.
     */
    method DeallocUvm(oldsz: nat, newsz: nat) returns (r: nat)
      requires Valid() && oldsz <= KERNBASE
      modifies this`tables, this`freelist, this`next, this`free, this`panicked, this`content, this`owner
      ensures Valid() && Pages(View(), owner) == old(Pages(View(), owner))
      ensures newsz >= oldsz ==> r == oldsz && View() == old(View()) && owner == old(owner)
      ensures newsz < oldsz ==> r == newsz && View() == Dealloc(old(View()), PagesFor(newsz), PagesFor(oldsz))
      ensures SameBut(old(content), content, old(Pages(View(), owner)))
      ensures Still(old(View()), old(content), View(), content)
    {
      hide Sound, Pages, Entry, Dealloc, Chain, SameBut, Still;
      SameButRefl(content, Pages(View(), owner));
      SoundShape(View(), owner);
      StillRefl(View(), content);
      if newsz >= oldsz {
        return oldsz;
      }
      ghost var s, n := View(), PagesFor(oldsz);
      var a := PagesFor(newsz) * PGSIZE;
      ghost var v := PagesFor(newsz);
      while a < oldsz
        invariant a == v * PGSIZE
        invariant Valid() && Shape(View()) && pgdir == s.pgdir && Pages(View(), owner) == Pages(s, old(owner))
        invariant Dealloc(View(), v, n) == Dealloc(s, PagesFor(newsz), n)
        invariant SameBut(old(content), content, Pages(s, old(owner))) && Still(s, old(content), View(), content)
        decreases oldsz - a
      {
        InRange(a, v, oldsz);
        DeallocStep(View(), v, n);
        if pgdir[a / PGSIZE / NPT] == 0 {
          a := a + (NPT - 1) * PGSIZE;
          v := v + NPT - 1;
        } else {
          ghost var r0, c := View(), content;
          UnmapPage(a / PGSIZE);
          SameButTrans(old(content), c, content, Pages(s, old(owner)));
          StillTrans(s, old(content), r0, c, View(), content);
          SoundShape(View(), owner);
        }
        a := a + PGSIZE;
        v := v + 1;
      }
      InRange(a, v, oldsz);
      DeallocDone(View(), v, n);
      r := newsz;
    }

    // allocuvm: vm.c:220-243, with walkpgdir and mappages

    /** mappages for one page, with the page table that walkpgdir may have to add; fails if there is none to be had. */
    method MapPage(v: nat, mem: nat) returns (ok: bool)
      requires Valid() && v < USERPAGES && Entry(View(), v) == 0
      requires Held(View(), owner, mem) && mem !in lost && lo <= mem < hi
      modifies this`pgdir, this`tables, this`freelist, this`free, this`panicked, this`owner
      ensures Valid() && (ok <==> old(pgdir)[v / NPT] != 0 || old(free) != [])
      ensures !ok ==> View() == old(View()) && owner == old(owner)
      ensures ok ==> Pages(View(), owner) == old(Pages(View(), owner)) + {mem} && MappedAs(old(View()), View(), v, mem)
    {
      hide Sound, Pages, Entry, Held, MappedAs, Chain;
      ghost var s, own := View(), owner;
      SoundShape(s, owner);
      SameRefl(s);
      HeldIs(s, own, mem);
      if pgdir[v / NPT] == 0 {
        if free != [] {
          PopSound(s, owner);
          FirstFree(s, owner);
        }
        var pt := Kalloc();
        if pt == 0 {
          return false;
        }
        assert View() == Pop(s);
        AddTableSound(View(), owner, v / NPT, pt);
        HeldStill(s, owner, mem, v / NPT);
        ghost var s2 := View();
        tables := tables[pt := NoEntries()];
        pgdir := pgdir[v / NPT := pt];
        owner := owner[pt := Table(v / NPT)];
        assert View() == AddTable(s2, v / NPT, pt);
        AddTableEntries(s2, own, v / NPT, pt);
      }
      ghost var s3 := View();
      SoundShape(s3, owner);
      EntryIs(s3, v);
      MapSound(s3, owner, v, mem);
      MappedPage(s, s3, owner, v, mem);
      var t := pgdir[v / NPT];
      panicked := panicked || tables[t][v % NPT] != 0;
      var row: seq<nat> := tables[t][v % NPT := mem];
      tables := tables[t := row];
      owner := owner[mem := User(v)];
      assert View() == SetEntry(s3, v, mem);
      ok := true;
    }

    /** One page of a loop: kalloc, its contents, and mappages. */
    method AllocPage(v: nat, fill: Page) returns (o: Outcome)
      requires Valid() && v < USERPAGES && Entry(View(), v) == 0
      modifies this`pgdir, this`tables, this`freelist, this`free, this`panicked, this`content, this`owner, this`lost
      ensures Valid() && Tame(old(Stocks()), Stocks())
      ensures o == if old(free) == [] then NoPage else if |old(free)| == 1 && old(pgdir)[v / NPT] == 0 then NoTable
        else Mapped
      ensures o == NoPage ==> View() == old(View()) && owner == old(owner) && lost == old(lost)
      ensures o == NoTable ==> View() == Pop(old(View())) && owner == old(owner) && lost == old(lost) + {old(free)[0]}
      ensures o == Mapped ==>
        && lost == old(lost) && MappedOne(old(View()), View(), v)
        && Entry(View(), v) == old(free)[0]
      ensures content == if o == NoPage then old(content) else old(content)[old(free)[0] := fill]
    {
      hide Sound, Pages, Entry, Held, MappedOne, MappedAs, Chain, SameBut;
      ghost var s := View();
      SoundShape(s, owner);
      SameButRefl(content, Pages(s, owner));
      if free != [] {
        PopSound(s, owner);
        FirstFree(s, owner);
      }
      var mem := Kalloc();
      if mem == 0 {
        return NoPage;
      }
      assert View() == Pop(s);
      SoundShape(Pop(s), owner);
      SameButSet(content, content, Pages(s, owner), mem, fill);
      content := content[mem := fill];
      var ok := MapPage(v, mem);
      if !ok {
        lost := lost + {mem};
        return NoTable;
      }
      MappedPop(s, View(), v, mem);
      o := Mapped;
    }

    /**
     Grow the user memory. With enough pages it ends up as the stretch up to the new size, and what is new
     is all zero. What was there before stays as it was, whatever happens. Otherwise let
     `at` be the first page that kalloc fails for. If it fails for the page itself, user memory is as it was and
     no page is lost. If it fails for the page table, the page taken before is lost; and if `at` was the last
     page, success is reported all the same.
     */
    method AllocUvm(oldsz: nat, newsz: nat) returns (r: nat, ghost at: nat)
      requires Valid() && UpTo(View(), PagesFor(oldsz)) && oldsz <= KERNBASE
      modifies this`pgdir, this`tables, this`freelist, this`next, this`free, this`panicked, this`content, this`owner,
        this`lost
      ensures Valid() && Tame(old(Stocks()), Stocks())
      ensures newsz >= KERNBASE ==> r == 0 && View() == old(View()) && lost == old(lost) && content == old(content)
      ensures newsz < KERNBASE && newsz < oldsz ==>
        r == oldsz && View() == old(View()) && lost == old(lost) && content == old(content)
      ensures oldsz <= newsz < KERNBASE ==>
        var a, n := PagesFor(oldsz), PagesFor(newsz);
        var have := |old(free)|;
        && n <= USERPAGES && KeptBelow(old(View()), old(content), View(), content, a)
        && if have >= Need(old(View()), a, n) then
             && r == newsz && UpTo(View(), n) && lost == old(lost) && |free| == have - Need(old(View()), a, n)
             && Zeroed(View(), content, a, n)
           else
             && a <= at < n
             && if have == Need(old(View()), a, at) then
                  r == 0 && UpTo(View(), a) && lost == old(lost)
                else
                  && have == Need(old(View()), a, at) + 1 && NeedsTable(old(View()), a, at)
                  && |lost - old(lost)| == 1 && old(lost) <= lost
                  && (if at + 1 == n then r == newsz && UpTo(View(), at) && Zeroed(View(), content, a, at)
                      else r == 0 && UpTo(View(), a))
    {
      hide Tame, SameBut, Sound, Pages, Entry, UpTo, Growing, SameBelow, Dealloc, Need, NeedsTable, MappedOne, Chain,
        RanShort, KeptBelow, Zeroed, Still;
      at := 0;
      ghost var s, a0 := View(), PagesFor(oldsz);
      SoundShape(s, owner);
      TameRefl(Stocks());
      if newsz >= KERNBASE {
        return 0, 0;
      }
      if newsz < oldsz {
        return oldsz, 0;
      }
      ghost var n := PagesFor(newsz);
      Order(oldsz, newsz);
      GrowStart(s, a0);
      KeptStart(s, content, a0);
      var a := PagesFor(oldsz) * PGSIZE;
      ghost var v := a0;
      ghost var short := false;
      while a < newsz
        invariant a == v * PGSIZE && a0 <= v <= n
        invariant Valid() && Shape(View()) && Tame(old(Stocks()), Stocks())
        invariant SameBelow(s, View(), a0) && KeptBelow(s, old(content), View(), content, a0)
        invariant a0 <= at || !short
        invariant Zeroed(View(), content, a0, if short then at else v)
        invariant !short ==> Growing(s, View(), a0, v) && lost == old(lost)
        invariant short ==> v == at + 1 && RanShort(s, View(), a0, at, n, old(lost), lost)
        decreases newsz - a
      {
        InRange(a, v, newsz);
        ghost var r0, own := View(), owner;
        SoundShape(r0, owner);
        if short {
          RanShortIs(s, r0, a0, at, n, old(lost), lost);
          Unmapped(r0, at, v);
        } else {
          GrowingIs(s, r0, a0, v);
          Unmapped(r0, v, v);
          if free != [] {
            FirstFree(r0, owner);
          }
        }
        ghost var stock := Stocks();
        var o := AllocPage(a / PGSIZE, ZeroPage());
        TameTrans(old(Stocks()), stock, Stocks());
        if o == NoPage {
          at := if short then at else v;
          OutOfPages(s, a0, at, n);
          stock := Stocks();
          r := DeallocUvm(newsz, oldsz);
          TameKept(stock, Stocks());
          TameTrans(old(Stocks()), stock, Stocks());
          Restored(s, r0, own, a0, at, n);
          KeptRestored(s, old(content), r0, stock.content, View(), content, a0);
          return 0, at;
        }
        if o == NoTable {
          ShortNow(s, r0, own, a0, v, n, old(lost));
          PopEntries(r0, v);
          short, at := true, v;
        } else {
          GrowingNext(s, r0, View(), a0, v);
          MappedEntries(r0, View(), v);
        }
        Filled(s, old(content), r0, own, View(), stock.content, a0, v, ZeroPage());
        if o == Mapped {
          ZeroedNext(View(), content, a0, v);
        }
        SoundShape(View(), owner);
        a := a + PGSIZE;
        v := v + 1;
      }
      InRange(a, v, newsz);
      if short {
        RanShortIs(s, View(), a0, at, n, old(lost), lost);
        OutOfPages(s, a0, at, n);
      } else {
        GrowingDone(s, View(), a0, n);
      }
      r := newsz;
    }

    // copyuvm: vm.c:310-342

    /**
     Copy the memory of a parent into a new address space. With enough pages the child has, for each page of
     the parent, a page of its own with the same contents. Otherwise let `at` be the first page that kalloc fails
     for: everything goes back to the free list, except that if it failed for the page table, the page that
     was to be mapped is lost. What other pages hold does not change.
     */
    method CopyUvm(parent: Space, sz: nat) returns (ok: bool, ghost at: nat)
      requires Valid() && UpTo(View(), 0) && sz <= KERNBASE && Backs(parent, PagesFor(sz), Stocks())
      modifies this`pgdir, this`tables, this`freelist, this`next, this`free, this`panicked, this`content, this`owner,
        this`lost
      ensures PagesFor(sz) <= USERPAGES && !panicked
      ensures ok <==> |old(free)| >= Need(old(View()), 0, PagesFor(sz))
      ensures ok ==>
        && Valid() && Tame(old(Stocks()), Stocks()) && UpTo(View(), PagesFor(sz)) && lost == old(lost)
        && Copies(View(), content, parent, old(content), PagesFor(sz))
        && forall v: nat, w: nat :: v < PagesFor(sz) && w < PagesFor(sz) ==> Entry(View(), v) != Entry(parent, w)
      ensures !ok ==>
        && at < PagesFor(sz) && NoDup(free) && Chain(next, freelist, free)
        && Tame(old(Stocks()), Stock(Elements(free), lost, content))
        && if |old(free)| == Need(old(View()), 0, at) then lost == old(lost)
           else && |old(free)| == Need(old(View()), 0, at) + 1 && NeedsTable(old(View()), 0, at)
                && old(lost) <= lost && |lost - old(lost)| == 1
    {
      hide Tame, SameBut, Sound, Pages, Entry, UpTo, Growing, SameBelow, Dealloc, Need, NeedsTable, MappedOne, Chain,
        Backs, Copies, Elements;
      at := 0;
      ghost var s, n := View(), PagesFor(sz);
      SoundShape(s, owner);
      GrowStart(s, 0);
      TameRefl(Stocks());
      BacksShape(parent, n, Stocks());
      CopiesNone(s, content, parent, content);
      var i := 0;
      ghost var v := 0;
      while i < sz
        invariant i == v * PGSIZE && 0 <= v <= n <= USERPAGES
        invariant Valid() && Shape(View()) && Tame(old(Stocks()), Stocks()) && lost == old(lost)
        invariant Growing(s, View(), 0, v) && Copies(View(), content, parent, old(content), v)
        decreases sz - i
      {
        InRange(i, v, sz);
        ghost var r0, own, stock := View(), owner, Stocks();
        SoundShape(r0, owner);
        GrowingIs(s, r0, 0, v);
        Unmapped(r0, v, v);
        Original(parent, n, old(Stocks()), stock, v);
        var pa := Entry(parent, i / PGSIZE);
        panicked := panicked || pa == 0;
        var o := AllocPage(i / PGSIZE, content[pa]);
        TameTrans(old(Stocks()), stock, Stocks());
        if o != Mapped {
          at := v;
          OutOfPages(s, 0, v, n);
          stock := Stocks();
          if o == NoTable {
            FirstFree(r0, own);
            assert lost - old(lost) == {r0.free[0]};
          }
          FreeVm();
          TameKept(stock, Stock(Elements(free), lost, content));
          TameTrans(old(Stocks()), stock, Stock(Elements(free), lost, content));
          return false, at;
        }
        GrowingNext(s, r0, View(), 0, v);
        CopiesNext(r0, own, View(), stock.content, parent, old(content), v);
        SoundShape(View(), owner);
        i := i + PGSIZE;
        v := v + 1;
      }
      InRange(i, v, sz);
      GrowingDone(s, View(), 0, n);
      AllOwnPages(View(), owner, parent, n, old(Stocks()), Stocks());
      ok := true;
    }

    // freevm: vm.c:277-292

    /** Every page of the address space goes back to the free list, each exactly once. */
    method FreeVm()
      requires Valid()
      modifies this`tables, this`freelist, this`next, this`free, this`panicked, this`content, this`owner
      ensures !panicked && NoDup(free) && Elements(free) == old(Pages(View(), owner)) && Chain(next, freelist, free)
      ensures SameBut(old(content), content, old(Pages(View(), owner)))
    {
      hide Sound, Entry, Dealloc, Elements, Chain, SameBut;
      ghost var s0, own0 := View(), owner;
      var _ := DeallocUvm(KERNBASE, 0);
      ghost var s := View();
      SoundShape(s, owner);
      AllUnmapped(s0, own0, s);
      OnlyTables(s, owner);
      FreeIs(s, owner);
      var i := 0;
      while i < NPD
        invariant 0 <= i <= NPD && pgdir == s.pgdir && !panicked && Chain(next, freelist, free)
        invariant NoDup(free) && Elements(free) == Elements(s.free) + TablesBelow(s.pgdir, i)
        invariant SameBut(old(content), content, Pages(s0, own0))
        modifies this`freelist, this`next, this`free, this`panicked, this`content
      {
        if pgdir[i] != 0 {
          TableNotFree(s, owner, i);
          NotListed(s.free, free, TablesBelow(s.pgdir, i), pgdir[i]);
          NoDupExtend(free, pgdir[i]);
          Pushed(free, pgdir[i]);
          TableInPages(s, owner, i);
          SameButSet(old(content), content, Pages(s0, own0), pgdir[i], Junk());
          Kfree(pgdir[i] * PGSIZE);
        }
        i := i + 1;
      }
      NotListed(s.free, free, TablesBelow(s.pgdir, NPD), root);
      NoDupExtend(free, root);
      Pushed(free, root);
      SameButSet(old(content), content, Pages(s0, own0), root, Junk());
      Kfree(root * PGSIZE);
    }
  }

  // copyuvm

  /** The first `n` pages of an address space are there, and are none of these. */
  ghost predicate Backs(p: Space, n: nat, k: Stock) {
    && Shape(p) && n <= USERPAGES
    && forall w: nat :: w < n ==> Entry(p, w) != 0 && Entry(p, w) !in k.pages && Entry(p, w) in k.content
  }

  /** The first `n` pages of `r` hold what those of `p` held. */
  ghost predicate Copies(r: Space, c: map<nat, Page>, p: Space, c0: map<nat, Page>, n: nat) {
    && Shape(r) && Shape(p) && n <= USERPAGES
    && forall w: nat :: w < n ==> CopyAt(r, c, p, c0, w)
  }

  ghost predicate CopyAt(r: Space, c: map<nat, Page>, p: Space, c0: map<nat, Page>, w: nat)
    requires Shape(r) && Shape(p) && w < USERPAGES
  {
    Entry(r, w) in c && Entry(p, w) in c0 && c[Entry(r, w)] == c0[Entry(p, w)]
  }

  lemma CopiesNone(r: Space, c: map<nat, Page>, p: Space, c0: map<nat, Page>)
    requires Shape(r) && Shape(p)
    ensures Copies(r, c, p, c0, 0)
  {}

  /** What is to be copied is still there. */
  lemma Original(p: Space, n: nat, a: Stock, b: Stock, v: nat)
    requires Backs(p, n, a) && Tame(a, b) && v < n
    ensures Entry(p, v) != 0 && Entry(p, v) in a.content && Entry(p, v) in b.content
      && b.content[Entry(p, v)] == a.content[Entry(p, v)]
  {}

  lemma CopiesNext(s: Space, owner: Owner, r: Space, c: map<nat, Page>, p: Space, c0: map<nat, Page>, v: nat)
    requires Sound(s, owner) && s.free != [] && v < USERPAGES && Copies(s, c, p, c0, v) && UpTo(s, v)
    requires MappedOne(s, r, v) && Entry(r, v) == s.free[0] && Entry(p, v) in c0
    ensures Copies(r, c[s.free[0] := c0[Entry(p, v)]], p, c0, v + 1)
  {
    var c' := c[s.free[0] := c0[Entry(p, v)]];
    forall w: nat | w < v + 1 ensures CopyAt(r, c', p, c0, w) {
      if w < v {
        assert CopyAt(s, c, p, c0, w);
        EntryNotFree(s, owner, w);
      }
    }
  }

  lemma EntryNotFree(s: Space, owner: Owner, w: nat)
    requires Sound(s, owner) && w < USERPAGES && Entry(s, w) != 0
    ensures Entry(s, w) !in s.free
  {
    assert EntryOk(s, owner, w);
  }

  /** The child has pages of its own. */
  lemma OwnPages(s: Space, owner: Owner, p: Space, n: nat, a: Stock, v: nat, w: nat)
    requires Sound(s, owner) && Backs(p, n, a) && Pages(s, owner) <= a.pages && v < USERPAGES && w < n
    requires Entry(s, v) != 0
    ensures Entry(s, v) != Entry(p, w)
  {
    assert EntryOk(s, owner, v);
  }

  lemma AllOwnPages(s: Space, owner: Owner, p: Space, n: nat, a: Stock, b: Stock)
    requires Sound(s, owner) && Backs(p, n, a) && Tame(a, b) && b.pages == Pages(s, owner) && UpTo(s, n)
    ensures forall v: nat, w: nat :: v < n && w < n ==> Entry(s, v) != Entry(p, w)
  {
    forall v: nat, w: nat | v < n && w < n ensures Entry(s, v) != Entry(p, w) {
      OwnPages(s, owner, p, n, a, v, w);
    }
  }

  lemma BacksShape(p: Space, n: nat, k: Stock)
    requires Backs(p, n, k)
    ensures Shape(p) && n <= USERPAGES
  {}

  lemma EmptyNoDup()
    ensures NoDup([])
  {}

  lemma Taken(q: seq<nat>)
    requires NoDup(q) && q != []
    ensures NoDup(q[1..]) && forall p :: p in q[1..] <==> p in q && p != q[0]
  {
    forall p | p in q && p != q[0] ensures p in q[1..] {
      var i :| 0 <= i < |q| && q[i] == p;
      assert q[1..][i - 1] == p;
    }
  }

  /** A directory without tables, and the rest of the pages free. */
  lemma FreshSound(s: Space, owner: Owner, lo: nat, hi: nat)
    requires s.pgdir == NoEntries() && 0 < lo < hi && s.root == hi - 1 && owner == map[s.root := Directory]
    requires NoDup(s.free) && forall p :: p in s.free <==> lo <= p < hi - 1
    ensures Sound(s, owner) && UpTo(s, 0)
    ensures forall p :: p in Pages(s, owner) <==> lo <= p < hi
  {
    hide NoDup, Entry, Elements;
    FreshUnmapped(s);
    assert UpTo(s, 0) && Sound(s, owner);
    FreshPages(s, owner, lo, hi);
  }

  lemma FreshUnmapped(s: Space)
    requires s.pgdir == NoEntries()
    ensures Shape(s) && forall v: nat :: v < USERPAGES ==> Entry(s, v) == 0
  {}

  lemma FreshPages(s: Space, owner: Owner, lo: nat, hi: nat)
    requires 0 < lo < hi && (forall p :: p in owner <==> p == hi - 1) && forall p :: p in s.free <==> lo <= p < hi - 1
    ensures forall p :: p in Pages(s, owner) <==> lo <= p < hi
  {
    hide Elements;
    ElementsAre(s.free);
  }

  lemma NotFree(s: Space, owner: Owner, p: nat)
    requires Sound(s, owner) && p in owner
    ensures p !in s.free
  {}

  lemma NeedTwo(s: Space)
    requires s.pgdir == NoEntries() && Shape(s)
    ensures Need(s, 0, 0) == 0 && Need(s, 0, 1) == 2
  {
    assert Need(s, 0, 1) == Need(s, 0, 0) + 2;
  }

  lemma NothingMapped(s: Space)
    requires Shape(s) && UpTo(s, 0)
    ensures Entry(s, 0) == 0
  {}

  /** One free page and no page table: allocuvm reports success, maps nothing, and the page is gone. */
  method PageLost(lo: nat) returns (sp: AddressSpace, r: nat)
    requires 0 < lo
    ensures fresh(sp) && sp.Valid() && r == PGSIZE && Entry(sp.View(), 0) == 0 && |sp.lost| == 1
  {
    hide Sound, Pages, UpTo, Need, NeedsTable, Entry, SameBelow, Chain, Elements;
    sp := new AddressSpace(lo, lo + 2);
    SoundShape(sp.View(), sp.owner);
    NeedTwo(sp.View());
    ghost var at;
    r, at := sp.AllocUvm(0, PGSIZE);
    SoundShape(sp.View(), sp.owner);
    NothingMapped(sp.View());
    assert sp.lost - {} == sp.lost;
  }

  lemma AllUnmapped(s: Space, owner: Owner, r: Space)
    requires Sound(s, owner) && r == Dealloc(s, PagesFor(0), PagesFor(KERNBASE))
    ensures Shape(r) && forall v: nat :: v < USERPAGES ==> Entry(r, v) == 0
  {
    DeallocAt(s, owner, 0, USERPAGES, 0);
    forall v: nat | v < USERPAGES ensures Entry(r, v) == 0 {
      DeallocAt(s, owner, 0, USERPAGES, v);
      NoneMissedFromZero(s, v);
    }
  }

  lemma FreeIs(s: Space, owner: Owner)
    requires Sound(s, owner)
    ensures NoDup(s.free) && s.root in owner
  {}

  lemma TableInPages(s: Space, owner: Owner, d: nat)
    requires Sound(s, owner) && d < NPD && s.pgdir[d] != 0
    ensures s.pgdir[d] in Pages(s, owner)
  {
    assert TableOk(s, owner, d);
  }

  lemma NotListed(q: seq<nat>, r: seq<nat>, t: set<nat>, p: nat)
    requires Elements(r) == Elements(q) + t && p !in q && p !in t
    ensures p !in r
  {
    ElementsAre(q);
    ElementsAre(r);
  }

  ghost predicate SameBelow(s: Space, r: Space, a: nat) {
    Shape(s) && Shape(r) && forall w: nat :: w < a && w < USERPAGES ==> Entry(r, w) == Entry(s, w)
  }

  ghost predicate SamePage(c: map<nat, Page>, c': map<nat, Page>, p: nat) {
    (p in c' <==> p in c) && (p in c ==> c'[p] == c[p])
  }

  /** The pages of `r` were pages of `s`, and hold what they held. */
  ghost predicate Still(s: Space, c: map<nat, Page>, r: Space, c': map<nat, Page>) {
    && Shape(s) && Shape(r)
    && forall w: nat :: w < USERPAGES && Entry(r, w) != 0 ==> Entry(r, w) == Entry(s, w) && SamePage(c, c', Entry(s, w))
  }

  lemma StillRefl(s: Space, c: map<nat, Page>)
    requires Shape(s)
    ensures Still(s, c, s, c)
  {}

  lemma StillTrans(s: Space, c: map<nat, Page>, r: Space, c': map<nat, Page>, q: Space, c'': map<nat, Page>)
    requires Still(s, c, r, c') && Still(r, c', q, c'')
    ensures Still(s, c, q, c'')
  {
    hide Entry;
  }

  /** A page is at no other place than its own, so overwriting it when it is unmapped hurts no other. */
  lemma StillUnmap(s: Space, owner: Owner, v: nat, c: map<nat, Page>, x: Page)
    requires Sound(s, owner) && v < USERPAGES && Entry(s, v) != 0
    ensures Still(s, c, Unmap(s, v), c[Entry(s, v) := x])
  {
    var r, c' := Unmap(s, v), c[Entry(s, v) := x];
    UnmapAt(s, owner, v, v);
    forall w: nat | w < USERPAGES && Entry(r, w) != 0
      ensures Entry(r, w) == Entry(s, w) && SamePage(c, c', Entry(s, w))
    {
      UnmapAt(s, owner, v, w);
      assert EntryOk(s, owner, v) && EntryOk(s, owner, w);
    }
  }

  /** The pages below `a` are the same, and hold the same. */
  ghost predicate KeptBelow(s: Space, c: map<nat, Page>, r: Space, c': map<nat, Page>, a: nat) {
    SameBelow(s, r, a) && forall w: nat :: w < a && w < USERPAGES ==> SamePage(c, c', Entry(s, w))
  }

  ghost predicate AllZero(x: Page) {
    |x| == PGSIZE && forall i :: 0 <= i < PGSIZE ==> x[i] == 0
  }

  /** The pages from `a` up to `v` are full of zeros. */
  ghost predicate Zeroed(r: Space, c: map<nat, Page>, a: nat, v: nat) {
    && Shape(r) && v <= USERPAGES
    && forall w: nat :: a <= w < v ==> Entry(r, w) in c && AllZero(c[Entry(r, w)])
  }

  lemma KeptStart(s: Space, c: map<nat, Page>, a: nat)
    requires Shape(s) && a <= USERPAGES
    ensures KeptBelow(s, c, s, c, a) && Zeroed(s, c, a, a)
  {}

  lemma PopEntries(s: Space, v: nat)
    requires Shape(s) && s.free != [] && Shape(Pop(s))
    ensures SameBelow(s, Pop(s), v)
  {}

  lemma MappedEntries(s: Space, r: Space, v: nat)
    requires v < USERPAGES && MappedOne(s, r, v)
    ensures SameBelow(s, r, v)
  {}

  /** A page from the free list is filled: none of those mapped. */
  lemma Filled(s: Space, c0: map<nat, Page>, r: Space, owner: Owner, q: Space, c: map<nat, Page>, a: nat, v: nat,
               x: Page)
    requires Sound(r, owner) && r.free != [] && a <= v <= USERPAGES && UpTo(r, v) && SameBelow(r, q, v)
    requires KeptBelow(s, c0, r, c, a) && Zeroed(r, c, a, v)
    ensures KeptBelow(s, c0, q, c[r.free[0] := x], a) && Zeroed(q, c[r.free[0] := x], a, v)
  {
    hide Entry, Sound;
    forall w: nat | w < v ensures Entry(r, w) != r.free[0] {
      EntryNotFree(r, owner, w);
    }
  }

  lemma ZeroedNext(r: Space, c: map<nat, Page>, a: nat, v: nat)
    requires v < USERPAGES && Zeroed(r, c, a, v) && Entry(r, v) in c && AllZero(c[Entry(r, v)])
    ensures Zeroed(r, c, a, v + 1)
  {}

  lemma KeptRestored(s: Space, c0: map<nat, Page>, r: Space, c: map<nat, Page>, q: Space, c': map<nat, Page>, a: nat)
    requires a <= USERPAGES && KeptBelow(s, c0, r, c, a) && Still(r, c, q, c') && UpTo(q, a)
    ensures KeptBelow(s, c0, q, c', a)
  {
    hide Entry;
  }

  /** Pages from `a` up to `v` have been added to what was in `s`. */
  ghost predicate Growing(s: Space, r: Space, a: nat, v: nat)
    requires v <= USERPAGES
  {
    Shape(s) && Shape(r) && TablesTo(s, r, a, v) && UpTo(r, v) && |r.free| == |s.free| - Need(s, a, v)
  }

  lemma Order(oldsz: nat, newsz: nat)
    requires oldsz <= newsz < KERNBASE
    ensures PagesFor(oldsz) <= PagesFor(newsz) <= USERPAGES
  {}

  lemma GrowStart(s: Space, a: nat)
    requires Shape(s) && UpTo(s, a) && a <= USERPAGES
    ensures Growing(s, s, a, a) && SameBelow(s, s, a)
  {}

  lemma GrowingIs(s: Space, r: Space, a: nat, v: nat)
    requires a <= v < USERPAGES && Growing(s, r, a, v)
    ensures UpTo(r, v) && |r.free| == |s.free| - Need(s, a, v) && (r.pgdir[v / NPT] == 0 <==> NeedsTable(s, a, v))
  {
    TableMissing(s, r, a, v);
  }

  lemma Unmapped(r: Space, k: nat, v: nat)
    requires Shape(r) && UpTo(r, k) && k <= v < USERPAGES
    ensures Entry(r, v) == 0
  {}

  lemma OutOfPages(s: Space, a: nat, at: nat, n: nat)
    requires |s.pgdir| == NPD && a <= at < n <= USERPAGES
    requires |s.free| == Need(s, a, at) || (|s.free| == Need(s, a, at) + 1 && NeedsTable(s, a, at))
    ensures |s.free| < Need(s, a, n)
  {
    NeedUp(s, a, at, n);
  }

  lemma Restored(s: Space, r: Space, owner: Owner, a: nat, k: nat, n: nat)
    requires Sound(r, owner) && UpTo(r, k) && SameBelow(s, r, a) && a <= k <= n <= USERPAGES
    ensures Shape(Dealloc(r, a, n)) && UpTo(Dealloc(r, a, n), a) && SameBelow(s, Dealloc(r, a, n), a)
  {
    DeallocUpTo(r, owner, k, a, n);
  }

  /** The page table for page `at` was missing, and with it the last page was lost. */
  ghost predicate RanShort(s: Space, r: Space, a: nat, at: nat, n: nat, lost: set<nat>, lost': set<nat>) {
    && a <= at < n <= USERPAGES && Shape(s) && Shape(r) && r.free == [] && UpTo(r, at)
    && |s.free| == Need(s, a, at) + 1 && NeedsTable(s, a, at)
    && |lost' - lost| == 1 && lost <= lost'
  }

  lemma RanShortIs(s: Space, r: Space, a: nat, at: nat, n: nat, lost: set<nat>, lost': set<nat>)
    requires RanShort(s, r, a, at, n, lost, lost')
    ensures a <= at < n <= USERPAGES && Shape(r) && r.free == [] && UpTo(r, at) && |s.pgdir| == NPD
    ensures |s.free| == Need(s, a, at) + 1 && NeedsTable(s, a, at)
    ensures |lost' - lost| == 1 && lost <= lost'
  {}

  lemma ShortNow(s: Space, r: Space, owner: Owner, a: nat, v: nat, n: nat, lost: set<nat>)
    requires a <= v < n <= USERPAGES && Growing(s, r, a, v) && SameBelow(s, r, a) && Sound(r, owner) && |r.free| == 1
    requires r.pgdir[v / NPT] == 0 && r.free[0] !in lost
    ensures Shape(Pop(r)) && SameBelow(s, Pop(r), a)
    ensures RanShort(s, Pop(r), a, v, n, lost, lost + {r.free[0]})
  {
    PopSound(r, owner);
    TableMissing(s, r, a, v);
    assert (lost + {r.free[0]}) - lost == {r.free[0]};
  }

  lemma GrowingNext(s: Space, r: Space, q: Space, a: nat, v: nat)
    requires a <= v < USERPAGES && Growing(s, r, a, v) && SameBelow(s, r, a) && MappedOne(r, q, v)
    ensures Growing(s, q, a, v + 1) && SameBelow(s, q, a)
  {
    TableMissing(s, r, a, v);
    TablesNext(s, r, q, a, v);
  }

  lemma GrowingDone(s: Space, r: Space, a: nat, n: nat)
    requires a <= n <= USERPAGES && Growing(s, r, a, n)
    ensures UpTo(r, n) && |r.free| == |s.free| - Need(s, a, n)
  {}

  /** Page `v` is mapped now, with a table if there was none, and nothing else has changed. */
  ghost predicate MappedOne(s: Space, r: Space, v: nat)
    requires v < USERPAGES
  {
    && Shape(s) && Shape(r) && Entry(r, v) != 0
    && (forall w: nat :: w < USERPAGES && w != v ==> Entry(r, w) == Entry(s, w))
    && r.pgdir[v / NPT] != 0 && (forall d: nat :: d < NPD && d != v / NPT ==> r.pgdir[d] == s.pgdir[d])
    && |r.free| == |s.free| - (if s.pgdir[v / NPT] == 0 then 2 else 1)
  }

  ghost predicate SameEntries(s: Space, r: Space) {
    Shape(s) && Shape(r) && forall w: nat :: w < USERPAGES ==> Entry(r, w) == Entry(s, w)
  }

  lemma AddTableEntries(s: Space, owner: Owner, d: nat, p: nat)
    requires Sound(s, owner) && d < NPD && s.pgdir[d] == 0 && Held(s, owner, p)
    ensures SameEntries(s, AddTable(s, d, p))
  {
    AddTableAt(s, owner, d, p, 0);
    var r := AddTable(s, d, p);
    forall w: nat | w < USERPAGES ensures Entry(r, w) == Entry(s, w) {
      AddTableAt(s, owner, d, p, w);
    }
  }

  /** A page held stays so while another becomes a table. */
  lemma HeldStill(s: Space, owner: Owner, p: nat, d: nat)
    requires Sound(s, owner) && Held(s, owner, p) && s.free != [] && d < NPD
    ensures Shape(Pop(s))
    ensures Held(AddTable(Pop(s), d, s.free[0]), owner[s.free[0] := Table(d)], p)
  {
    Popped(s.free);
    PopSound(s, owner);
    assert s.free[0] in s.free;
  }

  lemma EntryIs(s: Space, v: nat)
    requires Shape(s) && v < USERPAGES && s.pgdir[v / NPT] != 0
    ensures s.pgdir[v / NPT] in s.tables && |s.tables[s.pgdir[v / NPT]]| == NPT
    ensures Entry(s, v) == s.tables[s.pgdir[v / NPT]][v % NPT]
  {
    assert TableHere(s, v / NPT);
  }

  /** Page `v` is mapped to `p` now, with a table if there was none, and nothing else has changed. */
  ghost predicate MappedAs(s: Space, r: Space, v: nat, p: nat)
    requires v < USERPAGES
  {
    && Shape(s) && Shape(r) && Entry(r, v) == p != 0
    && (forall w: nat :: w < USERPAGES && w != v ==> Entry(r, w) == Entry(s, w))
    && r.pgdir[v / NPT] != 0 && (forall d: nat :: d < NPD && d != v / NPT ==> r.pgdir[d] == s.pgdir[d])
    && |r.free| == |s.free| - (if s.pgdir[v / NPT] == 0 then 1 else 0)
  }

  lemma MappedPop(s: Space, r: Space, v: nat, p: nat)
    requires Shape(s) && v < USERPAGES && s.free != [] && Shape(Pop(s)) && MappedAs(Pop(s), r, v, p)
    requires forall w: nat :: w < USERPAGES ==> Entry(Pop(s), w) == Entry(s, w)
    ensures MappedOne(s, r, v) && Entry(r, v) == p
  {
    hide Entry;
  }

  lemma SameRefl(s: Space)
    requires Shape(s)
    ensures SameEntries(s, s)
  {}

  lemma HeldIs(s: Space, owner: Owner, p: nat)
    requires Held(s, owner, p)
    ensures p != 0
  {}

  lemma MappedPage(s: Space, r: Space, owner: Owner, v: nat, p: nat)
    requires Shape(s) && Sound(r, owner) && SameEntries(s, r) && v < USERPAGES && r.pgdir[v / NPT] != 0 && p != 0
    requires forall d: nat :: d < NPD && d != v / NPT ==> r.pgdir[d] == s.pgdir[d]
    requires |r.free| == |s.free| - (if s.pgdir[v / NPT] == 0 then 1 else 0)
    ensures MappedAs(s, SetEntry(r, v, p), v, p)
  {
    SetEntryAt(r, owner, v, p, v);
    var q := SetEntry(r, v, p);
    forall w: nat | w < USERPAGES && w != v ensures Entry(q, w) == Entry(s, w) {
      SetEntryAt(r, owner, v, p, w);
    }
  }

  lemma FirstFree(s: Space, owner: Owner)
    requires Sound(s, owner) && s.free != []
    ensures s.free[0] != 0 && s.free[0] in Pages(s, owner)
  {
    assert s.free[0] in s.free;
    ElementsAre(s.free);
  }

  lemma InPages(s: Space, owner: Owner, p: nat)
    requires p in owner
    ensures p in Pages(s, owner)
  {}

  lemma InRange(a: nat, v: nat, sz: nat)
    requires a == v * PGSIZE && sz <= KERNBASE
    ensures a < sz <==> v < PagesFor(sz)
    ensures a / PGSIZE == v
    ensures PagesFor(sz) <= USERPAGES
  {}

  lemma DeallocStep(s: Space, v: nat, n: nat)
    requires Shape(s) && v < n <= USERPAGES
    ensures s.pgdir[v / NPT] == 0 ==> Dealloc(s, v, n) == Dealloc(s, v + NPT, n)
    ensures s.pgdir[v / NPT] != 0 && Entry(s, v) == 0 ==> Dealloc(s, v, n) == Dealloc(s, v + 1, n)
    ensures s.pgdir[v / NPT] != 0 && Entry(s, v) != 0 ==>
      Shape(Unmap(s, v)) && Dealloc(s, v, n) == Dealloc(Unmap(s, v), v + 1, n)
  {
    if s.pgdir[v / NPT] != 0 && Entry(s, v) != 0 {
      UnmapShape(s, v);
    }
  }

  lemma DeallocDone(s: Space, v: nat, n: nat)
    requires Shape(s) && n <= v && n <= USERPAGES
    ensures Dealloc(s, v, n) == s
  {}
}
